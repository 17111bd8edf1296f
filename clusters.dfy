/**
 * The cluster registry: the parsed contents of `config/clusters.json`, read
 * once and cached, with the id list, a lookup, and a resolver that
 * substitutes environment variables into each cluster's HTTP headers.
 *
 * `onDisk` is what reading and parsing the file would produce if it were
 * read now; `env` is `process.env`.
 */
module Clusters {
  import opened Options
  import opened Records
  import opened Placeholders

  datatype ClusterConfig = ClusterConfig(url: string, headers: Record<string>)

  datatype ClustersConfig = ClustersConfig(clusters: Record<ClusterConfig>)

  /** `Object.keys(config.clusters)`: every configured id once, in object order. */
  function ClusterIds(config: ClustersConfig): (ids: seq<string>)
    ensures |ids| == |config.clusters|
    ensures forall id :: id in ids <==> Get(config.clusters, id).Some?
    ensures forall i, j :: 0 <= i < j < |ids| ==> ids[i] != ids[j]
  {
    KeysAreTheLookupDomain(config.clusters);
    KeysDistinct(config.clusters);
    Keys(config.clusters)
  }

  /** `config.clusters[id] || null`. */
  function ClusterConfigFor(config: ClustersConfig, id: string): (c: Option<ClusterConfig>)
    ensures c.Some? <==> id in ClusterIds(config)
    ensures c.Some? ==> exists i :: 0 <= i < |config.clusters| && config.clusters[i] == (id, c.value)
  {
    var c := Get(config.clusters, id);
    if c.Some? then GetFound(config.clusters, id); c else c
  }

  /**
   * The cluster with every header value resolved: `null` exactly when the
   * id is not configured; otherwise the same url, the same header keys in
   * the same order, and each header value resolved.
   */
  function ResolvedCluster(config: ClustersConfig, env: map<string, string>, id: string): (r: Option<ClusterConfig>)
    ensures r.None? <==> id !in ClusterIds(config)
    ensures r.Some? ==>
      var c := ClusterConfigFor(config, id).value;
      && r.value.url == c.url
      && Keys(r.value.headers) == Keys(c.headers)
      && forall k ::
        Get(r.value.headers, k)
        == if Get(c.headers, k).Some? then Some(Resolve(Get(c.headers, k).value, env)) else None
  {
    match ClusterConfigFor(config, id)
    case None => None
    case Some(c) =>
      ResolvedHeadersSpecEvery(c.headers, env);
      Some(c.(headers := ResolvedHeaders(c.headers, env)))
  }

  /** The configuration in effect: the cached one, else what is on disk. */
  function Loaded(cache: Option<ClustersConfig>, onDisk: ClustersConfig): ClustersConfig {
    cache.GetOr(onDisk)
  }

  /** The module-level `cachedConfig` and the functions that go through it. */
  class ClusterRegistry {
    var cachedConfig: Option<ClustersConfig>
    /** How many times the configuration file has been read. */
    ghost var fileReads: nat

    /** The file has been read once exactly when the cache is filled, and never again. */
    ghost predicate Valid()
      reads this
    {
      fileReads == if cachedConfig.Some? then 1 else 0
    }

    constructor ()
      ensures Valid() && cachedConfig == None
    {
      cachedConfig := None;
      fileReads := 0;
    }

    /** `getClustersConfig`: read and cache on the first call, return the cache afterwards. */
    method GetClustersConfig(onDisk: ClustersConfig) returns (config: ClustersConfig)
      requires Valid()
      modifies this
      ensures Valid()
      ensures config == Loaded(old(cachedConfig), onDisk) && cachedConfig == Some(config)
      ensures old(cachedConfig).Some? ==> cachedConfig == old(cachedConfig) && fileReads == old(fileReads)
    {
      if cachedConfig.Some? {
        return cachedConfig.value;
      }
      fileReads := fileReads + 1;
      cachedConfig := Some(onDisk);
      return onDisk;
    }

    /** `getClusterIds`. */
    method GetClusterIds(onDisk: ClustersConfig) returns (ids: seq<string>)
      requires Valid()
      modifies this
      ensures Valid() && cachedConfig == Some(Loaded(old(cachedConfig), onDisk))
      ensures ids == ClusterIds(Loaded(old(cachedConfig), onDisk))
    {
      var config := GetClustersConfig(onDisk);
      ids := ClusterIds(config);
    }

    /** `getClusterConfig(id)`. */
    method GetClusterConfig(onDisk: ClustersConfig, id: string) returns (c: Option<ClusterConfig>)
      requires Valid()
      modifies this
      ensures Valid() && cachedConfig == Some(Loaded(old(cachedConfig), onDisk))
      ensures c == ClusterConfigFor(Loaded(old(cachedConfig), onDisk), id)
    {
      var config := GetClustersConfig(onDisk);
      c := ClusterConfigFor(config, id);
    }

    /**
     * `getResolvedClusterConfig(id)`: a copy of the entry with its header
     * values resolved; the cached configuration keeps its unresolved headers.
     */
    method GetResolvedClusterConfig(onDisk: ClustersConfig, env: map<string, string>, id: string)
      returns (r: Option<ClusterConfig>)
      requires Valid()
      modifies this
      ensures Valid() && cachedConfig == Some(Loaded(old(cachedConfig), onDisk))
      ensures r == ResolvedCluster(Loaded(old(cachedConfig), onDisk), env, id)
    {
      var c := GetClusterConfig(onDisk, id);
      if c.None? {
        return None;
      }
      var resolvedHeaders := ResolveHeaders(c.value.headers, env);
      r := Some(c.value.(headers := resolvedHeaders));
    }
  }

  /** Once loaded, later calls return the first file contents even if the file changed. */
  method CacheIgnoresLaterFileContents(first: ClustersConfig, second: ClustersConfig)
    returns (a: seq<string>, b: seq<string>)
    ensures a == ClusterIds(first) && b == ClusterIds(first)
  {
    var registry := new ClusterRegistry();
    a := registry.GetClusterIds(first);
    b := registry.GetClusterIds(second);
    assert registry.fileReads == 1;
  }
}
