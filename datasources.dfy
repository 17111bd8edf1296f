/**
 * The datasource registry: the parsed contents of `config/datasources.json`,
 * read once and cached, with projections for the UI and a resolver that
 * substitutes environment variables into each datasource's HTTP headers.
 *
 * The file's parsed contents and the process environment are parameters:
 * `onDisk` is what reading and parsing the file would produce if it were
 * read now, `env` is `process.env`.
 */
module Datasources {
  import opened Options
  import opened Records
  import opened Placeholders

  /** `'cluster' | 'federated'`. */
  datatype DatasourceType = Cluster | Federated

  /** One configured datasource; `kind` is the JSON field `type`. */
  datatype DatasourceConfig = DatasourceConfig(kind: DatasourceType, url: string, headers: Record<string>, icon: string)

  datatype DatasourcesConfig = DatasourcesConfig(datasources: Record<DatasourceConfig>)

  /** What is sent to client components: no `url`, no `headers`. */
  datatype DatasourceInfo = DatasourceInfo(id: string, kind: DatasourceType, icon: string)

  /** `Object.keys(config.datasources)`: every configured id once, in object order. */
  function DatasourceIds(config: DatasourcesConfig): (ids: seq<string>)
    ensures |ids| == |config.datasources|
    ensures forall id :: id in ids <==> Get(config.datasources, id).Some?
    ensures forall i, j :: 0 <= i < j < |ids| ==> ids[i] != ids[j]
  {
    KeysAreTheLookupDomain(config.datasources);
    KeysDistinct(config.datasources);
    Keys(config.datasources)
  }

  /** `Object.entries(config.datasources).map(([id, ds]) => ({ id, type, icon }))`. */
  function DatasourcesInfo(config: DatasourcesConfig): (infos: seq<DatasourceInfo>)
    ensures |infos| == |DatasourceIds(config)|
    ensures forall i :: 0 <= i < |infos| ==> infos[i].id == DatasourceIds(config)[i]
    ensures forall i :: 0 <= i < |infos| ==>
      var ds := Get(config.datasources, infos[i].id);
      ds.Some? && infos[i].kind == ds.value.kind && infos[i].icon == ds.value.icon
  {
    var r := config.datasources;
    GetAtEvery(r);
    seq(|r|, i requires 0 <= i < |r| => DatasourceInfo(r[i].0, r[i].1.kind, r[i].1.icon))
  }

  /** `config.datasources[id] || null`. */
  function DatasourceConfigFor(config: DatasourcesConfig, id: string): (ds: Option<DatasourceConfig>)
    ensures ds.Some? <==> id in DatasourceIds(config)
    ensures ds.Some? ==> exists i :: 0 <= i < |config.datasources| && config.datasources[i] == (id, ds.value)
  {
    var ds := Get(config.datasources, id);
    if ds.Some? then GetFound(config.datasources, id); ds else ds
  }

  /**
   * The datasource with every header value resolved: `null` exactly when the
   * id is not configured; otherwise type, url and icon as configured, the
   * same header keys in the same order, and each header value resolved.
   */
  function ResolvedDatasource(config: DatasourcesConfig, env: map<string, string>, id: string): (r: Option<DatasourceConfig>)
    ensures r.None? <==> id !in DatasourceIds(config)
    ensures r.Some? ==>
      var ds := DatasourceConfigFor(config, id).value;
      && r.value.kind == ds.kind && r.value.url == ds.url && r.value.icon == ds.icon
      && Keys(r.value.headers) == Keys(ds.headers)
      && forall k :: Get(r.value.headers, k)
                  == if Get(ds.headers, k).Some? then Some(Resolve(Get(ds.headers, k).value, env)) else None
  {
    match DatasourceConfigFor(config, id)
    case None => None
    case Some(ds) =>
      ResolvedHeadersSpecEvery(ds.headers, env);
      Some(ds.(headers := ResolvedHeaders(ds.headers, env)))
  }

  /** The configuration in effect: the cached one, else what is on disk. */
  function Loaded(cache: Option<DatasourcesConfig>, onDisk: DatasourcesConfig): DatasourcesConfig {
    cache.GetOr(onDisk)
  }

  /** The module-level `cachedConfig` and the functions that go through it. */
  class DatasourceRegistry {
    var cachedConfig: Option<DatasourcesConfig>
    /** How many times the configuration file has been read. */
    ghost var fileReads: nat

    /** The file has been read once exactly when the cache is filled, and never again. */
    ghost predicate Valid()
      reads this
    {
      fileReads == if cachedConfig.Some? then 1 else 0
    }

    constructor ()
      ensures Valid() && cachedConfig == None
    {
      cachedConfig := None;
      fileReads := 0;
    }

    /** `getDatasourcesConfig`: read and cache on the first call, return the cache afterwards. */
    method GetDatasourcesConfig(onDisk: DatasourcesConfig) returns (config: DatasourcesConfig)
      requires Valid()
      modifies this
      ensures Valid()
      ensures config == Loaded(old(cachedConfig), onDisk) && cachedConfig == Some(config)
      ensures old(cachedConfig).Some? ==> cachedConfig == old(cachedConfig) && fileReads == old(fileReads)
    {
      if cachedConfig.Some? {
        return cachedConfig.value;
      }
      fileReads := fileReads + 1;
      cachedConfig := Some(onDisk);
      return onDisk;
    }

    /** `getDatasourceIds`. */
    method GetDatasourceIds(onDisk: DatasourcesConfig) returns (ids: seq<string>)
      requires Valid()
      modifies this
      ensures Valid() && cachedConfig == Some(Loaded(old(cachedConfig), onDisk))
      ensures ids == DatasourceIds(Loaded(old(cachedConfig), onDisk))
    {
      var config := GetDatasourcesConfig(onDisk);
      ids := DatasourceIds(config);
    }

    /** `getDatasourcesInfo`. */
    method GetDatasourcesInfo(onDisk: DatasourcesConfig) returns (infos: seq<DatasourceInfo>)
      requires Valid()
      modifies this
      ensures Valid() && cachedConfig == Some(Loaded(old(cachedConfig), onDisk))
      ensures infos == DatasourcesInfo(Loaded(old(cachedConfig), onDisk))
    {
      var config := GetDatasourcesConfig(onDisk);
      infos := DatasourcesInfo(config);
    }

    /** `getDatasourceConfig(id)`. */
    method GetDatasourceConfig(onDisk: DatasourcesConfig, id: string) returns (ds: Option<DatasourceConfig>)
      requires Valid()
      modifies this
      ensures Valid() && cachedConfig == Some(Loaded(old(cachedConfig), onDisk))
      ensures ds == DatasourceConfigFor(Loaded(old(cachedConfig), onDisk), id)
    {
      var config := GetDatasourcesConfig(onDisk);
      ds := DatasourceConfigFor(config, id);
    }

    /**
     * `getResolvedDatasourceConfig(id)`: a copy of the entry with its header
     * values resolved; the cached configuration keeps its unresolved headers.
     */
    method GetResolvedDatasourceConfig(onDisk: DatasourcesConfig, env: map<string, string>, id: string)
      returns (r: Option<DatasourceConfig>)
      requires Valid()
      modifies this
      ensures Valid() && cachedConfig == Some(Loaded(old(cachedConfig), onDisk))
      ensures r == ResolvedDatasource(Loaded(old(cachedConfig), onDisk), env, id)
    {
      var ds := GetDatasourceConfig(onDisk, id);
      if ds.None? {
        return None;
      }
      var resolvedHeaders := ResolveHeaders(ds.value.headers, env);
      r := Some(ds.value.(headers := resolvedHeaders));
    }
  }

  /** Once loaded, later calls return the first file contents even if the file changed. */
  method CacheIgnoresLaterFileContents(first: DatasourcesConfig, second: DatasourcesConfig, id: string)
    returns (a: DatasourcesConfig, b: Option<DatasourceConfig>)
    ensures a == first
    ensures b == DatasourceConfigFor(first, id)
  {
    var registry := new DatasourceRegistry();
    a := registry.GetDatasourcesConfig(first);
    b := registry.GetDatasourceConfig(second, id);
    assert registry.fileReads == 1;
  }
}
