/**
 * Environment-variable placeholders in configured HTTP header values.
 *
 * Both registries rewrite every header value with the global regular
 * expression `\$\{(\w+)\}`: scanning left to right, each `${NAME}` whose
 * NAME is one or more word characters is replaced by the environment value
 * of NAME, or by the empty string when it is unset or empty. The replacement
 * is done by a callback, so the substituted text is never re-scanned.
 */
module Placeholders {
  import opened Options
  import opened Records

  /** The regular-expression class `\w`: `[A-Za-z0-9_]`. */
  predicate IsWordChar(c: char) {
    ('A' <= c <= 'Z') || ('a' <= c <= 'z') || ('0' <= c <= '9') || c == '_'
  }

  predicate IsName(n: string) {
    |n| > 0 && forall i :: 0 <= i < |n| ==> IsWordChar(n[i])
  }

  /** The text `${name}`. */
  function PlaceholderText(name: string): string {
    "${" + name + "}"
  }

  /** Length of the longest prefix of `s` made of word characters. */
  function WordRun(s: string): (n: nat)
    ensures n <= |s|
    ensures forall i :: 0 <= i < n ==> IsWordChar(s[i])
    ensures n < |s| ==> !IsWordChar(s[n])
    decreases |s|
  {
    if s != [] && IsWordChar(s[0]) then 1 + WordRun(s[1..]) else 0
  }

  /**
   * The name of the placeholder the regular expression matches at the start
   * of `s`, if any. Because `}` is not a word character, backtracking the
   * greedy `\w+` can never produce a match that the longest run misses.
   */
  function MatchAt(s: string): (m: Option<string>)
    ensures m.Some? ==> IsName(m.value) && |m.value| + 3 <= |s|
                        && s[..|m.value| + 3] == PlaceholderText(m.value)
  {
    if |s| >= 2 && s[0] == '$' && s[1] == '{' then
      var n := WordRun(s[2..]);
      if n > 0 && 2 + n < |s| && s[2 + n] == '}' then
        assert s[..n + 3] == "${" + s[2..2 + n] + "}";
        Some(s[2..2 + n])
      else None
    else None
  }

  /** The converse: text that starts with a placeholder is matched as that placeholder. */
  lemma MatchAtComplete(name: string, rest: string)
    requires IsName(name)
    ensures MatchAt(PlaceholderText(name) + rest) == Some(name)
  {
    var s := PlaceholderText(name) + rest;
    assert s[2..] == name + "}" + rest;
    var n := WordRun(s[2..]);
    assert forall i :: 0 <= i < |name| ==> s[2..][i] == name[i];
    assert s[2..][|name|] == '}';
    assert n == |name|;
    assert s[2..2 + n] == name;
  }

  /** `process.env[name] || ''`. */
  function EnvValue(env: map<string, string>, name: string): string {
    if name in env then env[name] else ""
  }

  /** `value.replace(/\$\{(\w+)\}/g, (_, v) => process.env[v] || '')`. */
  function Resolve(s: string, env: map<string, string>): string
    decreases |s|
  {
    if s == [] then []
    else match MatchAt(s)
      case Some(name) => EnvValue(env, name) + Resolve(s[|name| + 3..], env)
      case None => [s[0]] + Resolve(s[1..], env)
  }

  /** The names of the placeholders the scan matches, in order. */
  function Names(s: string): (ns: seq<string>)
    ensures forall i :: 0 <= i < |ns| ==> IsName(ns[i])
    decreases |s|
  {
    if s == [] then []
    else match MatchAt(s)
      case Some(name) => [name] + Names(s[|name| + 3..])
      case None => Names(s[1..])
  }

  /**
   * Everything outside the matched placeholders is copied verbatim and each
   * placeholder is replaced where it stands: with an environment that maps
   * every matched name back to its own placeholder text, nothing changes.
   */
  lemma {:induction false} ResolveCopiesText(s: string, env: map<string, string>)
    requires forall n :: n in Names(s) ==> EnvValue(env, n) == PlaceholderText(n)
    ensures Resolve(s, env) == s
    decreases |s|
  {
    if s != [] {
      match MatchAt(s)
      case Some(name) =>
        var rest := s[|name| + 3..];
        assert s == PlaceholderText(name) + rest;
        ResolvePlaceholderFirst(name, rest, env);
        forall n | n in Names(rest) ensures EnvValue(env, n) == PlaceholderText(n) {
          assert n in Names(s);
        }
        ResolveCopiesText(rest, env);
      case None =>
        assert Names(s) == Names(s[1..]);
        ResolveCopiesText(s[1..], env);
        assert s == [s[0]] + s[1..];
    }
  }

  /** A header value with no placeholder is returned unchanged. */
  lemma ResolveWithoutPlaceholders(s: string, env: map<string, string>)
    requires Names(s) == []
    ensures Resolve(s, env) == s
  {
    ResolveCopiesText(s, env);
  }

  /** Only the matched names are looked up in the environment. */
  lemma {:induction false} ResolveReadsOnlyNames(s: string, env1: map<string, string>, env2: map<string, string>)
    requires forall n :: n in Names(s) ==> EnvValue(env1, n) == EnvValue(env2, n)
    ensures Resolve(s, env1) == Resolve(s, env2)
    decreases |s|
  {
    if s != [] {
      match MatchAt(s)
      case Some(name) =>
        assert Names(s) == [name] + Names(s[|name| + 3..]);
        ResolveReadsOnlyNames(s[|name| + 3..], env1, env2);
      case None =>
        ResolveReadsOnlyNames(s[1..], env1, env2);
    }
  }

  /** A placeholder at the front is replaced, then the scan resumes right after it. */
  lemma ResolvePlaceholderFirst(name: string, rest: string, env: map<string, string>)
    requires IsName(name)
    ensures Resolve(PlaceholderText(name) + rest, env) == EnvValue(env, name) + Resolve(rest, env)
    ensures Names(PlaceholderText(name) + rest) == [name] + Names(rest)
  {
    var s := PlaceholderText(name) + rest;
    MatchAtComplete(name, rest);
    assert s[|name| + 3..] == rest;
  }

  /** A character that does not start a placeholder is copied and the scan moves on by one. */
  lemma ResolveLiteralFirst(c: char, rest: string, env: map<string, string>)
    requires c != '$'
    ensures Resolve([c] + rest, env) == [c] + Resolve(rest, env)
    ensures Names([c] + rest) == Names(rest)
  {
    assert ([c] + rest)[1..] == rest;
  }

  /**
   * Substituted text is not scanned again: a value that itself looks like a
   * placeholder survives as text.
   */
  lemma NoReexpansion(env: map<string, string>)
    requires env == map["A" := "${B}", "B" := "secret"]
    ensures Resolve("${A}", env) == "${B}"
  {
    ResolvePlaceholderFirst("A", "", env);
    assert "${A}" == PlaceholderText("A") + "";
  }

  /** Unset and empty variables both resolve to the empty string. */
  lemma UnsetAndEmptyAgree(name: string, rest: string, env: map<string, string>)
    requires IsName(name) && (name !in env || env[name] == "")
    ensures Resolve(PlaceholderText(name) + rest, env) == Resolve(rest, env)
  {
    ResolvePlaceholderFirst(name, rest, env);
  }

  /** `${}` has no name, so it is not a placeholder and is kept. */
  lemma EmptyNameKept(env: map<string, string>)
    ensures Resolve("${}", env) == "${}"
  {
    assert Names("${}") == [] by {
      assert MatchAt("${}") == None by { assert WordRun("${}"[2..]) == 0; }
      assert "${}"[1..] == "{}";
      assert "{}"[1..] == "}";
      assert "}"[1..] == "";
    }
    ResolveWithoutPlaceholders("${}", env);
  }

  /** An unterminated `${X` is not a placeholder and is kept. */
  lemma UnterminatedKept(env: map<string, string>)
    ensures Resolve("${X", env) == "${X"
  {
    assert Names("${X") == [] by {
      assert MatchAt("${X") == None by { assert WordRun("${X"[2..]) == 1; }
      assert "${X"[1..] == "{X";
      assert "{X"[1..] == "X";
      assert "X"[1..] == "";
    }
    ResolveWithoutPlaceholders("${X", env);
  }

  /** A prefix without any `$` is copied as it is, and the scan continues after it. */
  lemma {:induction false} ResolveLiteralPrefix(p: string, rest: string, env: map<string, string>)
    requires forall i :: 0 <= i < |p| ==> p[i] != '$'
    ensures Resolve(p + rest, env) == p + Resolve(rest, env)
    ensures Names(p + rest) == Names(rest)
    decreases |p|
  {
    if p == [] {
      assert p + rest == rest;
    } else {
      assert p + rest == [p[0]] + (p[1..] + rest);
      ResolveLiteralFirst(p[0], p[1..] + rest, env);
      ResolveLiteralPrefix(p[1..], rest, env);
      assert [p[0]] + p[1..] == p;
    }
  }

  /** Literal text followed by one placeholder: the text is kept and the placeholder replaced. */
  lemma ResolveLiteralThenPlaceholder(p: string, name: string, env: map<string, string>)
    requires forall i :: 0 <= i < |p| ==> p[i] != '$'
    requires IsName(name)
    ensures Resolve(p + PlaceholderText(name), env) == p + EnvValue(env, name)
  {
    var token := PlaceholderText(name);
    ResolvePlaceholderFirst(name, "", env);
    assert token + "" == token;
    ResolveLiteralPrefix(p, token, env);
    assert EnvValue(env, name) + Resolve("", env) == EnvValue(env, name);
  }

  /** The registries' resolved headers: every value resolved, keys kept in place. */
  function ResolvedHeaders(headers: Record<string>, env: map<string, string>): Record<string> {
    MapValues(headers, (v: string) => Resolve(v, env))
  }

  /** The same header keys, in the same order, each with its value resolved. */
  lemma ResolvedHeadersSpec(headers: Record<string>, env: map<string, string>, k: string)
    ensures Keys(ResolvedHeaders(headers, env)) == Keys(headers)
    ensures Get(ResolvedHeaders(headers, env), k)
         == if Get(headers, k).Some? then Some(Resolve(Get(headers, k).value, env)) else None
  {
    GetMapValues(headers, (v: string) => Resolve(v, env), k);
  }

  /** The universally quantified form of `ResolvedHeadersSpec`. */
  lemma ResolvedHeadersSpecEvery(headers: Record<string>, env: map<string, string>)
    ensures Keys(ResolvedHeaders(headers, env)) == Keys(headers)
    ensures forall k ::
      Get(ResolvedHeaders(headers, env), k)
      == if Get(headers, k).Some? then Some(Resolve(Get(headers, k).value, env)) else None
  {
    ResolvedHeadersSpec(headers, env, "");
    forall k ensures Get(ResolvedHeaders(headers, env), k)
         == if Get(headers, k).Some? then Some(Resolve(Get(headers, k).value, env)) else None {
      ResolvedHeadersSpec(headers, env, k);
    }
  }

  /**
   * The `for (const [key, value] of Object.entries(headers))` loop that fills
   * a fresh `resolvedHeaders` object one key at a time.
   */
  method ResolveHeaders(headers: Record<string>, env: map<string, string>) returns (resolved: Record<string>)
    ensures resolved == ResolvedHeaders(headers, env)
  {
    resolved := [];
    var i := 0;
    while i < |headers|
      invariant 0 <= i <= |headers|
      invariant |resolved| == i
      invariant forall j :: 0 <= j < i ==> resolved[j] == (headers[j].0, Resolve(headers[j].1, env))
    {
      var (key, value) := headers[i];
      assert forall j :: 0 <= j < i ==> resolved[j].0 != key;
      resolved := resolved + [(key, Resolve(value, env))];
      i := i + 1;
    }
  }
}
