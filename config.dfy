/** Reading the configuration from the environment
    (euro_converter/config.py). The environment and the dictionaries built
    from it are insertion-ordered lists of pairs, as Python dictionaries
    are; assigning to a key already present replaces its value in place. */
module Config {
  import opened Wrappers
  import opened Ascii

  type Dict = seq<(string, string)>

  function Keys(d: Dict): set<string> {
    set i | 0 <= i < |d| :: d[i].0
  }

  lemma KeysCons(x: (string, string), d: Dict)
    ensures Keys([x] + d) == {x.0} + Keys(d)
  {
    var e := [x] + d;
    assert e[0] == x;
    assert forall i :: 0 <= i < |d| ==> e[i + 1] == d[i];
    forall k | k in Keys(e) ensures k in {x.0} + Keys(d) {
      var i :| 0 <= i < |e| && e[i].0 == k;
      if i > 0 { assert d[i - 1].0 == k; }
    }
  }

  predicate UniqueKeys(d: Dict) {
    forall i, j :: 0 <= i < j < |d| ==> d[i].0 != d[j].0
  }

  /** `d.get(k)`. */
  function Lookup(d: Dict, k: string): (r: Option<string>)
    ensures r.Some? <==> k in Keys(d)
    ensures r.Some? ==> exists i :: 0 <= i < |d| && d[i] == (k, r.value)
  {
    if d == [] then None
    else
      assert forall i :: 1 <= i < |d| ==> d[1..][i - 1] == d[i];
      if d[0].0 == k then Some(d[0].1) else Lookup(d[1..], k)
  }

  /** `d[k] = v`: the value replaced in place when `k` is present,
      appended otherwise. */
  function Assign(d: Dict, k: string, v: string): Dict {
    if d == [] then [(k, v)]
    else if d[0].0 == k then [(k, v)] + d[1..]
    else [d[0]] + Assign(d[1..], k, v)
  }

  /** Assigning adds the key to the keys and keeps them unique. */
  lemma {:induction false} AssignKeys(d: Dict, k: string, v: string)
    ensures Keys(Assign(d, k, v)) == Keys(d) + {k}
  {
    if d == [] {
      assert [(k, v)][0].0 == k;
    } else {
      KeysCons(d[0], d[1..]);
      if d[0].0 == k {
        KeysCons((k, v), d[1..]);
      } else {
        AssignKeys(d[1..], k, v);
        KeysCons(d[0], Assign(d[1..], k, v));
      }
    }
  }

  lemma {:induction false} AssignUnique(d: Dict, k: string, v: string)
    requires UniqueKeys(d)
    ensures UniqueKeys(Assign(d, k, v))
  {
    if d != [] {
      UniqueCons(d[0], d[1..]);
      if d[0].0 == k {
        UniqueCons((k, v), d[1..]);
      } else {
        AssignUnique(d[1..], k, v);
        AssignKeys(d[1..], k, v);
        UniqueCons(d[0], Assign(d[1..], k, v));
      }
    }
  }

  lemma UniqueCons(x: (string, string), d: Dict)
    ensures UniqueKeys([x] + d) <==> x.0 !in Keys(d) && UniqueKeys(d)
  {
    var e := [x] + d;
    assert forall i :: 0 <= i < |d| ==> e[i + 1] == d[i];
    KeysCons(x, d);
    if x.0 !in Keys(d) && UniqueKeys(d) {
      forall i, j | 0 <= i < j < |e| ensures e[i].0 != e[j].0 {
        if i == 0 {
          assert e[j].0 == d[j - 1].0 && d[j - 1].0 in Keys(d);
        }
      }
    }
    if UniqueKeys(e) {
      forall k | k in Keys(d) ensures k != x.0 {
        var i :| 0 <= i < |d| && d[i].0 == k;
        assert e[i + 1].0 == k && e[0].0 == x.0;
      }
    }
  }

  /** After `d[k] = v`, `k` gives `v` and every other key what it gave. */
  lemma {:induction false} AssignLookup(d: Dict, k: string, v: string, other: string)
    ensures Lookup(Assign(d, k, v), other) == if other == k then Some(v) else Lookup(d, other)
  {
    if d != [] && d[0].0 != k {
      AssignLookup(d[1..], k, v, other);
    }
  }

  predicate StartsWith(s: string, p: string) {
    |p| <= |s| && s[..|p|] == p
  }

  /** `f"{prefix.lower()}_"`. */
  function PrefixOf(prefix: string): string {
    Lower(prefix) + "_"
  }

  /** The key `key` of `d` contributes to the configuration `name` under
      `prefix`: lower-cased it starts with the prefix, and the rest is
      `name`. */
  predicate Names(key: string, prefix: string, name: string) {
    StartsWith(Lower(key), PrefixOf(prefix)) && Lower(key)[|PrefixOf(prefix)|..] == name
  }

  /** `get_removing_prefix`. */
  function GetRemovingPrefix(d: Dict, prefix: string): Dict {
    if d == [] then []
    else
      var last := d[|d| - 1];
      var rest := GetRemovingPrefix(d[..|d| - 1], prefix);
      if StartsWith(Lower(last.0), PrefixOf(prefix)) then
        Assign(rest, Lower(last.0)[|PrefixOf(prefix)|..], last.1)
      else
        rest
  }

  /** The keys are unique, and a name is among them exactly when some
      variable names it. */
  lemma {:induction false} GetRemovingPrefixKeys(d: Dict, prefix: string)
    ensures UniqueKeys(GetRemovingPrefix(d, prefix))
    ensures forall name :: name in Keys(GetRemovingPrefix(d, prefix))
                           <==> exists i :: 0 <= i < |d| && Names(d[i].0, prefix, name)
  {
    if d != [] {
      var init := d[..|d| - 1];
      var last := d[|d| - 1];
      var rest := GetRemovingPrefix(init, prefix);
      var p := PrefixOf(prefix);
      GetRemovingPrefixKeys(init, prefix);
      assert forall i :: 0 <= i < |d| - 1 ==> init[i] == d[i];
      if StartsWith(Lower(last.0), p) {
        assert Names(last.0, prefix, Lower(last.0)[|p|..]);
        AssignKeys(rest, Lower(last.0)[|p|..], last.1);
        AssignUnique(rest, Lower(last.0)[|p|..], last.1);
      }
    }
  }

  /** The value a configuration name takes is that of the last key of `d`
      that names it. */
  lemma {:induction false} ValueOfLastKey(d: Dict, prefix: string, name: string, i: int)
    requires 0 <= i < |d| && Names(d[i].0, prefix, name)
    requires forall j :: i < j < |d| ==> !Names(d[j].0, prefix, name)
    ensures Lookup(GetRemovingPrefix(d, prefix), name) == Some(d[i].1)
  {
    var init := d[..|d| - 1];
    assert forall j :: 0 <= j < |d| - 1 ==> init[j] == d[j];
    var p := PrefixOf(prefix);
    var last := d[|d| - 1];
    if i < |d| - 1 {
      ValueOfLastKey(init, prefix, name, i);
      if StartsWith(Lower(last.0), p) {
        AssignLookup(GetRemovingPrefix(init, prefix), Lower(last.0)[|p|..], last.1, name);
      }
    } else {
      AssignLookup(GetRemovingPrefix(init, prefix), Lower(last.0)[|p|..], last.1, name);
    }
  }

  /** A name no key names is absent. */
  lemma NoKeyNoValue(d: Dict, prefix: string, name: string)
    requires forall j :: 0 <= j < |d| ==> !Names(d[j].0, prefix, name)
    ensures Lookup(GetRemovingPrefix(d, prefix), name) == None
  {
    GetRemovingPrefixKeys(d, prefix);
  }

  /** The case of the prefix does not matter. */
  lemma PrefixCaseIgnored(d: Dict, prefix: string)
    ensures GetRemovingPrefix(d, Upper(prefix)) == GetRemovingPrefix(d, prefix)
  {
    LowerOfUpper(prefix);
    assert PrefixOf(Upper(prefix)) == PrefixOf(prefix);
  }

  /** What `get_config` builds the calculator's cache from. */
  datatype CacheConfig =
    | PlainCacheConfig
    | FileCacheConfig(path: Option<string>, dataFilename: Option<string>, timestampsFilename: Option<string>)
    | RedisCacheConfig(options: Dict)

  /** `FileCache(**options)` with an option it has no parameter for. */
  datatype ConfigError = UnexpectedOption(name: string)

  const FILE_CACHE_OPTIONS: set<string> := {"path", "data_filename", "timestamps_filename"}

  /** The first option that is not a parameter of `FileCache`. */
  function FirstUnexpected(options: Dict): (r: Option<string>)
    ensures r.None? <==> Keys(options) <= FILE_CACHE_OPTIONS
    ensures r.Some? ==> r.value in Keys(options) && r.value !in FILE_CACHE_OPTIONS
  {
    if options == [] then None
    else
      assert forall i :: 1 <= i < |options| ==> options[1..][i - 1] == options[i];
      assert Keys(options) == {options[0].0} + Keys(options[1..]);
      if options[0].0 !in FILE_CACHE_OPTIONS then Some(options[0].0) else FirstUnexpected(options[1..])
  }

  /** The cache chosen by `EURO_CONVERTER_CACHE` (any case). */
  function Choice(env: Dict): Option<string> {
    Lookup(GetRemovingPrefix(env, "euro_converter"), "cache")
  }

  /** `get_config`: `file` and `redis` (any case) choose those caches with
      the options under their own prefix; anything else, or nothing, the
      in-memory cache. */
  function GetConfig(env: Dict): (r: Result<CacheConfig, ConfigError>)
    ensures !Present(Choice(env)) || Lower(Choice(env).value) !in {"file", "redis"} ==> r == Ok(PlainCacheConfig)
    ensures r.Ok? && r.value.FileCacheConfig? ==> Lower(Choice(env).value) == "file"
    ensures r.Ok? && r.value.RedisCacheConfig? ==> Lower(Choice(env).value) == "redis"
    ensures Present(Choice(env)) && Lower(Choice(env).value) == "redis" ==>
      r == Ok(RedisCacheConfig(GetRemovingPrefix(GetRemovingPrefix(env, "euro_converter"), "redis_cache")))
    ensures r.Err? ==> Lower(Choice(env).value) == "file"
  {
    var vars := GetRemovingPrefix(env, "euro_converter");
    var choice := Lookup(vars, "cache");
    if Present(choice) then
      if Lower(choice.value) == "file" then
        var options := GetRemovingPrefix(vars, "file_cache");
        match FirstUnexpected(options)
        case Some(name) => Err(UnexpectedOption(name))
        case None =>
          Ok(FileCacheConfig(Lookup(options, "path"), Lookup(options, "data_filename"), Lookup(options, "timestamps_filename")))
      else if Lower(choice.value) == "redis" then
        Ok(RedisCacheConfig(GetRemovingPrefix(vars, "redis_cache")))
      else
        Ok(PlainCacheConfig)
    else
      Ok(PlainCacheConfig)
  }

  /** The file cache is configured exactly when every option under its
      prefix is one of its parameters. */
  lemma FileCacheOptions(env: Dict)
    requires Present(Choice(env)) && Lower(Choice(env).value) == "file"
    ensures var options := GetRemovingPrefix(GetRemovingPrefix(env, "euro_converter"), "file_cache");
      (GetConfig(env).Ok? <==> Keys(options) <= FILE_CACHE_OPTIONS)
      && (GetConfig(env).Ok? ==>
            GetConfig(env).value == FileCacheConfig(Lookup(options, "path"), Lookup(options, "data_filename"),
                                                    Lookup(options, "timestamps_filename")))
  {
  }

  /** Reading the environment front to back: each variable under the
      prefix is assigned over what the earlier ones gave. */
  lemma GetRemovingPrefixSnoc(d: Dict, x: (string, string), prefix: string)
    ensures GetRemovingPrefix(d + [x], prefix)
         == if StartsWith(Lower(x.0), PrefixOf(prefix))
            then Assign(GetRemovingPrefix(d, prefix), Lower(x.0)[|PrefixOf(prefix)|..], x.1)
            else GetRemovingPrefix(d, prefix)
  {
    var e := d + [x];
    assert e[..|e| - 1] == d;
    assert e[|e| - 1] == x;
  }

  /** A key with no upper-case letter is its own lower-case form. */
  lemma LowerOfLowerCase(k: string)
    requires forall i :: 0 <= i < |k| ==> !('A' <= k[i] <= 'Z')
    ensures Lower(k) == k
  {
  }

  /** The file cache with a path, whatever the case of the variables and
      of the value `file`, with a variable of another program beside them. */
  lemma FileConfigExample(env: Dict, other: (string, string), ck: string, cv: string, pk: string, pv: string)
    requires env == [other, (ck, cv), (pk, pv)]
    requires !StartsWith(Lower(other.0), PrefixOf("euro_converter"))
    requires Lower(ck) == PrefixOf("euro_converter") + "cache" && Lower(cv) == "file"
    requires Lower(pk) == PrefixOf("euro_converter") + "file_cache_path"
    ensures GetConfig(env) == Ok(FileCacheConfig(Some(pv), None, None))
  {
    var vars := ExampleVariables(env, other, ck, cv, pk, pv);
    var options := ExampleOptions(vars, cv, pv);
    assert Lookup(vars, "cache") == Some(cv);
    assert Lookup(options, "path") == Some(pv);
  }

  /** The variables under `EURO_CONVERTER_` in the example above. */
  lemma ExampleVariables(env: Dict, other: (string, string), ck: string, cv: string, pk: string, pv: string)
      returns (vars: Dict)
    requires env == [other, (ck, cv), (pk, pv)]
    requires !StartsWith(Lower(other.0), PrefixOf("euro_converter"))
    requires Lower(ck) == PrefixOf("euro_converter") + "cache"
    requires Lower(pk) == PrefixOf("euro_converter") + "file_cache_path"
    ensures vars == GetRemovingPrefix(env, "euro_converter")
    ensures vars == [("cache", cv), ("file_cache_path", pv)]
  {
    var p := "euro_converter";
    var e0, e1, e2 := other, (ck, cv), (pk, pv);
    assert env == [e0] + [e1] + [e2];
    assert [] + [e0] == [e0];
    SnocIgnored([], e0, p);
    ExampleName(ck, p, "cache");
    SnocNamed([e0], e1, p, "cache");
    ExampleName(pk, p, "file_cache_path");
    SnocNamed([e0] + [e1], e2, p, "file_cache_path");
    vars := [("cache", cv), ("file_cache_path", pv)];
    assert Assign([("cache", cv)], "file_cache_path", pv) == vars;
  }

  /** The options under `FILE_CACHE_` among those variables. */
  lemma ExampleOptions(vars: Dict, cv: string, pv: string) returns (options: Dict)
    requires vars == [("cache", cv), ("file_cache_path", pv)]
    ensures options == GetRemovingPrefix(vars, "file_cache")
    ensures options == [("path", pv)]
  {
    var p := "file_cache";
    LowerCasePrefix(p);
    var v0, v1 := vars[0], vars[1];
    assert vars == [v0] + [v1];
    assert [] + [v0] == [v0];
    LowerOfLowerCase(v0.0);
    SnocIgnored([], v0, p);
    LowerOfLowerCase(v1.0);
    ExampleName(v1.0, p, "path");
    SnocNamed([v0], v1, p, "path");
    options := [("path", pv)];
  }

  /** A variable named by the prefix is assigned over the earlier ones. */
  lemma SnocNamed(d: Dict, x: (string, string), prefix: string, name: string)
    requires Names(x.0, prefix, name)
    ensures GetRemovingPrefix(d + [x], prefix) == Assign(GetRemovingPrefix(d, prefix), name, x.1)
  {
    GetRemovingPrefixSnoc(d, x, prefix);
  }

  /** A variable outside the prefix changes nothing. */
  lemma SnocIgnored(d: Dict, x: (string, string), prefix: string)
    requires !StartsWith(Lower(x.0), PrefixOf(prefix))
    ensures GetRemovingPrefix(d + [x], prefix) == GetRemovingPrefix(d, prefix)
  {
    GetRemovingPrefixSnoc(d, x, prefix);
  }

  lemma LowerCasePrefix(p: string)
    requires forall i :: 0 <= i < |p| ==> !('A' <= p[i] <= 'Z')
    ensures PrefixOf(p) == p + "_"
  {
    LowerOfLowerCase(p);
  }

  lemma ExampleName(key: string, p: string, name: string)
    requires Lower(key) == PrefixOf(p) + name
    ensures Names(key, p, name)
  {
    var l := Lower(key);
    assert l[..|PrefixOf(p)|] == PrefixOf(p);
    assert l[|PrefixOf(p)|..] == name;
  }
}
