/** The environment of a container: how settings replace one another
(`set_env` in `src/config.rs`), and why init reads back from `config.json` what
the command line tool wrote there. */
module Env {
  import opened Bytes
  import opened Wrappers
  import opened Text
  import Json
  import JsonRoundTrip

  /** Everything before the first equals sign. */
  function Key(kv: string): string {
    if kv == [] || kv[0] == '=' then [] else [kv[0]] + Key(kv[1..])
  }

  predicate Sets(e: string, key: string) { key + ['='] <= e }

  function Without(env: seq<string>, key: string): seq<string> {
    if env == [] then []
    else (if Sets(env[0], key) then [] else [env[0]]) + Without(env[1..], key)
  }

  /** `set_env`. */
  function Set(env: seq<string>, kv: string): seq<string> {
    Without(env, Key(kv)) + [kv]
  }

  function SetAll(env: seq<string>, kvs: seq<string>): seq<string> {
    if kvs == [] then env else Set(SetAll(env, kvs[..|kvs| - 1]), kvs[|kvs| - 1])
  }

  const DEFAULT_PATH := "/usr/local/sbin:/usr/local/bin:/usr/sbin:/usr/bin:/sbin:/bin"

  const DEFAULT_ENV: seq<string> := ["PATH=" + DEFAULT_PATH, "TERM=xterm"]

  // -------------------------------------------------------------------------
  // Keys
  // -------------------------------------------------------------------------

  lemma {:induction false} KeyHasNoEquals(kv: string)
    ensures '=' !in Key(kv) && |Key(kv)| <= |kv|
  {
    if kv != [] && kv[0] != '=' {
      KeyHasNoEquals(kv[1..]);
    }
  }

  /** An entry sets the key it begins with, and no other. */
  lemma {:induction false} SetsIsKey(e: string, key: string)
    requires '=' !in key
    ensures Sets(e, key) <==> '=' in e && Key(e) == key
  {
    if e == [] {
    } else if e[0] == '=' {
      assert key != [] ==> key[0] in key;
    } else if key == [] {
      assert key + ['='] == ['='];
    } else {
      SetsIsKey(e[1..], key[1..]);
      assert (key + ['='])[1..] == key[1..] + ['='];
      assert Sets(e, key) <==> e[0] == key[0] && Sets(e[1..], key[1..]) by {
        if Sets(e, key) {
          assert e[0] == (key + ['='])[0];
          assert e[1..][..|key|] == (key + ['='])[1..];
        }
        if e[0] == key[0] && Sets(e[1..], key[1..]) {
          assert e[..|key| + 1] == [e[0]] + e[1..][..|key|];
          assert key + ['='] == [key[0]] + (key[1..] + ['=']);
        }
      }
      assert e == [e[0]] + e[1..];
    }
  }

  lemma {:induction false} WithoutIs(env: seq<string>, key: string)
    ensures forall e :: e in Without(env, key) <==> e in env && !Sets(e, key)
  {
    if env != [] {
      WithoutIs(env[1..], key);
    }
  }

  lemma {:induction false} WithoutNothing(env: seq<string>, key: string)
    requires forall e :: e in env ==> !Sets(e, key)
    ensures Without(env, key) == env
  {
    if env != [] {
      WithoutNothing(env[1..], key);
      assert env == [env[0]] + env[1..];
    }
  }

  lemma EntriesRegroup(a: seq<string>, b: seq<string>, c: seq<string>)
    ensures (a + b) + c == a + (b + c)
  {
  }

  lemma {:induction false} WithoutConcat(a: seq<string>, b: seq<string>, key: string)
    ensures Without(a + b, key) == Without(a, key) + Without(b, key)
  {
    if a == [] {
      assert a + b == b;
    } else {
      WithoutConcat(a[1..], b, key);
      assert (a + b)[1..] == a[1..] + b;
      EntriesRegroup(if Sets(a[0], key) then [] else [a[0]], Without(a[1..], key), Without(b, key));
    }
  }

  // -------------------------------------------------------------------------
  // Refolding
  // -------------------------------------------------------------------------

  /** No entry is set again by a later one. */
  predicate Unshadowed(env: seq<string>) {
    forall i, j :: 0 <= i < j < |env| ==> !Sets(env[i], Key(env[j]))
  }

  /** Every default has been kept or replaced. */
  predicate Covers(env: seq<string>, base: seq<string>) {
    forall d :: d in base ==> exists e :: e in env && Sets(d, Key(e))
  }

  lemma {:induction false} WithoutKeepsUnshadowed(env: seq<string>, key: string)
    requires Unshadowed(env)
    ensures Unshadowed(Without(env, key))
  {
    if env != [] {
      WithoutKeepsUnshadowed(env[1..], key);
      WithoutIs(env[1..], key);
      var w := Without(env[1..], key);
      forall j | 0 <= j < |w| ensures !Sets(env[0], Key(w[j])) {
        assert w[j] in env[1..];
        var k :| 0 <= k < |env[1..]| && env[1..][k] == w[j];
        assert !Sets(env[0], Key(env[k + 1]));
      }
    }
  }

  lemma SetKeepsUnshadowed(env: seq<string>, kv: string)
    requires Unshadowed(env)
    ensures Unshadowed(Set(env, kv))
  {
    WithoutKeepsUnshadowed(env, Key(kv));
    WithoutIs(env, Key(kv));
    var w := Without(env, Key(kv));
    forall i | 0 <= i < |w| ensures !Sets(w[i], Key(kv)) {
      assert w[i] in w;
    }
  }

  lemma SetKeepsCovering(env: seq<string>, kv: string, base: seq<string>)
    requires Covers(env, base)
    ensures Covers(Set(env, kv), base)
  {
    WithoutIs(env, Key(kv));
    KeyHasNoEquals(kv);
    forall d | d in base ensures exists e :: e in Set(env, kv) && Sets(d, Key(e)) {
      var e :| e in env && Sets(d, Key(e));
      if Sets(e, Key(kv)) {
        SetsIsKey(e, Key(kv));
        assert kv in Set(env, kv);
      } else {
        assert e in Set(env, kv);
      }
    }
  }

  lemma {:induction false} SetAllKeeps(env: seq<string>, kvs: seq<string>, base: seq<string>)
    requires Unshadowed(env) && Covers(env, base)
    ensures Unshadowed(SetAll(env, kvs)) && Covers(SetAll(env, kvs), base)
  {
    if kvs != [] {
      SetAllKeeps(env, kvs[..|kvs| - 1], base);
      SetKeepsUnshadowed(SetAll(env, kvs[..|kvs| - 1]), kvs[|kvs| - 1]);
      SetKeepsCovering(SetAll(env, kvs[..|kvs| - 1]), kvs[|kvs| - 1], base);
    }
  }

  /** What is left of `base` once the entries of `env` have been set over it. */
  function Survivors(base: seq<string>, env: seq<string>): seq<string> {
    if env == [] then base else Without(Survivors(base, env[..|env| - 1]), Key(env[|env| - 1]))
  }

  lemma {:induction false} SetAllUnshadowed(base: seq<string>, env: seq<string>)
    requires Unshadowed(env)
    ensures SetAll(base, env) == Survivors(base, env) + env
  {
    if env == [] {
      assert base + env == base;
    } else {
      var n := |env| - 1;
      var init, last := env[..n], env[n];
      SetAllUnshadowed(base, init);
      forall e | e in init ensures !Sets(e, Key(last)) {
        var i :| 0 <= i < n && e == env[i];
      }
      hide Sets;
      SetOver(Survivors(base, init), init, last);
      assert env == init + [last];
    }
  }

  lemma SetOver(base: seq<string>, env: seq<string>, kv: string)
    requires forall e :: e in env ==> !Sets(e, Key(kv))
    ensures Set(base + env, kv) == Without(base, Key(kv)) + (env + [kv])
  {
    WithoutConcat(base, env, Key(kv));
    WithoutNothing(env, Key(kv));
    EntriesRegroup(Without(base, Key(kv)), env, [kv]);
  }

  lemma {:induction false} SurvivorsAre(base: seq<string>, env: seq<string>)
    ensures forall d :: d in Survivors(base, env) ==> d in base && forall e :: e in env ==> !Sets(d, Key(e))
  {
    if env != [] {
      var n := |env| - 1;
      SurvivorsAre(base, env[..n]);
      WithoutIs(Survivors(base, env[..n]), Key(env[n]));
      assert env == env[..n] + [env[n]];
    }
  }

  /** An environment made from the defaults by any settings, set over the defaults
      once more, is itself again, entry by entry and in the same order. */
  lemma RefoldIsIdentity(kvs: seq<string>)
    ensures
      var env := SetAll(DEFAULT_ENV, kvs);
      SetAll(DEFAULT_ENV, env) == env
  {
    var env := SetAll(DEFAULT_ENV, kvs);
    DefaultIsFine();
    SetAllKeeps(DEFAULT_ENV, kvs, DEFAULT_ENV);
    SetAllUnshadowed(DEFAULT_ENV, env);
    SurvivorsAre(DEFAULT_ENV, env);
    assert forall d :: d !in Survivors(DEFAULT_ENV, env);
    if Survivors(DEFAULT_ENV, env) != [] {
      FirstIsIn(Survivors(DEFAULT_ENV, env));
    }
  }

  lemma FirstIsIn(env: seq<string>)
    requires env != []
    ensures exists e :: e in env
  {
    assert env[0] in env;
  }

  lemma DefaultIsFine()
    ensures Unshadowed(DEFAULT_ENV) && Covers(DEFAULT_ENV, DEFAULT_ENV)
  {
    assert DEFAULT_ENV[0] == "PATH=" + DEFAULT_PATH;
    assert Key("TERM=xterm") == "TERM" by { KeyOf("TERM", "xterm"); assert "TERM" + ['='] + "xterm" == "TERM=xterm"; }
    assert Key(DEFAULT_ENV[0]) == "PATH" by {
      KeyOf("PATH", DEFAULT_PATH);
      assert "PATH" + ['='] + DEFAULT_PATH == DEFAULT_ENV[0];
    }
    assert Sets(DEFAULT_ENV[0], "PATH") && Sets(DEFAULT_ENV[1], "TERM") && !Sets(DEFAULT_ENV[0], "TERM");
  }

  lemma {:induction false} KeyOf(key: string, value: string)
    requires '=' !in key
    ensures Key(key + ['='] + value) == key
  {
    var e := key + ['='] + value;
    if key != [] {
      KeyOf(key[1..], value);
      assert e[1..] == key[1..] + ['='] + value;
      assert key == [key[0]] + key[1..];
    }
  }

  // -------------------------------------------------------------------------
  // The last setting wins
  // -------------------------------------------------------------------------

  /** `env_value`: the text after the first entry that sets the key. */
  function ValueOf(env: seq<string>, key: string): Option<string> {
    if env == [] then None
    else if Sets(env[0], key) then Some(env[0][|key| + 1..])
    else ValueOf(env[1..], key)
  }

  /** What a list of settings, the last one first, says about a key: the value of
      the last entry for it, or nothing if that entry is the bare key. */
  function LastSaid(kvs: seq<string>, key: string): Option<string> {
    if kvs == [] then None
    else
      var kv := kvs[|kvs| - 1];
      if Key(kv) != key then LastSaid(kvs[..|kvs| - 1], key)
      else if Sets(kv, key) then Some(kv[|key| + 1..]) else None
  }

  lemma {:induction false} ValueOfConcat(a: seq<string>, b: seq<string>, key: string)
    ensures ValueOf(a + b, key) == if ValueOf(a, key).Some? then ValueOf(a, key) else ValueOf(b, key)
  {
    if a == [] {
      assert a + b == b;
    } else {
      ValueOfConcat(a[1..], b, key);
      assert (a + b)[1..] == a[1..] + b;
    }
  }

  lemma {:induction false} ValueOfWithout(env: seq<string>, gone: string, key: string)
    requires '=' !in key && '=' !in gone
    ensures ValueOf(Without(env, gone), key) == if key == gone then None else ValueOf(env, key)
  {
    if env != [] {
      ValueOfWithout(env[1..], gone, key);
      SetsIsKey(env[0], gone);
      SetsIsKey(env[0], key);
      if !Sets(env[0], gone) {
        assert ([env[0]] + Without(env[1..], gone))[1..] == Without(env[1..], gone);
      } else {
        assert Without(env, gone) == Without(env[1..], gone);
      }
    }
  }

  /** Looking a key up gives what was said about it last, by the defaults or since. */
  lemma {:induction false} LastSettingWins(base: seq<string>, kvs: seq<string>, key: string)
    requires '=' !in key
    ensures ValueOf(SetAll(base, kvs), key) ==
            if exists kv :: kv in kvs && Key(kv) == key then LastSaid(kvs, key) else ValueOf(base, key)
  {
    if kvs != [] {
      var n := |kvs| - 1;
      var kv := kvs[n];
      var env := SetAll(base, kvs[..n]);
      LastSettingWins(base, kvs[..n], key);
      KeyHasNoEquals(kv);
      SetsIsKey(kv, key);
      ValueOfWithout(env, Key(kv), key);
      ValueOfConcat(Without(env, Key(kv)), [kv], key);
      assert kvs == kvs[..n] + [kv];
      assert [kv][1..] == [];
      if Key(kv) == key {
        assert kv in kvs;
      }
    }
  }

  /** Setting some and then more is setting all of them. */
  lemma {:induction false} SetAllConcat(base: seq<string>, a: seq<string>, b: seq<string>)
    ensures SetAll(base, a + b) == SetAll(SetAll(base, a), b)
  {
    if b == [] {
      assert a + b == a;
    } else {
      var n := |b| - 1;
      SetAllConcat(base, a, b[..n]);
      assert (a + b)[..|a + b| - 1] == a + b[..n];
    }
  }

  /** An environment that came about by settings over the defaults. */
  ghost predicate WasSet(env: seq<string>) { exists kvs :: env == SetAll(DEFAULT_ENV, kvs) }

  lemma DefaultWasSet()
    ensures WasSet(DEFAULT_ENV)
  {
    assert SetAll(DEFAULT_ENV, []) == DEFAULT_ENV;
  }

  lemma StillWasSet(env: seq<string>, more: seq<string>)
    requires WasSet(env)
    ensures WasSet(SetAll(env, more))
  {
    var kvs :| env == SetAll(DEFAULT_ENV, kvs);
    SetAllConcat(DEFAULT_ENV, kvs, more);
  }

  // -------------------------------------------------------------------------
  // The hand-over to init
  // -------------------------------------------------------------------------

  function Strings(env: seq<string>): seq<Json.Json> {
    if env == [] then [] else [Json.Str(env[0])] + Strings(env[1..])
  }

  /** The strings among the elements of an array. */
  function AsStrings(items: seq<Json.Json>): seq<string> {
    if items == [] then []
    else (if items[0].Str? then [items[0].s] else []) + AsStrings(items[1..])
  }

  lemma {:induction false} StringsRoundTrip(env: seq<string>)
    ensures AsStrings(Strings(env)) == env && |Strings(env)| == |env|
    ensures forall k :: 0 <= k < |env| ==> Strings(env)[k] == Json.Str(env[k])
  {
    if env != [] {
      StringsRoundTrip(env[1..]);
      assert Strings(env)[1..] == Strings(env[1..]);
      assert env == [env[0]] + env[1..];
    }
  }

  /** What `from_json` makes of the `env` field of a document. */
  function EnvOf(j: Json.Json): seq<string> {
    var v := Json.Get(j, "env");
    if v.Some? && v.value.Arr? then SetAll(DEFAULT_ENV, AsStrings(v.value.items)) else DEFAULT_ENV
  }

  /** The environment init reads from `config.json` is the one the command line
      tool had when it wrote it, whatever else the file holds. */
  lemma EnvironmentIsHandedOver(kvs: seq<string>, j: Json.Json, indent: Option<nat>)
    requires Json.Exact(j) && Json.Get(j, "env") == Some(Json.Arr(Strings(SetAll(DEFAULT_ENV, kvs))))
    ensures
      var read := Json.Parse(Json.Print(j, indent, 0));
      read.Ok? && EnvOf(read.value) == SetAll(DEFAULT_ENV, kvs)
  {
    hide Json.Parse, Json.Print, Json.Exact, SetAll;
    JsonRoundTrip.PrintedTreeParses(j, indent);
    StringsRoundTrip(SetAll(DEFAULT_ENV, kvs));
    RefoldIsIdentity(kvs);
  }

  class Settings {
    var env: seq<string>

    constructor ()
      ensures env == DEFAULT_ENV
    {
      env := DEFAULT_ENV;
    }

    method SetEnv(kv: string)
      modifies this
      ensures env == Set(old(env), kv)
    {
      var before := env;
      var kept, k := [], 0;
      while k < |before|
        invariant k <= |before|
        invariant kept + Without(before[k..], Key(kv)) == Without(before, Key(kv))
      {
        assert before[k..][1..] == before[k + 1..];
        EntriesRegroup(kept, if Sets(before[k], Key(kv)) then [] else [before[k]], Without(before[k + 1..], Key(kv)));
        if !Sets(before[k], Key(kv)) {
          kept := kept + [before[k]];
        } else {
          assert kept + [] == kept;
        }
        k := k + 1;
      }
      assert Without(before[k..], Key(kv)) == [];
      assert kept == Without(before, Key(kv));
      env := kept + [kv];
    }

    method SetEach(kvs: seq<string>)
      modifies this
      ensures env == SetAll(old(env), kvs)
    {
      assert kvs[..0] == [];
      for k := 0 to |kvs|
        invariant env == SetAll(old(env), kvs[..k])
      {
        SetEnv(kvs[k]);
        assert kvs[..k + 1][..k] == kvs[..k];
      }
      assert kvs[..|kvs|] == kvs;
    }
  }
}
