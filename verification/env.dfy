// Merging environment overrides into an image's environment, and looking a
// variable up in the result.
module Env {
  import opened Wrappers

  // ---- entries: "KEY=VALUE", or a bare "KEY"

  // strings.Cut at the first '=': what precedes it, or everything.
  function KeyOf(kv: string): string {
    if kv == [] || kv[0] == '=' then [] else [kv[0]] + KeyOf(kv[1..])
  }

  predicate Bare(kv: string) {
    '=' !in kv
  }

  function ValueOf(kv: string): string
    requires !Bare(kv)
  {
    if kv[0] == '=' then kv[1..] else ValueOf(kv[1..])
  }

  lemma {:induction false} CutIsExact(kv: string)
    ensures '=' !in KeyOf(kv)
    ensures Bare(kv) ==> KeyOf(kv) == kv
    ensures !Bare(kv) ==> kv == KeyOf(kv) + "=" + ValueOf(kv)
  {
    if kv != [] && kv[0] != '=' {
      CutIsExact(kv[1..]);
      assert kv == [kv[0]] + kv[1..];
    }
  }

  // ---- what the merge does to a list

  function Put(env: seq<string>, kv: string): seq<string> {
    if env == [] then [kv]
    else if KeyOf(env[0]) == KeyOf(kv) then [kv] + env[1..]
    else [env[0]] + Put(env[1..], kv)
  }

  function Merged(base: seq<string>, over: seq<string>): seq<string> {
    if over == [] then base else Put(Merged(base, over[..|over| - 1]), over[|over| - 1])
  }

  // ---- what it means

  // The entries for one key, in order.
  function For(env: seq<string>, key: string): seq<string> {
    if env == [] then []
    else if KeyOf(env[0]) == key then [env[0]] + For(env[1..], key)
    else For(env[1..], key)
  }

  function LastFor(over: seq<string>, key: string): Option<string> {
    if over == [] then None
    else
      var kv := over[|over| - 1];
      if KeyOf(kv) == key then Some(kv) else LastFor(over[..|over| - 1], key)
  }

  function Supersede(entries: seq<string>, last: Option<string>): seq<string> {
    match last
    case None => entries
    case Some(kv) => [kv] + (if entries == [] then [] else entries[1..])
  }

  lemma {:induction false} PutFor(env: seq<string>, kv: string, key: string)
    ensures For(Put(env, kv), key) == Supersede(For(env, key), if KeyOf(kv) == key then Some(kv) else None)
  {
    if env != [] && KeyOf(env[0]) != KeyOf(kv) {
      PutFor(env[1..], kv, key);
      assert Put(env, kv)[1..] == Put(env[1..], kv);
    } else if env != [] {
      assert Put(env, kv)[1..] == env[1..];
    } else {
      assert Put(env, kv)[1..] == [];
    }
  }

  // Key by key: the last override stands where the base's first entry stood
  // (or stands alone), and the base's later entries for the key stay.
  lemma {:induction false} MergedFor(base: seq<string>, over: seq<string>, key: string)
    ensures For(Merged(base, over), key) == Supersede(For(base, key), LastFor(over, key))
  {
    if over == [] {
    } else {
      var init, kv := over[..|over| - 1], over[|over| - 1];
      MergedFor(base, init, key);
      PutFor(Merged(base, init), kv, key);
    }
  }

  // The comment on mergeEnv speaks of replacing any existing entry. That is so
  // exactly when the base has one at most.
  lemma ReplacesAnyIff(base: seq<string>, over: seq<string>, key: string)
    requires LastFor(over, key).Some?
    ensures For(Merged(base, over), key) == [LastFor(over, key).value] <==> |For(base, key)| <= 1
  {
    MergedFor(base, over, key);
  }

  function Keys(env: seq<string>): seq<string> {
    seq(|env|, i requires 0 <= i < |env| => KeyOf(env[i]))
  }

  // `keys`, then each key of `more` not met before, in the order of first mention.
  function Extended(keys: seq<string>, more: seq<string>): seq<string> {
    if more == [] then keys
    else
      var init, k := Extended(keys, more[..|more| - 1]), more[|more| - 1];
      if k in init then init else init + [k]
  }

  lemma {:induction false} PutKeys(env: seq<string>, kv: string)
    ensures Keys(Put(env, kv)) == if KeyOf(kv) in Keys(env) then Keys(env) else Keys(env) + [KeyOf(kv)]
  {
    if env == [] {
    } else {
      var tail := env[1..];
      assert Keys(env) == [KeyOf(env[0])] + Keys(tail);
      if KeyOf(env[0]) != KeyOf(kv) {
        PutKeys(tail, kv);
        assert Keys(Put(env, kv)) == [KeyOf(env[0])] + Keys(Put(tail, kv));
      } else {
        assert KeyOf(kv) == Keys(env)[0];
      }
    }
  }

  // Position by position: the base's keys keep their places, and new keys
  // follow, each once, in the order the overrides first name them.
  lemma {:induction false} MergedKeys(base: seq<string>, over: seq<string>)
    ensures Keys(Merged(base, over)) == Extended(Keys(base), Keys(over))
  {
    if over == [] {
    } else {
      var init, kv := over[..|over| - 1], over[|over| - 1];
      MergedKeys(base, init);
      PutKeys(Merged(base, init), kv);
      assert Keys(over)[..|over| - 1] == Keys(init);
    }
  }

  // An order of keys and each key's entries determine a list.
  lemma {:induction false} Determined(a: seq<string>, b: seq<string>)
    requires Keys(a) == Keys(b)
    requires forall key :: For(a, key) == For(b, key)
    ensures a == b
  {
    assert |a| == |Keys(a)| == |Keys(b)| == |b|;
    if a == [] {
    } else {
      var key := Keys(a)[0];
      assert key == KeyOf(a[0]) && key == KeyOf(b[0]);
      assert For(a, key)[0] == a[0] && For(b, key)[0] == b[0];
      assert Keys(a[1..]) == Keys(a)[1..] == Keys(b)[1..] == Keys(b[1..]);
      forall k ensures For(a[1..], k) == For(b[1..], k) {
        assert For(a, k) == For(b, k);
        if k == key {
          assert For(a, k)[1..] == For(a[1..], k) && For(b, k)[1..] == For(b[1..], k);
        } else {
          assert For(a, k) == For(a[1..], k) && For(b, k) == For(b[1..], k);
        }
      }
      Determined(a[1..], b[1..]);
      assert a == [a[0]] + a[1..] && b == [b[0]] + b[1..];
    }
  }

  lemma {:induction false} ExtendedAgain(keys: seq<string>, more: seq<string>)
    ensures forall k :: k in Extended(keys, more) <==> k in keys || k in more
    ensures forall all: seq<string> :: (forall k :: k in more ==> k in all) ==> Extended(all, more) == all
  {
    if more == [] {
    } else {
      ExtendedAgain(keys, more[..|more| - 1]);
      assert more == more[..|more| - 1] + [more[|more| - 1]];
    }
  }

  // Merging the same overrides again changes nothing.
  lemma Idempotent(base: seq<string>, over: seq<string>)
    ensures Merged(Merged(base, over), over) == Merged(base, over)
  {
    var once := Merged(base, over);
    MergedKeys(base, over);
    MergedKeys(once, over);
    ExtendedAgain(Keys(base), Keys(over));
    forall key ensures For(Merged(once, over), key) == For(once, key) {
      MergedFor(base, over, key);
      MergedFor(once, over, key);
      var last := LastFor(over, key);
      if last.Some? {
        assert For(once, key)[1..] == Supersede(For(base, key), last)[1..];
      }
    }
    Determined(Merged(once, over), once);
  }

  // ---- looking up

  // The value of the first entry for the key that has one.
  function FirstValue(entries: seq<string>): string {
    if entries == [] then ""
    else if !Bare(entries[0]) then ValueOf(entries[0])
    else FirstValue(entries[1..])
  }

  function Lookup(env: seq<string>, key: string): string {
    FirstValue(For(env, key))
  }

  // A looked-up variable is its last override's, if that one has a value;
  // a bare override only hides the base's first entry.
  lemma LookupMerged(base: seq<string>, over: seq<string>, key: string)
    ensures Lookup(Merged(base, over), key) ==
            match LastFor(over, key)
            case None => Lookup(base, key)
            case Some(kv) =>
              if !Bare(kv) then ValueOf(kv)
              else if For(base, key) == [] then ""
              else FirstValue(For(base, key)[1..])
  {
    MergedFor(base, over, key);
    var last := LastFor(over, key);
    if last.Some? {
      var rest := if For(base, key) == [] then [] else For(base, key)[1..];
      var entries := [last.value] + rest;
      assert Supersede(For(base, key), last) == entries && entries[1..] == rest;
      assert FirstValue(entries) == if !Bare(last.value) then ValueOf(last.value) else FirstValue(rest);
    }
  }

  const DEFAULT_PATH := "/usr/local/sbin:/usr/local/bin:/usr/sbin:/usr/bin:/sbin:/bin"

  // Resolve's step that supplies a PATH.
  function WithPath(env: seq<string>): seq<string> {
    if Lookup(env, "PATH") == "" then env + ["PATH=" + DEFAULT_PATH] else env
  }

  lemma {:induction false} ForAppend(env: seq<string>, kv: string, key: string)
    ensures For(env + [kv], key) == For(env, key) + (if KeyOf(kv) == key then [kv] else [])
  {
    if env == [] {
      assert (env + [kv])[1..] == [];
    } else {
      assert (env + [kv])[1..] == env[1..] + [kv];
      ForAppend(env[1..], kv, key);
    }
  }

  // Nothing else of the environment changes by it.
  lemma OthersKept(env: seq<string>, key: string)
    ensures env <= WithPath(env)
    ensures key != "PATH" ==> For(WithPath(env), key) == For(env, key) && Lookup(WithPath(env), key) == Lookup(env, key)
    ensures Lookup(env, "PATH") != "" ==> WithPath(env) == env
  {
    PathEntry(DEFAULT_PATH);
    ForAppend(env, "PATH=" + DEFAULT_PATH, key);
    if key != "PATH" {
      assert For(env, key) + [] == For(env, key);
    }
  }

  predicate AllBare(entries: seq<string>) {
    forall i :: 0 <= i < |entries| ==> Bare(entries[i])
  }

  lemma {:induction false} FirstValueAppend(entries: seq<string>, kv: string)
    requires !Bare(kv)
    ensures FirstValue(entries + [kv]) == if AllBare(entries) then ValueOf(kv) else FirstValue(entries)
  {
    if entries == [] {
    } else {
      assert (entries + [kv])[1..] == entries[1..] + [kv];
      FirstValueAppend(entries[1..], kv);
      if AllBare(entries) {
        assert Bare(entries[0]);
      } else if Bare(entries[0]) {
        var i :| 0 <= i < |entries| && !Bare(entries[i]);
        assert entries[1..][i - 1] == entries[i];
      }
    }
  }

  lemma {:induction false} EntryParts(key: string, value: string)
    requires '=' !in key
    ensures KeyOf(key + "=" + value) == key && !Bare(key + "=" + value) && ValueOf(key + "=" + value) == value
    decreases |key|
  {
    var kv := key + "=" + value;
    assert kv[|key|] == '=';
    if key == [] {
      assert kv[1..] == value;
    } else {
      EntryParts(key[1..], value);
      assert kv[1..] == key[1..] + "=" + value;
    }
  }

  lemma PathEntry(value: string)
    ensures KeyOf("PATH=" + value) == "PATH" && !Bare("PATH=" + value) && ValueOf("PATH=" + value) == value
  {
    assert "PATH" + "=" == "PATH=";
    EntryParts("PATH", value);
  }

  // The default takes effect exactly when no entry gives PATH a value; an
  // entry that gives it the empty one keeps the default from being seen.
  lemma DefaultPathIff(env: seq<string>)
    ensures Lookup(WithPath(env), "PATH") == "" <==>
            Lookup(env, "PATH") == "" && !AllBare(For(env, "PATH"))
    ensures AllBare(For(env, "PATH")) ==> Lookup(WithPath(env), "PATH") == DEFAULT_PATH
  {
    PathEntry(DEFAULT_PATH);
    var kv := "PATH=" + DEFAULT_PATH;
    ForAppend(env, kv, "PATH");
    FirstValueAppend(For(env, "PATH"), kv);
    if AllBare(For(env, "PATH")) {
      NoValue(For(env, "PATH"));
    }
  }

  lemma {:induction false} NoValue(entries: seq<string>)
    requires AllBare(entries)
    ensures FirstValue(entries) == ""
  {
    if entries != [] {
      assert Bare(entries[0]);
      NoValue(entries[1..]);
    }
  }

  // ---- the loops

  lemma {:induction false} PutAt(env: seq<string>, kv: string, i: nat)
    requires i <= |env|
    requires forall j :: 0 <= j < i ==> KeyOf(env[j]) != KeyOf(kv)
    requires i < |env| ==> KeyOf(env[i]) == KeyOf(kv)
    ensures Put(env, kv) == if i < |env| then env[i := kv] else env + [kv]
  {
    if env != [] && i > 0 {
      PutAt(env[1..], kv, i - 1);
      assert env == [env[0]] + env[1..];
    }
  }

  method MergeEnv(base: seq<string>, over: seq<string>) returns (out: seq<string>)
    ensures out == Merged(base, over)
  {
    out := base;
    for n := 0 to |over|
      invariant out == Merged(base, over[..n])
    {
      var kv := over[n];
      var replaced, i := false, 0;
      ghost var was := out;
      while i < |out| && !replaced
        invariant i <= |out|
        invariant !replaced ==> out == was && forall j :: 0 <= j < i ==> KeyOf(was[j]) != KeyOf(kv)
        invariant replaced ==> out == Put(was, kv)
        decreases !replaced, |out| - i
      {
        if KeyOf(out[i]) == KeyOf(kv) {
          PutAt(was, kv, i);
          out, replaced := out[i := kv], true;
        } else {
          i := i + 1;
        }
      }
      if !replaced {
        PutAt(was, kv, |was|);
        out := out + [kv];
      }
      assert over[..n + 1][..n] == over[..n];
    }
    assert over[..|over|] == over;
  }

  method LookupEnv(env: seq<string>, key: string) returns (value: string)
    ensures value == Lookup(env, key)
  {
    for n := 0 to |env|
      invariant Lookup(env, key) == Lookup(env[n..], key)
    {
      var kv := env[n];
      assert env[n..][1..] == env[n + 1..];
      assert For(env[n..], key) == if KeyOf(kv) == key then [kv] + For(env[n + 1..], key) else For(env[n + 1..], key);
      if !Bare(kv) && KeyOf(kv) == key {
        return ValueOf(kv);
      }
      if KeyOf(kv) == key {
        assert ([kv] + For(env[n + 1..], key))[1..] == For(env[n + 1..], key);
      }
    }
    return "";
  }
}
