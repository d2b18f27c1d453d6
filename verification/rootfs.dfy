// Unpacking layers onto the root filesystem, as the program does it.
module RootFs {
  import opened Layers
  import LS = LayerSafety
  import Seqs

  datatype Status = Ok | Error | ThroughLink

  function AsOutcome(s: Status, t: Tree): Outcome {
    match s case Ok => Done(t) case Error => Failed(t) case ThroughLink => Unresolved(t)
  }

  function StatusOf(r: Outcome): Status {
    match r case Done(_) => Ok case Failed(_) => Error case Unresolved(_) => ThroughLink
  }

  class Root {
    var tree: Tree

    constructor (tree: Tree)
      ensures this.tree == tree
    {
      this.tree := tree;
    }

    // ---- what the operating system offers

    method Mkdirs(d: Path) returns (s: Status)
      modifies this
      ensures AsOutcome(s, tree) == MkdirAll(old(tree), d)
    {
      s, tree := StatusOf(MkdirAll(tree, d)), MkdirAll(tree, d).tree;
    }

    method Remove(p: Path) returns (s: Status)
      modifies this
      ensures AsOutcome(s, tree) == RemoveAll(old(tree), p)
    {
      s, tree := StatusOf(RemoveAll(tree, p)), RemoveAll(tree, p).tree;
    }

    method Make(rel: Path, kind: Kind) returns (s: Status)
      modifies this
      ensures AsOutcome(s, tree) == Create(old(tree), rel, kind)
    {
      s, tree := StatusOf(Create(tree, rel, kind)), Create(tree, rel, kind).tree;
    }

    // The names in d; absent tells that there is no such directory.
    method ReadDir(d: Path) returns (names: set<string>, s: Status, absent: bool)
      requires WellFormed(tree)
      ensures WayTo(tree, d).Blocked? ==> s == StatusOf(Obstructed(tree, WayTo(tree, d).node))
      ensures !WayTo(tree, d).Blocked? ==> s == Ok
      ensures absent <==> WayTo(tree, d).Absent?
      ensures WayTo(tree, d).Open? ==> forall n :: n in names <==> d + [n] in tree
    {
      names, absent := {}, WayTo(tree, d).Absent?;
      if WayTo(tree, d).Blocked? {
        return {}, StatusOf(Obstructed(tree, WayTo(tree, d).node)), false;
      }
      s := Ok;
      names := ChildNames(tree, d);
    }

    // ---- the program

    method Clear(d: Path) returns (s: Status)
      requires WellFormed(tree)
      modifies this
      ensures AsOutcome(s, tree) == ClearDir(old(tree), d)
    {
      var names, status, absent := ReadDir(d);
      if absent || status != Ok {
        return status;
      }
      s := Ok;
      ghost var before, done: set<string> := tree, {};
      NothingCleared(tree, d);
      var todo := names;
      while todo != {}
        invariant done + todo == names && s == Ok
        invariant tree == ClearedOf(before, done, d)
      {
        var n :| n in todo;
        todo := todo - {n};
        ClearOne(before, done, d, n);
        if !Protected(d + [n]) {
          s := Remove(d + [n]);
        }
        done := done + {n};
      }
      AllCleared(before, names, d);
    }

    method Extract(rel: Path, kind: Kind) returns (s: Status)
      requires rel != [] && WellFormed(tree)
      modifies this
      ensures AsOutcome(s, tree) == ExtractEntry(old(tree), rel, kind)
    {
      s := Mkdirs(Parent(rel));
      if s != Ok {
        return;
      }
      DirsOpen(old(tree), Parent(rel));
      if rel in tree && !(kind.ADir? && tree[rel].Dir?) {
        s := Remove(rel);
        if s != Ok {
          return;
        }
      }
      s := Make(rel, kind);
    }

    method Apply(e: Entry) returns (s: Status)
      requires WellFormed(tree)
      modifies this
      ensures AsOutcome(s, tree) == ApplyEntry(old(tree), e)
    {
      s := Ok;
      var rel := Rel(e);
      if e == Corrupt {
        s := Error;
      } else if rel == [] {
      } else if Base(rel) == WHITEOUT_OPAQUE {
        if !Protected(Parent(rel)) {
          s := Clear(Parent(rel));
        }
      } else if WHITEOUT_PREFIX <= Base(rel) {
        var deleted := Clean(Parent(rel) + [Base(rel)[|WHITEOUT_PREFIX|..]]);
        if !Protected(deleted) && !MustRemain(deleted) {
          s := Remove(deleted);
        }
      } else if Protected(rel) {
      } else if MustRemain(rel) && !e.kind.ADir? {
      } else {
        s := Extract(rel, e.kind);
      }
    }

    // Entries are applied one by one; the first that fails ends it.
    method ApplyLayer(es: seq<Entry>) returns (s: Status)
      requires WellFormed(tree)
      modifies this
      ensures AsOutcome(s, tree) == ApplyAll(old(tree), es)
    {
      s := Ok;
      ghost var before := tree;
      for i := 0 to |es|
        invariant s == Ok && Done(tree) == ApplyAll(before, es[..i])
        invariant WellFormed(tree)
      {
        ApplyAllOne(before, es[..i], es[i]);
        Seqs.Grow(es, i);
        LS.WellFormedEntry(tree, es[i]);
        s := Apply(es[i]);
        if s != Ok {
          StopsThere(before, es, i);
          return;
        }
      }
      assert es[..|es|] == es;
    }
  }

  function ChildNames(t: Tree, d: Path): (names: set<string>)
    ensures forall n :: n in names <==> d + [n] in t
  {
    var names := set p | p in t && p != [] && Parent(p) == d :: Base(p);
    assert forall n :: d + [n] in t ==> n in names by {
      forall n | d + [n] in t ensures n in names {
        assert Parent(d + [n]) == d && Base(d + [n]) == n;
      }
    }
    assert forall p :: p in t && p != [] && Parent(p) == d ==> p == d + [Base(p)];
    names
  }

  // q is at or under one of the unprotected children of d among names.
  predicate ClearedIn(names: set<string>, d: Path, q: Path) {
    InClearedChild(d, q) && q[|d|] in names
  }

  function ClearedOf(t: Tree, names: set<string>, d: Path): Tree {
    map q | q in t && !ClearedIn(names, d, q) :: t[q]
  }

  lemma NothingCleared(t: Tree, d: Path)
    ensures ClearedOf(t, {}, d) == t
  {
  }

  lemma ClearOne(t: Tree, names: set<string>, d: Path, n: string)
    requires WayTo(t, d) == Open
    ensures ClearedOf(t, names + {n}, d) ==
            if Protected(d + [n]) then ClearedOf(t, names, d) else RemoveAll(ClearedOf(t, names, d), d + [n]).tree
    ensures !Protected(d + [n]) ==> RemoveAll(ClearedOf(t, names, d), d + [n]).Done?
  {
    assert Parent(d + [n]) == d;
    WayCleared(t, names, d, d);
    forall q ensures ClearedIn(names + {n}, d, q) <==> ClearedIn(names, d, q) || (!Protected(d + [n]) && d + [n] <= q) {
      BelowChild(d, n, q);
    }
  }

  lemma {:induction false} WayCleared(t: Tree, names: set<string>, d: Path, c: Path)
    requires WayTo(t, c) == Open && c <= d
    ensures WayTo(ClearedOf(t, names, d), c) == Open
    decreases |c|
  {
    if c != [] {
      WayCleared(t, names, d, Parent(c));
    }
  }

  lemma AllCleared(t: Tree, names: set<string>, d: Path)
    requires WellFormed(t) && WayTo(t, d) == Open && forall n :: n in names <==> d + [n] in t
    ensures ClearDir(t, d) == Done(ClearedOf(t, names, d))
  {
    forall q | q in t ensures ClearedIn(names, d, q) <==> InClearedChild(d, q) {
      if d < q {
        ChildIsNamed(t, d, q);
      }
    }
  }

  lemma BelowChild(d: Path, n: string, q: Path)
    ensures d + [n] <= q <==> d < q && q[|d|] == n
    ensures d + [n] <= q ==> q[..|d| + 1] == d + [n]
  {
    if d < q && q[|d|] == n {
      assert q[..|d| + 1] == d + [n];
    }
  }

  lemma {:induction false} ChildIsNamed(t: Tree, d: Path, q: Path)
    requires WellFormed(t) && q in t && d < q
    ensures d + [q[|d|]] in t
    decreases |q|
  {
    if |q| == |d| + 1 {
      assert q == d + [q[|d|]];
    } else {
      assert Parent(q) in t && d < Parent(q);
      ChildIsNamed(t, d, Parent(q));
    }
  }

  lemma DirsOpen(t: Tree, d: Path)
    requires WellFormed(t) && !WayTo(t, d).Blocked?
    ensures WayTo(WithDirs(t, d), d) == Open
  {
    LS.WellFormedWithDirs(t, d);
    OpenWay(WithDirs(t, d), d);
  }

  lemma {:induction false} StopsThere(t: Tree, es: seq<Entry>, i: nat)
    requires i < |es| && !ApplyAll(t, es[..i + 1]).Done?
    ensures ApplyAll(t, es) == ApplyAll(t, es[..i + 1])
    decreases |es|
  {
    if i + 1 == |es| {
      assert es[..i + 1] == es;
    } else {
      assert es[..|es| - 1][..i + 1] == es[..i + 1];
      StopsThere(t, es[..|es| - 1], i);
    }
  }
}
