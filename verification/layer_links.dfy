// When applying an entry leads through a symbolic link. What then happens is
// decided by what the link points to, and is no part of this model; here it is
// said when it does not come to that.
module LayerLinks {
  import opened Bytes
  import opened Layers
  import opened LayerMarks
  import opened LayerSafety
  import Seqs
  import opened Wrappers

  // ---- where the way to a directory ends

  predicate EndsAtLink(t: Tree, d: Path) {
    WayTo(t, d).Blocked? && WayTo(t, d).node.Symlink?
  }

  // The first thing on the way to d that is not a directory.
  function EndOfWay(t: Tree, d: Path): Path
    requires WayTo(t, d).Blocked?
  {
    if WayTo(t, Parent(d)).Blocked? then EndOfWay(t, Parent(d)) else d
  }

  lemma {:induction false} EndIsAbove(t: Tree, d: Path)
    requires WayTo(t, d).Blocked?
    ensures EndOfWay(t, d) <= d
    decreases |d|
  {
    if WayTo(t, Parent(d)).Blocked? {
      EndIsAbove(t, Parent(d));
    }
  }

  // ---- an entry is led through a link

  // The source of a hard link lies behind a link, other than one that making
  // room for the entry removes first.
  predicate SourceBehindLink(t: Tree, rel: Path, src: Path) {
    src != [] && EndsAtLink(t, Parent(src)) && !(rel <= EndOfWay(t, Parent(src)))
  }

  // The entry is not turned away, and a symbolic link is on its way: to its own
  // place, to the directory it clears, to what it deletes, or, if nothing else
  // is in its way, to what it links to.
  predicate LedThroughLink(t: Tree, e: Entry) {
    if e.Corrupt? || Rel(e) == [] then false
    else if IsOpaque(e) then !Protected(Parent(Rel(e))) && EndsAtLink(t, Parent(Rel(e)))
    else if IsWhiteout(e) then
      !Protected(Deleted(e)) && !MustRemain(Deleted(e)) && Deleted(e) != [] && EndsAtLink(t, Parent(Deleted(e)))
    else
      && Takes(e)
      && (EndsAtLink(t, Parent(Rel(e)))
          || (e.kind.ALink? && !WayTo(t, Parent(Rel(e))).Blocked? && SourceBehindLink(t, Rel(e), Clean(e.kind.link))))
  }

  // What there is when room has been made for an entry other than a directory.
  lemma RoomLook(t: Tree, rel: Path, kind: Kind, q: Path)
    requires WellFormed(t) && rel != [] && !kind.ADir? && !WayTo(t, Parent(rel)).Blocked?
    ensures Look(MadeRoom(WithDirs(t, Parent(rel)), rel, kind), q) ==
            if rel <= q then None else if q <= Parent(rel) then Some(Dir) else Look(t, q)
  {
    var t1 := WithDirs(t, Parent(rel));
    WithDirsAt(t, Parent(rel), q);
    WithDirsAt(t, Parent(rel), rel);
    assert rel <= q ==> !(q <= Parent(rel));
    if rel <= q && rel != q && rel !in t {
      NothingBelow(t, rel, q);
    }
  }

  lemma WellFormedRoomMade(t: Tree, rel: Path, kind: Kind)
    requires WellFormed(t) && rel != [] && !WayTo(t, Parent(rel)).Blocked?
    ensures WellFormed(MadeRoom(WithDirs(t, Parent(rel)), rel, kind))
  {
    WellFormedWithDirs(t, Parent(rel));
    WellFormedRoom(WithDirs(t, Parent(rel)), rel, kind);
  }

  lemma {:induction false} WayInRoom(t: Tree, rel: Path, kind: Kind, d: Path)
    requires WellFormed(t) && rel != [] && !kind.ADir? && !WayTo(t, Parent(rel)).Blocked?
    ensures var t' := MadeRoom(WithDirs(t, Parent(rel)), rel, kind);
            && (WayTo(t', d).Blocked? <==> WayTo(t, d).Blocked? && !(rel <= EndOfWay(t, d)))
            && (WayTo(t', d).Blocked? ==> WayTo(t', d) == WayTo(t, d))
    decreases |d|
  {
    if d != [] {
      WayInRoom(t, rel, kind, Parent(d));
      RoomLook(t, rel, kind, d);
      if WayTo(t, Parent(d)).Blocked? {
        EndIsAbove(t, Parent(d));
      } else {
        LastStepInRoom(t, rel, kind, d);
      }
    }
  }

  lemma LastStepInRoom(t: Tree, rel: Path, kind: Kind, d: Path)
    requires WellFormed(t) && rel != [] && d != [] && !kind.ADir? && !WayTo(t, Parent(rel)).Blocked?
    requires !WayTo(t, Parent(d)).Blocked?
    requires !WayTo(MadeRoom(WithDirs(t, Parent(rel)), rel, kind), Parent(d)).Blocked?
    ensures var t' := MadeRoom(WithDirs(t, Parent(rel)), rel, kind);
            && (WayTo(t', d).Blocked? <==> WayTo(t, d).Blocked? && !(rel <= d))
            && (WayTo(t', d).Blocked? ==> WayTo(t', d) == WayTo(t, d))
  {
    var t' := MadeRoom(WithDirs(t, Parent(rel)), rel, kind);
    WellFormedRoomMade(t, rel, kind);
    RoomLook(t, rel, kind, d);
    OpenWay(t, Parent(d));
    OpenWay(t', Parent(d));
    if d <= Parent(rel) {
      assert Parent(rel)[..|d|] == d;
      ClearWay(t, Parent(rel), |d|);
    }
  }

  lemma ExtractUnresolvedIff(t: Tree, rel: Path, kind: Kind)
    requires WellFormed(t) && rel != []
    ensures ExtractEntry(t, rel, kind).Unresolved? <==>
            || EndsAtLink(t, Parent(rel))
            || (kind.ALink? && !WayTo(t, Parent(rel)).Blocked? && SourceBehindLink(t, rel, Clean(kind.link)))
  {
    if kind.ALink? && !WayTo(t, Parent(rel)).Blocked? && Clean(kind.link) != [] {
      WayInRoom(t, rel, kind, Parent(Clean(kind.link)));
    }
  }

  lemma NotOpaque(e: Entry)
    requires !IsWhiteout(e)
    ensures !IsOpaque(e)
  {
    if IsOpaque(e) {
      OpaqueIsWhiteout(e);
    }
  }

  // An entry's outcome is open if and only if it is led through a link.
  lemma UnresolvedIff(t: Tree, e: Entry)
    requires WellFormed(t)
    ensures ApplyEntry(t, e).Unresolved? <==> LedThroughLink(t, e)
  {
    if IsWhiteout(e) {
    } else if Takes(e) {
      PlainIsExtracted(t, e);
      NotOpaque(e);
      ExtractUnresolvedIff(t, Rel(e), e.kind);
    } else {
      TurnedAway(t, e);
      NotOpaque(e);
    }
  }

  // ---- over layers

  // No entry that is reached is led through a link.
  ghost predicate NoneLed(t: Tree, es: seq<Entry>) {
    forall i :: 0 <= i < |es| && ApplyAll(t, es[..i]).Done? ==> !LedThroughLink(ApplyAll(t, es[..i]).tree, es[i])
  }

  lemma NoneLedOne(t: Tree, es: seq<Entry>, e: Entry)
    ensures NoneLed(t, es + [e]) <==>
            NoneLed(t, es) && (ApplyAll(t, es).Done? ==> !LedThroughLink(ApplyAll(t, es).tree, e))
  {
    var all := es + [e];
    assert forall i :: 0 <= i <= |es| ==> all[..i] == es[..i];
    assert es[..|es|] == es && all[|es|] == e;
    if NoneLed(t, all) {
      forall i | 0 <= i < |es| && ApplyAll(t, es[..i]).Done?
        ensures !LedThroughLink(ApplyAll(t, es[..i]).tree, es[i])
      {
        assert all[i] == es[i] && all[..i] == es[..i];
      }
    }
  }

  lemma {:induction false} AllResolvedIff(t: Tree, es: seq<Entry>)
    requires WellFormed(t)
    ensures !ApplyAll(t, es).Unresolved? <==> NoneLed(t, es)
    decreases |es|
  {
    if es != [] {
      var init, e := es[..|es| - 1], es[|es| - 1];
      Seqs.Split(es);
      AllResolvedIff(t, init);
      NoneLedOne(t, init, e);
      WellFormedAll(t, init);
      UnresolvedIff(ApplyAll(t, init).tree, e);
    }
  }

  // Layers are followed to their end, or to the entry that fails, if and only
  // if no entry that is reached is led through a symbolic link.
  lemma LayersResolvedIff(t: Tree, layers: seq<seq<Entry>>)
    requires WellFormed(t)
    ensures !ApplyLayers(t, layers).Unresolved? <==> NoneLed(t, InStream(layers))
  {
    LayersAreStream(t, layers);
    AllResolvedIff(t, InStream(layers));
  }

  // ---- without symbolic links none is led through one

  predicate NoSymlinks(t: Tree) {
    forall q :: q in t ==> !t[q].Symlink?
  }

  predicate MakesNoSymlink(e: Entry) {
    e.Entry? ==> !e.kind.ASymlink?
  }

  lemma {:induction false} NoLinkOnWay(t: Tree, d: Path)
    requires NoSymlinks(t)
    ensures !EndsAtLink(t, d)
    decreases |d|
  {
    if d != [] {
      NoLinkOnWay(t, Parent(d));
    }
  }

  lemma NoLinkMet(t: Tree, e: Entry)
    requires NoSymlinks(t)
    ensures !LedThroughLink(t, e)
  {
    if e.Entry? && Rel(e) != [] {
      NoLinkOnWay(t, Parent(Rel(e)));
      if IsWhiteout(e) && Deleted(e) != [] {
        NoLinkOnWay(t, Parent(Deleted(e)));
      }
      if e.kind.ALink? && Clean(e.kind.link) != [] {
        NoLinkOnWay(t, Parent(Clean(e.kind.link)));
      }
    }
  }

  lemma NoSymlinksCleared(t: Tree, d: Path)
    requires NoSymlinks(t)
    ensures NoSymlinks(ClearDir(t, d).tree)
  {
  }

  lemma NoSymlinksRemoved(t: Tree, p: Path)
    requires NoSymlinks(t)
    ensures NoSymlinks(RemoveAll(t, p).tree)
  {
  }

  lemma NoSymlinksAfter(t: Tree, e: Entry)
    requires NoSymlinks(t) && MakesNoSymlink(e)
    ensures NoSymlinks(ApplyEntry(t, e).tree)
  {
    var rel := Rel(e);
    if e.Corrupt? || rel == [] {
    } else if IsOpaque(e) {
      NoSymlinksCleared(t, Parent(rel));
    } else if IsWhiteout(e) {
      NoSymlinksRemoved(t, Deleted(e));
    } else {
      NoSymlinksExtracted(t, rel, e.kind);
    }
  }

  lemma NoSymlinksExtracted(t: Tree, rel: Path, kind: Kind)
    requires NoSymlinks(t) && rel != [] && !kind.ASymlink?
    ensures NoSymlinks(ExtractEntry(t, rel, kind).tree)
  {
    var made := MkdirAll(t, Parent(rel));
    assert NoSymlinks(made.tree);
    if made.Done? {
      assert NoSymlinks(MadeRoom(made.tree, rel, kind));
    }
  }

  lemma {:induction false} NoSymlinksNoneLed(t: Tree, es: seq<Entry>)
    requires NoSymlinks(t) && forall e :: e in es ==> MakesNoSymlink(e)
    ensures NoneLed(t, es) && NoSymlinks(ApplyAll(t, es).tree)
    decreases |es|
  {
    if es != [] {
      var init, e := es[..|es| - 1], es[|es| - 1];
      Seqs.Split(es);
      assert e in es;
      NoSymlinksNoneLed(t, init);
      NoneLedOne(t, init, e);
      NoLinkMet(ApplyAll(t, init).tree, e);
      NoSymlinksAfter(ApplyAll(t, init).tree, e);
    }
  }

  // ---- a layer that leads through its own link

  // A name that stands for itself, and no whiteout.
  predicate PlainName(n: string) {
    PlainPart(n) && !(WHITEOUT_PREFIX <= n)
  }

  lemma CleanOne(x: string)
    requires PlainName(x)
    ensures Clean([x]) == [x] && Parent([x]) == [] && Base([x]) == x
  {
    assert Parent([x]) == [];
    assert [] + [x] == [x];
  }

  lemma CleanTwo(x: string, n: string)
    requires PlainName(x) && PlainName(n)
    ensures Clean([x, n]) == [x, n] && Parent([x, n]) == [x] && Base([x, n]) == n
  {
    CleanOne(x);
    assert Parent([x, n]) == [x];
    assert [x] + [n] == [x, n];
  }

  lemma LinkMade(t: Tree, x: string, target: string)
    requires WellFormed(t) && PlainName(x) && [x] != SBIN && [x] != PEEL && [x] !in t
    ensures var link := Entry([x], ASymlink(target));
            && Rel(link) == [x] && !IsWhiteout(link) && !IsOpaque(link)
            && ApplyEntry(t, link) == Done(t[[x] := Symlink(target)])
  {
    var link := Entry([x], ASymlink(target));
    CleanOne(x);
    NotOpaque(link);
    assert WithDirs(t, []) == t;
    assert !Protected([x]) && !MustRemain([x]);
  }

  lemma LinkMet(t: Tree, x: string, target: string, n: string, content: seq<byte>)
    requires PlainName(x) && PlainName(n) && [x] != SBIN && [x] != PEEL && [x] in t && t[[x]] == Symlink(target)
    ensures var file := Entry([x, n], AFile(content, true));
            && Rel(file) == [x, n] && !IsWhiteout(file) && !IsOpaque(file)
            && ApplyEntry(t, file) == Unresolved(t)
  {
    var file := Entry([x, n], AFile(content, true));
    CleanTwo(x, n);
    NotOpaque(file);
    assert Parent([x]) == [];
    assert [x, n] != INIT && !(PEEL <= [x, n]) by {
      assert [x, n][0] == x && PEEL[0] == "peel" && INIT[0] == SBIN[0];
    }
    assert WayTo(t, [x]) == Blocked(Symlink(target));
  }

  lemma OwnLinkMet(t: Tree, x: string, target: string, n: string, content: seq<byte>)
    requires WellFormed(t) && PlainName(x) && PlainName(n) && [x] != SBIN && [x] != PEEL && [x] !in t
    ensures ApplyAll(t, [Entry([x], ASymlink(target)), Entry([x, n], AFile(content, true))]).Unresolved?
  {
    var link, file := Entry([x], ASymlink(target)), Entry([x, n], AFile(content, true));
    LinkMade(t, x, target);
    LinkMet(t[[x] := Symlink(target)], x, target, n, content);
    ApplyAllOne(t, [], link);
    ApplyAllOne(t, [link], file);
    assert [] + [link] == [link] && [link] + [file] == [link, file];
  }

  lemma StaysInside(t: Tree, e: Entry, x: string, q: Path)
    requires [x] <= Rel(e) && !IsWhiteout(e) && !IsOpaque(e) && !([x] <= q)
    ensures Misses(t, e, q)
  {
  }

  lemma NoWhiteoutNoHit(t: Tree, es: seq<Entry>)
    requires forall e :: e in es ==> !IsWhiteout(e)
    ensures NoneHits(t, es)
  {
  }

  // A layer may make a link and then go through it. No entry of this one hits
  // the root or aims at, or newly leads through, anything outside [x]; yet what
  // it changes lies wherever the link points: with /sbin and init for the
  // target and the name it is peel itself.
  lemma OwnLinkLedThrough(t: Tree, x: string, target: string, n: string, content: seq<byte>, q: Path)
    requires WellFormed(t) && PlainName(x) && PlainName(n) && [x] != SBIN && [x] != PEEL && [x] !in t
    ensures var link, file := Entry([x], ASymlink(target)), Entry([x, n], AFile(content, true));
            && ApplyAll(t, [link, file]).Unresolved? && !NoneLed(t, [link, file]) && NoneHits(t, [link, file])
            && (!([x] <= q) ==> Misses(t, link, q) && Misses(t, file, q))
  {
    var link, file := Entry([x], ASymlink(target)), Entry([x, n], AFile(content, true));
    OwnLinkMet(t, x, target, n, content);
    AllResolvedIff(t, [link, file]);
    LinkMade(t, x, target);
    LinkMet(t[[x] := Symlink(target)], x, target, n, content);
    NoWhiteoutNoHit(t, [link, file]);
    if !([x] <= q) {
      StaysInside(t, link, x, q);
      StaysInside(t, file, x, q);
    }
  }
}
