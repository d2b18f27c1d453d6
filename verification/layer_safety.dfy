// What no sequence of layers can do: leave a broken tree, touch what none of
// its entries aims at, or harm what peel protects.
module LayerSafety {
  import opened Layers
  import Seqs
  import opened Wrappers

  // ---- the tree stays a tree, error exits included

  lemma WellFormedWithDirs(t: Tree, d: Path)
    requires WellFormed(t) && !WayTo(t, d).Blocked?
    ensures WellFormed(WithDirs(t, d)) && Look(WithDirs(t, d), d) == Some(Dir)
  {
    WithDirsAt(t, d, d);
    forall p | p in WithDirs(t, d) ensures p != [] && Look(WithDirs(t, d), Parent(p)) == Some(Dir) {
      WithDirsAt(t, d, Parent(p));
      if p !in t {
        assert p <= d;
        assert Parent(p) <= d;
      }
    }
  }

  lemma WellFormedPruned(t: Tree, p: Path)
    requires WellFormed(t)
    ensures WellFormed(Pruned(t, p))
  {
    forall q | q in Pruned(t, p) ensures Look(Pruned(t, p), Parent(q)) == Some(Dir) {
      assert !(p <= Parent(q));
    }
  }

  lemma WellFormedCleared(t: Tree, d: Path)
    requires WellFormed(t)
    ensures WellFormed(ClearDir(t, d).tree)
  {
    forall q | q in t && !InClearedChild(d, q) ensures !InClearedChild(d, Parent(q)) {
      if d < Parent(q) {
        assert Parent(q)[..|d| + 1] == q[..|d| + 1];
      }
    }
  }

  lemma WellFormedPut(t: Tree, rel: Path, node: Node)
    requires WellFormed(t) && rel != [] && Look(t, Parent(rel)) == Some(Dir)
    requires node.Dir? || forall q :: q in t ==> !(rel < q)
    ensures WellFormed(t[rel := node])
  {
    forall q | q in t[rel := node] ensures Look(t[rel := node], Parent(q)) == Some(Dir) {
      if Parent(q) == rel {
        assert rel < q;
      }
    }
  }

  lemma WellFormedRoom(t: Tree, rel: Path, kind: Kind)
    requires WellFormed(t) && rel != [] && Look(t, Parent(rel)) == Some(Dir)
    ensures var t' := MadeRoom(t, rel, kind);
            && WellFormed(t') && Look(t', Parent(rel)) == Some(Dir)
            && (kind.ADir? || forall q :: q in t' ==> !(rel < q))
  {
    WellFormedPruned(t, rel);
    if rel !in t {
      forall q | q in t ensures !(rel < q) {
        if rel < q {
          NothingBelow(t, rel, q);
        }
      }
    }
  }

  lemma WellFormedCreate(t: Tree, rel: Path, kind: Kind)
    requires WellFormed(t) && rel != [] && Look(t, Parent(rel)) == Some(Dir)
    requires kind.ADir? || forall q :: q in t ==> !(rel < q)
    ensures WellFormed(Create(t, rel, kind).tree)
  {
    var t' := Create(t, rel, kind).tree;
    if t' != t {
      WellFormedPut(t, rel, t'[rel]);
    }
  }

  lemma WellFormedExtract(t: Tree, rel: Path, kind: Kind)
    requires WellFormed(t) && rel != []
    ensures WellFormed(ExtractEntry(t, rel, kind).tree)
  {
    if MkdirAll(t, Parent(rel)).Done? {
      var t1 := WithDirs(t, Parent(rel));
      WellFormedWithDirs(t, Parent(rel));
      WellFormedRoom(t1, rel, kind);
      WellFormedCreate(MadeRoom(t1, rel, kind), rel, kind);
    }
  }

  lemma WellFormedEntry(t: Tree, e: Entry)
    requires WellFormed(t)
    ensures WellFormed(ApplyEntry(t, e).tree)
  {
    if Rel(e) != [] {
      if IsOpaque(e) {
        WellFormedCleared(t, Parent(Rel(e)));
      } else if IsWhiteout(e) {
        WellFormedPruned(t, Deleted(e));
      } else {
        WellFormedExtract(t, Rel(e), e.kind);
      }
    }
  }

  lemma {:induction false} WellFormedAll(t: Tree, es: seq<Entry>)
    requires WellFormed(t)
    ensures WellFormed(ApplyAll(t, es).tree)
    decreases |es|
  {
    if es != [] {
      WellFormedAll(t, es[..|es| - 1]);
      WellFormedEntry(ApplyAll(t, es[..|es| - 1]).tree, es[|es| - 1]);
    }
  }

  // Every node's parent is a directory, after any number of layers and
  // wherever they stop.
  lemma WellFormedLayers(t: Tree, layers: seq<seq<Entry>>)
    requires WellFormed(t)
    ensures WellFormed(ApplyLayers(t, layers).tree)
  {
    LayersAreStream(t, layers);
    WellFormedAll(t, InStream(layers));
  }

  // ---- nothing else is deleted

  // The entry is at or above q, or names it for deletion.
  predicate AimsAt(e: Entry, q: Path) {
    && Rel(e) != []
    && if IsOpaque(e) then InClearedChild(Parent(Rel(e)), q)
       else if IsWhiteout(e) then Deleted(e) <= q
       else Rel(e) <= q
  }

  // q does not exist and would be made on the way to the entry.
  predicate LeadsTo(t: Tree, q: Path, e: Entry) {
    q !in t && q != [] && q < Rel(e) && !IsWhiteout(e)
  }

  lemma CreateFrame(t: Tree, rel: Path, kind: Kind, q: Path)
    requires rel != [] && !(rel <= q)
    ensures Look(Create(MadeRoom(t, rel, kind), rel, kind).tree, q) == Look(t, q)
  {
    assert Look(MadeRoom(t, rel, kind), q) == Look(t, q);
  }

  lemma ExtractFrame(t: Tree, rel: Path, kind: Kind, q: Path)
    requires WellFormed(t) && rel != [] && !(rel <= q) && !(q !in t && q != [] && q < rel)
    ensures Look(ExtractEntry(t, rel, kind).tree, q) == Look(t, q)
  {
    if MkdirAll(t, Parent(rel)).Done? {
      CreateFrame(WithDirs(t, Parent(rel)), rel, kind, q);
      WithDirsAt(t, Parent(rel), q);
      if q <= Parent(rel) && q != [] {
        assert Parent(rel)[..|q|] == q;
        ClearWay(t, Parent(rel), |q|);
      }
    }
  }

  lemma ClearFrame(t: Tree, d: Path, q: Path)
    requires !InClearedChild(d, q)
    ensures Look(ClearDir(t, d).tree, q) == Look(t, q)
  {
  }

  lemma RemoveFrame(t: Tree, p: Path, q: Path)
    requires !(p <= q)
    ensures Look(RemoveAll(t, p).tree, q) == Look(t, q)
  {
  }

  lemma EntryFrame(t: Tree, e: Entry, q: Path)
    requires WellFormed(t) && !AimsAt(e, q) && !LeadsTo(t, q, e) && !ApplyEntry(t, e).Unresolved?
    ensures Look(ApplyEntry(t, e).tree, q) == Look(t, q)
  {
    var rel := Rel(e);
    if e.Corrupt? || rel == [] {
    } else if IsOpaque(e) {
      ClearFrame(t, Parent(rel), q);
    } else if IsWhiteout(e) {
      RemoveFrame(t, Deleted(e), q);
    } else {
      ExtractFrame(t, rel, e.kind, q);
    }
  }

  predicate Misses(t: Tree, e: Entry, q: Path) {
    !AimsAt(e, q) && !LeadsTo(t, q, e)
  }

  // A path that no entry aims at, nor leads through if it is not there, is
  // left alone by all of them, however far they get, unless one is led through
  // a symbolic link.
  lemma {:induction false} AllFrame(t: Tree, es: seq<Entry>, q: Path)
    requires WellFormed(t) && !ApplyAll(t, es).Unresolved? && forall e :: e in es ==> Misses(t, e, q)
    ensures Look(ApplyAll(t, es).tree, q) == Look(t, q)
    decreases |es|
  {
    if es != [] {
      var e, r := es[|es| - 1], ApplyAll(t, es[..|es| - 1]);
      AllFrame(t, es[..|es| - 1], q);
      WellFormedAll(t, es[..|es| - 1]);
      assert e in es && Misses(t, e, q);
      if r.Done? {
        assert q in r.tree <==> q in t;
        EntryFrame(r.tree, e, q);
      }
    }
  }

  lemma LayersFrame(t: Tree, layers: seq<seq<Entry>>, q: Path)
    requires WellFormed(t) && !ApplyLayers(t, layers).Unresolved?
    requires forall e :: e in InStream(layers) ==> Misses(t, e, q)
    ensures Look(ApplyLayers(t, layers).tree, q) == Look(t, q)
  {
    LayersAreStream(t, layers);
    AllFrame(t, InStream(layers), q);
  }

  // ---- protected paths

  // peel is in place: sbin a directory, and sbin/init something in it that is not.
  ghost predicate InPlace(t: Tree) {
    WellFormed(t) && Look(t, SBIN) == Some(Dir) && INIT in t && !t[INIT].Dir?
  }

  // sbin is still a directory; sbin/init and everything at or under peel is as it was.
  ghost predicate Kept(t: Tree, t': Tree) {
    && Look(t', SBIN) == Some(Dir)
    && Look(t', INIT) == Look(t, INIT)
    && forall q :: PEEL <= q ==> Look(t', q) == Look(t, q)
  }

  // An opaque whiteout of the layer root, or a whiteout whose name comes down
  // to the root: for those nothing is protected.
  predicate HitsRoot(e: Entry) {
    && IsWhiteout(e)
    && if IsOpaque(e) then Parent(Rel(e)) == [] else Deleted(e) == []
  }

  lemma OpaqueIsWhiteout(e: Entry)
    requires IsOpaque(e)
    ensures IsWhiteout(e)
  {
  }

  predicate Guarded(q: Path) {
    q == SBIN || q == INIT || PEEL <= q
  }

  // Clearing a directory other than the root spares what is guarded.
  lemma OpaqueSpares(e: Entry, q: Path)
    requires IsOpaque(e) && !HitsRoot(e) && Guarded(q)
    ensures !AimsAt(e, q)
  {
    OpaqueIsWhiteout(e);
    var d := Parent(Rel(e));
    if d < q {
      var child := q[..|d| + 1];
      assert child[0] == q[0];
      assert |child| == |q| ==> child == q;
    }
  }

  // Any other entry aiming at something guarded is turned away, unless it is sbin.
  lemma AimsElsewhere(e: Entry, q: Path)
    requires Rel(e) != [] && !IsOpaque(e) && !HitsRoot(e) && AimsAt(e, q) && Guarded(q)
    ensures if IsWhiteout(e) then Protected(Deleted(e)) || MustRemain(Deleted(e))
            else Protected(Rel(e)) || Rel(e) == SBIN
  {
    var r := if IsWhiteout(e) then Deleted(e) else Rel(e);
    assert r != [] && r <= q && r[0] == q[0];
    assert |r| == |q| ==> r == q;
  }

  lemma LeadsElsewhere(t: Tree, e: Entry, q: Path)
    requires InPlace(t) && LeadsTo(t, q, e) && Guarded(q)
    ensures Protected(Rel(e))
  {
    assert PEEL <= Rel(e);
  }

  lemma SbinStays(t: Tree, e: Entry, q: Path)
    requires InPlace(t) && e.Entry? && Rel(e) == SBIN && e.kind.ADir? && Guarded(q)
    ensures Look(ExtractEntry(t, SBIN, ADir).tree, q) == Look(t, q)
  {
    WithDirsAt(t, [], q);
    WithDirsAt(t, [], SBIN);
  }

  lemma EntryKeepsAt(t: Tree, e: Entry, q: Path)
    requires InPlace(t) && !HitsRoot(e) && Guarded(q) && !ApplyEntry(t, e).Unresolved?
    ensures Look(ApplyEntry(t, e).tree, q) == Look(t, q)
  {
    if LeadsTo(t, q, e) {
      LeadsElsewhere(t, e, q);
    } else if IsOpaque(e) {
      OpaqueSpares(e, q);
      EntryFrame(t, e, q);
    } else if Rel(e) != [] && AimsAt(e, q) {
      AimsElsewhere(e, q);
      if !IsWhiteout(e) && Rel(e) == SBIN && e.kind.ADir? {
        SbinStays(t, e, q);
      }
    } else {
      EntryFrame(t, e, q);
    }
  }

  lemma EntryKeeps(t: Tree, e: Entry)
    requires InPlace(t) && !HitsRoot(e) && !ApplyEntry(t, e).Unresolved?
    ensures Kept(t, ApplyEntry(t, e).tree) && InPlace(ApplyEntry(t, e).tree)
  {
    EntryKeepsAt(t, e, SBIN);
    EntryKeepsAt(t, e, INIT);
    forall q | PEEL <= q ensures Look(ApplyEntry(t, e).tree, q) == Look(t, q) {
      EntryKeepsAt(t, e, q);
    }
    WellFormedEntry(t, e);
  }

  lemma RootIsNoCover()
    ensures InClearedChild([], SBIN) && InClearedChild([], INIT)
    ensures !Protected([]) && !MustRemain([])
  {
    var root: Path := [];
    assert "peel"[0] != "sbin"[0] && PEEL[0] != SBIN[0];
    assert root < SBIN && root < INIT && SBIN[..1] == SBIN && INIT[..1] == SBIN;
  }

  lemma RootRemovesInit(t: Tree, e: Entry)
    requires HitsRoot(e)
    ensures INIT !in ApplyEntry(t, e).tree
  {
    RootIsNoCover();
  }

  // One entry that is not led through a symbolic link keeps the protected
  // paths if and only if it does not hit the root.
  lemma KeptIffNotRoot(t: Tree, e: Entry)
    requires InPlace(t) && !ApplyEntry(t, e).Unresolved?
    ensures Kept(t, ApplyEntry(t, e).tree) <==> !HitsRoot(e)
  {
    if HitsRoot(e) {
      RootRemovesInit(t, e);
    } else {
      EntryKeeps(t, e);
    }
  }

  predicate OnlyDirAt(t: Tree, p: Path) {
    p !in t || t[p].Dir?
  }

  // Whiteouts only remove, and an entry elsewhere makes p a directory at most.
  lemma OnlyDirStays(t: Tree, e: Entry, p: Path)
    requires OnlyDirAt(t, p) && (Rel(e) == p ==> Protected(p))
    ensures OnlyDirAt(ApplyEntry(t, e).tree, p)
  {
    var rel := Rel(e);
    if e.Corrupt? || rel == [] {
    } else if IsOpaque(e) {
      assert OnlyDirAt(ClearDir(t, Parent(rel)).tree, p);
    } else if IsWhiteout(e) {
      assert OnlyDirAt(RemoveAll(t, Deleted(e)).tree, p);
    } else if rel != p {
      OnlyDirByExtract(t, rel, e.kind, p);
    }
  }

  lemma OnlyDirByExtract(t: Tree, rel: Path, kind: Kind, p: Path)
    requires OnlyDirAt(t, p) && rel != [] && rel != p
    ensures OnlyDirAt(ExtractEntry(t, rel, kind).tree, p)
  {
    var made := MkdirAll(t, Parent(rel));
    assert OnlyDirAt(made.tree, p);
    if made.Done? {
      assert OnlyDirAt(MadeRoom(made.tree, rel, kind), p);
    }
  }

  // sbin/init is gone, or something lies below it.
  predicate Lost(t: Tree) {
    OnlyDirAt(t, INIT)
  }

  // And then no entry puts it back: what is written there is turned away, and
  // what is written below it makes it a directory.
  lemma LostStays(t: Tree, e: Entry)
    requires Lost(t)
    ensures Lost(ApplyEntry(t, e).tree)
  {
    OnlyDirStays(t, e, INIT);
  }

  // No entry that is reached hits the root.
  ghost predicate NoneHits(t: Tree, es: seq<Entry>) {
    forall i :: 0 <= i < |es| && ApplyAll(t, es[..i]).Done? ==> !HitsRoot(es[i])
  }

  lemma NoneHitsOne(t: Tree, es: seq<Entry>, e: Entry)
    ensures NoneHits(t, es + [e]) <==> NoneHits(t, es) && (ApplyAll(t, es).Done? ==> !HitsRoot(e))
  {
    var all := es + [e];
    assert forall i :: 0 <= i <= |es| ==> all[..i] == es[..i];
    assert es[..|es|] == es && all[|es|] == e;
    if NoneHits(t, all) {
      forall i | 0 <= i < |es| && ApplyAll(t, es[..i]).Done? ensures !HitsRoot(es[i]) {
        assert all[i] == es[i] && all[..i] == es[..i];
      }
    }
  }

  lemma {:induction false} KeptOrLost(t: Tree, es: seq<Entry>)
    requires InPlace(t) && !ApplyAll(t, es).Unresolved?
    ensures NoneHits(t, es) ==> Kept(t, ApplyAll(t, es).tree) && InPlace(ApplyAll(t, es).tree)
    ensures !NoneHits(t, es) ==> Lost(ApplyAll(t, es).tree)
    decreases |es|
  {
    if es != [] {
      var init, e := es[..|es| - 1], es[|es| - 1];
      var r := ApplyAll(t, init);
      Seqs.Split(es);
      KeptOrLost(t, init);
      NoneHitsOne(t, init, e);
      if r.Done? {
        if !NoneHits(t, init) {
          LostStays(r.tree, e);
        } else if HitsRoot(e) {
          RootRemovesInit(r.tree, e);
        } else {
          EntryKeeps(r.tree, e);
        }
      }
    }
  }

  // Protected paths survive any number of layers, wherever they stop, if and
  // only if no entry that is reached hits the root; as long as none is led
  // through a symbolic link, of which nothing is said here.
  lemma LayersKeptIff(t: Tree, layers: seq<seq<Entry>>)
    requires InPlace(t) && !ApplyLayers(t, layers).Unresolved?
    ensures Kept(t, ApplyLayers(t, layers).tree) <==> NoneHits(t, InStream(layers))
  {
    LayersAreStream(t, layers);
    KeptOrLost(t, InStream(layers));
  }

  // In particular if none of them does.
  lemma LayersKeep(t: Tree, layers: seq<seq<Entry>>)
    requires InPlace(t) && !ApplyLayers(t, layers).Unresolved?
    requires forall e :: e in InStream(layers) ==> !HitsRoot(e)
    ensures Kept(t, ApplyLayers(t, layers).tree) && InPlace(ApplyLayers(t, layers).tree)
  {
    LayersAreStream(t, layers);
    KeptOrLost(t, InStream(layers));
  }

  // The one-entry layer that removes peel itself.
  lemma RootOpaqueRemovesInit(t: Tree, e: Entry)
    requires e == Entry([WHITEOUT_OPAQUE], AFile([], true))
    ensures ApplyAll(t, [e]).Done? && INIT !in ApplyAll(t, [e]).tree
  {
    RootOpaqueHits(e);
    RootRemovesInit(t, e);
    ApplyAllOne(t, [], e);
    assert [] + [e] == [e];
    assert !Protected([]) && ApplyEntry(t, e) == ClearDir(t, []);
  }

  lemma RootOpaqueHits(e: Entry)
    requires e == Entry([WHITEOUT_OPAQUE], AFile([], true))
    ensures IsOpaque(e) && Parent(Rel(e)) == [] && HitsRoot(e)
  {
    assert Parent([WHITEOUT_OPAQUE]) == [];
    assert Clean([WHITEOUT_OPAQUE]) == [WHITEOUT_OPAQUE];
    OpaqueIsWhiteout(e);
  }
}
