// What entries do to a path, whatever the tree they are applied to.
module LayerMarks {
  import opened Layers
  import opened LayerSafety
  import Seqs
  import opened Wrappers

  // ---- hiding

  // The whiteout w hides q.
  predicate Hides(w: Entry, q: Path) {
    && IsWhiteout(w)
    && if IsOpaque(w) then !Protected(Parent(Rel(w))) && InClearedChild(Parent(Rel(w)), q)
       else !Protected(Deleted(w)) && !MustRemain(Deleted(w)) && Deleted(w) <= q
  }

  predicate HiddenBySome(ws: seq<Entry>, q: Path) {
    exists w :: w in ws && Hides(w, q)
  }

  function Hidden(t: Tree, ws: seq<Entry>): Tree {
    map q | q in t && !HiddenBySome(ws, q) :: t[q]
  }

  // What lies below something hidden is hidden.
  lemma HidesBelow(w: Entry, p: Path, q: Path)
    requires Hides(w, p) && p <= q
    ensures Hides(w, q)
  {
    if IsOpaque(w) {
      ClearedBelow(Parent(Rel(w)), p, q);
    } else {
      assert Deleted(w) <= q;
    }
  }

  lemma ClearedBelow(d: Path, p: Path, q: Path)
    requires InClearedChild(d, p) && p <= q
    ensures InClearedChild(d, q)
  {
    assert p[..|d| + 1] == q[..|d| + 1];
  }

  lemma HiddenOne(t: Tree, ws: seq<Entry>, w: Entry)
    ensures Hidden(t, ws + [w]) == Hidden(Hidden(t, ws), [w])
  {
    forall q ensures HiddenBySome(ws + [w], q) <==> HiddenBySome(ws, q) || HiddenBySome([w], q) {
      if HiddenBySome(ws, q) {
        var v :| v in ws && Hides(v, q);
        assert v in ws + [w];
      }
      if HiddenBySome([w], q) {
        assert w in ws + [w];
      }
    }
  }

  lemma HiddenLook(t: Tree, w: Entry, q: Path)
    ensures HiddenBySome([w], q) <==> Hides(w, q)
    ensures q != [] ==> Look(Hidden(t, [w]), q) == if Hides(w, q) then None else Look(t, q)
  {
    if Hides(w, q) {
      assert w in [w];
    }
  }

  // A whiteout that goes through removes from the tree what it hides.
  lemma WhiteoutHides(t: Tree, w: Entry)
    requires WellFormed(t) && IsWhiteout(w) && ApplyEntry(t, w).Done?
    ensures ApplyEntry(t, w).tree == Hidden(t, [w])
  {
    var d := if IsOpaque(w) then Parent(Rel(w)) else Deleted(w);
    forall q | q in t ensures HiddenBySome([w], q) <==> Hides(w, q) {
      HiddenLook(t, w, q);
    }
    if IsOpaque(w) && !Protected(d) && WayTo(t, d) != Open {
      OpenWay(t, d);
      forall q | q in t ensures !(d < q) {
        if d < q {
          NothingBelow(t, d, q);
        }
      }
    }
  }

  lemma WellFormedHidden(t: Tree, w: Entry)
    requires WellFormed(t)
    ensures WellFormed(Hidden(t, [w]))
  {
    forall q | q in Hidden(t, [w]) ensures Look(Hidden(t, [w]), Parent(q)) == Some(Dir) {
      HiddenLook(t, w, q);
      HiddenLook(t, w, Parent(q));
      if Hides(w, Parent(q)) {
        HidesBelow(w, Parent(q), q);
      }
    }
  }

  // ---- marks

  predicate LinkFree(x: Entry) {
    x.Entry? ==> !x.kind.ALink?
  }

  predicate AllLinkFree(es: seq<Entry>) {
    forall e :: e in es ==> LinkFree(e)
  }

  // Neither a whiteout nor turned away.
  predicate Takes(x: Entry) {
    x.Entry? && Rel(x) != [] && !IsWhiteout(x) && !Protected(Rel(x)) && !(MustRemain(Rel(x)) && !x.kind.ADir?)
  }

  datatype Mark = Untouched | Cleared | Laid(node: Node)

  // What an entry that goes through does to q.
  function MarkBy(x: Entry, q: Path): Mark
    requires LinkFree(x)
  {
    if IsWhiteout(x) then (if Hides(x, q) then Cleared else Untouched)
    else if !Takes(x) then Untouched
    else if q == Rel(x) then
      (match Left(x.kind) case Some(n) => Laid(n) case None => Cleared)
    else if Rel(x) <= q then (if x.kind.ADir? then Untouched else Cleared)
    else if q <= Rel(x) then Laid(Dir)
    else Untouched
  }

  // What a list of entries does to q: what the last of them does that does anything.
  function Marked(es: seq<Entry>, q: Path): Mark
    requires AllLinkFree(es)
  {
    if es == [] then Untouched
    else
      var m := MarkBy(es[|es| - 1], q);
      if m.Untouched? then Marked(es[..|es| - 1], q) else m
  }

  // What is then at q, where `below` was.
  function Shown(m: Mark, below: Option<Node>): Option<Node> {
    match m
    case Untouched => below
    case Cleared => None
    case Laid(n) => Some(n)
  }

  lemma MarkedOne(es: seq<Entry>, e: Entry, q: Path)
    requires AllLinkFree(es) && LinkFree(e)
    ensures AllLinkFree(es + [e])
    ensures Marked(es + [e], q) == if MarkBy(e, q).Untouched? then Marked(es, q) else MarkBy(e, q)
  {
    assert (es + [e])[..|es|] == es;
  }

  lemma {:induction false} MarkedConcat(a: seq<Entry>, b: seq<Entry>, q: Path)
    requires AllLinkFree(a) && AllLinkFree(b)
    ensures AllLinkFree(a + b)
    ensures Marked(a + b, q) == if Marked(b, q).Untouched? then Marked(a, q) else Marked(b, q)
    decreases |b|
  {
    if b == [] {
      Seqs.Unit(a);
    } else {
      var init, e := b[..|b| - 1], b[|b| - 1];
      Seqs.Split(b);
      Seqs.Assoc(a, init, [e]);
      MarkedConcat(a, init, q);
      MarkedOne(a + init, e, q);
    }
  }

  lemma {:induction false} UntouchedByEach(es: seq<Entry>, q: Path)
    requires AllLinkFree(es)
    ensures Marked(es, q).Untouched? <==> forall e :: e in es ==> MarkBy(e, q).Untouched?
    decreases |es|
  {
    if es != [] {
      UntouchedByEach(es[..|es| - 1], q);
      Seqs.Split(es);
      assert es[|es| - 1] in es;
    }
  }

  // ---- applying entries, with whiteouts that always go through

  function Spec(t: Tree, e: Entry): Outcome {
    if IsWhiteout(e) then Done(Hidden(t, [e])) else ApplyEntry(t, e)
  }

  function SpecAll(t: Tree, es: seq<Entry>): Outcome {
    if es == [] then Done(t)
    else
      var r := SpecAll(t, es[..|es| - 1]);
      if r.Done? then Spec(r.tree, es[|es| - 1]) else r
  }

  lemma SpecAllOne(t: Tree, es: seq<Entry>, e: Entry)
    ensures SpecAll(t, es + [e]) == if SpecAll(t, es).Done? then Spec(SpecAll(t, es).tree, e) else SpecAll(t, es)
  {
    Seqs.Front(es, e);
  }

  lemma {:induction false} SpecAllConcat(t: Tree, a: seq<Entry>, b: seq<Entry>)
    ensures SpecAll(t, a + b) == if SpecAll(t, a).Done? then SpecAll(SpecAll(t, a).tree, b) else SpecAll(t, a)
    decreases |b|
  {
    if b == [] {
      Seqs.Unit(a);
    } else {
      var init, e := b[..|b| - 1], b[|b| - 1];
      Seqs.Split(b);
      Seqs.Assoc(a, init, [e]);
      SpecAllConcat(t, a, init);
      SpecAllOne(t, a + init, e);
    }
  }

  lemma {:induction false} WellFormedSpec(t: Tree, es: seq<Entry>)
    requires WellFormed(t)
    ensures WellFormed(SpecAll(t, es).tree)
    decreases |es|
  {
    if es != [] {
      var r := SpecAll(t, es[..|es| - 1]);
      WellFormedSpec(t, es[..|es| - 1]);
      WellFormedHidden(r.tree, es[|es| - 1]);
      WellFormedEntry(r.tree, es[|es| - 1]);
    }
  }

  // Entries that go through as they come do the same.
  lemma {:induction false} StreamIsSpec(t: Tree, es: seq<Entry>)
    requires WellFormed(t) && ApplyAll(t, es).Done?
    ensures SpecAll(t, es) == ApplyAll(t, es)
    decreases |es|
  {
    if es != [] {
      var init, e := es[..|es| - 1], es[|es| - 1];
      StreamIsSpec(t, init);
      WellFormedAll(t, init);
      if IsWhiteout(e) {
        WhiteoutHides(ApplyAll(t, init).tree, e);
      }
    }
  }

  lemma MarkByLook(t: Tree, x: Entry, q: Path)
    requires WellFormed(t) && LinkFree(x) && q != [] && Spec(t, x).Done?
    ensures Look(Spec(t, x).tree, q) == Shown(MarkBy(x, q), Look(t, q))
  {
    if IsWhiteout(x) {
      HiddenLook(t, x, q);
    } else if Takes(x) {
      PlainIsExtracted(t, x);
      ExtractAt(t, Rel(x), x.kind, q);
      if Rel(x) < q && Look(t, Rel(x)) != Some(Dir) {
        NothingBelow(t, Rel(x), q);
      }
    } else {
      TurnedAway(t, x);
    }
  }

  lemma PlainIsExtracted(t: Tree, x: Entry)
    requires Takes(x)
    ensures ApplyEntry(t, x) == ExtractEntry(t, Rel(x), x.kind)
  {
    if IsOpaque(x) {
      OpaqueIsWhiteout(x);
    }
  }

  lemma TurnedAway(t: Tree, x: Entry)
    requires !IsWhiteout(x) && !Takes(x)
    ensures ApplyEntry(t, x) == if x.Corrupt? then Failed(t) else Done(t)
  {
    if IsOpaque(x) {
      OpaqueIsWhiteout(x);
    }
  }

  // The marks tell what is at a path from what was there.
  lemma {:induction false} MarkedLook(t: Tree, es: seq<Entry>, q: Path)
    requires WellFormed(t) && AllLinkFree(es) && q != [] && SpecAll(t, es).Done?
    ensures Look(SpecAll(t, es).tree, q) == Shown(Marked(es, q), Look(t, q))
    decreases |es|
  {
    if es != [] {
      var init := es[..|es| - 1];
      MarkedLook(t, init, q);
      WellFormedSpec(t, init);
      MarkByLook(SpecAll(t, init).tree, es[|es| - 1], q);
    }
  }

  lemma SameTree(a: Tree, b: Tree)
    requires WellFormed(a) && WellFormed(b)
    ensures a == b <==> forall q :: q != [] ==> Look(a, q) == Look(b, q)
  {
    if forall q :: q != [] ==> Look(a, q) == Look(b, q) {
      forall q ensures (q in a <==> q in b) && (q in a ==> a[q] == b[q]) {
        assert q != [] ==> Look(a, q) == Look(b, q);
      }
    }
  }

  // ---- what is in the way

  predicate CanBeMade(kind: Kind) {
    (kind.AFile? ==> kind.complete) && (kind.ASpecial? ==> kind.created)
  }

  lemma TakenDone(t: Tree, x: Entry)
    requires LinkFree(x) && Takes(x)
    ensures ApplyEntry(t, x).Done? <==> !WayTo(t, Parent(Rel(x))).Blocked? && CanBeMade(x.kind)
  {
    PlainIsExtracted(t, x);
  }

  lemma {:induction false} BlockedAt(t: Tree, d: Path) returns (i: nat)
    requires WayTo(t, d).Blocked?
    ensures 0 < i <= |d| && d[..i] in t && !t[d[..i]].Dir?
    decreases |d|
  {
    if WayTo(t, Parent(d)).Blocked? {
      i := BlockedAt(t, Parent(d));
      assert Parent(d)[..i] == d[..i];
    } else {
      i := |d|;
      assert d[..i] == d;
    }
  }

  // The list itself has put something at p that is not a directory.
  predicate Bars(es: seq<Entry>, p: Path)
    requires AllLinkFree(es)
  {
    Marked(es, p).Laid? && !Marked(es, p).node.Dir?
  }

  // Nothing the list has put there is in the way to rel.
  predicate LeavesOpen(es: seq<Entry>, rel: Path)
    requires AllLinkFree(es)
  {
    forall i :: 0 < i < |rel| ==> !Bars(es, rel[..i])
  }

  // No entry of the list is in the way of a later one.
  predicate Passable(es: seq<Entry>)
    requires AllLinkFree(es)
  {
    es == [] || (Passable(es[..|es| - 1]) && (Takes(es[|es| - 1]) ==> LeavesOpen(es[..|es| - 1], Rel(es[|es| - 1]))))
  }

  // x goes through after entries that are all among `before`.
  ghost predicate BackedBy(t: Tree, g: seq<Entry>, x: Entry, before: seq<Entry>) {
    && (forall e :: e in g ==> e in before)
    && SpecAll(t, g).Done? && ApplyEntry(SpecAll(t, g).tree, x).Done?
  }

  ghost predicate HasBacking(t: Tree, x: Entry, before: seq<Entry>) {
    exists g :: BackedBy(t, g, x, before)
  }

  // So every entry of the list does, whiteouts apart.
  ghost predicate Backed(t: Tree, es: seq<Entry>) {
    es == [] || (Backed(t, es[..|es| - 1]) && (IsWhiteout(es[|es| - 1]) || HasBacking(t, es[|es| - 1], es[..|es| - 1])))
  }

  lemma BackedOne(t: Tree, es: seq<Entry>, e: Entry)
    ensures Backed(t, es + [e]) <==> Backed(t, es) && (IsWhiteout(e) || HasBacking(t, e, es))
  {
    Seqs.Front(es, e);
  }

  // If x has gone through after fewer entries, then the only thing to stop it
  // now is what the others have put in its way.
  lemma StoppedOnlyByList(t: Tree, es: seq<Entry>, x: Entry, g: seq<Entry>)
    requires WellFormed(t) && AllLinkFree(es) && LinkFree(x) && Takes(x)
    requires SpecAll(t, es).Done? && BackedBy(t, g, x, es)
    ensures ApplyEntry(SpecAll(t, es).tree, x).Done? <==> LeavesOpen(es, Rel(x))
  {
    var a, b, rel := SpecAll(t, g).tree, SpecAll(t, es).tree, Rel(x);
    TakenDone(a, x);
    TakenDone(b, x);
    if WayTo(b, Parent(rel)).Blocked? {
      var i := BlockedAt(b, Parent(rel));
      assert Parent(rel)[..i] == rel[..i];
      InTheWay(t, es, x, g, i);
    } else {
      OpenIsLeftOpen(t, es, rel);
    }
  }

  lemma OpenIsLeftOpen(t: Tree, es: seq<Entry>, rel: Path)
    requires WellFormed(t) && AllLinkFree(es) && SpecAll(t, es).Done?
    requires rel != [] && !WayTo(SpecAll(t, es).tree, Parent(rel)).Blocked?
    ensures LeavesOpen(es, rel)
  {
    WellFormedSpec(t, es);
    forall i | 0 < i < |rel| ensures !Bars(es, rel[..i]) {
      assert Parent(rel)[..i] == rel[..i];
      ClearWay(SpecAll(t, es).tree, Parent(rel), i);
      MarkedLook(t, es, rel[..i]);
    }
  }

  lemma InTheWay(t: Tree, es: seq<Entry>, x: Entry, g: seq<Entry>, i: nat)
    requires WellFormed(t) && AllLinkFree(es) && LinkFree(x) && Takes(x)
    requires SpecAll(t, es).Done? && BackedBy(t, g, x, es)
    requires 0 < i < |Rel(x)| && Rel(x)[..i] in SpecAll(t, es).tree && !SpecAll(t, es).tree[Rel(x)[..i]].Dir?
    ensures Bars(es, Rel(x)[..i])
  {
    var a, rel := SpecAll(t, g).tree, Rel(x);
    var p := rel[..i];
    MarkedLook(t, es, p);
    if Marked(es, p).Untouched? {
      UntouchedByEach(es, p);
      UntouchedByEach(g, p);
      MarkedLook(t, g, p);
      WellFormedSpec(t, g);
      TakenDone(a, x);
      assert Parent(rel)[..i] == p;
      ClearWay(a, Parent(rel), i);
      assert false;
    }
  }

  lemma {:induction false} DoneIffPassable(t: Tree, es: seq<Entry>)
    requires WellFormed(t) && AllLinkFree(es) && Backed(t, es)
    ensures SpecAll(t, es).Done? <==> Passable(es)
    decreases |es|
  {
    if es != [] {
      var init, x := es[..|es| - 1], es[|es| - 1];
      DoneIffPassable(t, init);
      if SpecAll(t, init).Done? && !IsWhiteout(x) {
        assert HasBacking(t, x, init);
        var g :| BackedBy(t, g, x, init);
        if Takes(x) {
          StoppedOnlyByList(t, init, x, g);
        } else {
          TurnedAway(SpecAll(t, g).tree, x);
          TurnedAway(SpecAll(t, init).tree, x);
        }
      }
    }
  }
}
