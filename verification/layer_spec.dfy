// What a layer means, by the "Whiteouts" and "Opaque Whiteout" sections of the
// OCI image specification's layer.md: whiteouts hide paths of the layers
// below, and only of those; then the layer's other entries go on top. Against
// it, what applying the entries in stream order does.
module LayerSpec {
  import opened Layers
  import opened LayerMarks
  import opened LayerSafety
  import Seqs

  function Whiteouts(es: seq<Entry>): seq<Entry> {
    if es == [] then []
    else Whiteouts(es[..|es| - 1]) + if IsWhiteout(es[|es| - 1]) then [es[|es| - 1]] else []
  }

  function Plain(es: seq<Entry>): seq<Entry> {
    if es == [] then []
    else Plain(es[..|es| - 1]) + if IsWhiteout(es[|es| - 1]) then [] else [es[|es| - 1]]
  }

  // All the layer's whiteouts against the tree below, then its other entries.
  function TwoPhase(t: Tree, es: seq<Entry>): Outcome {
    ApplyAll(Hidden(t, Whiteouts(es)), Plain(es))
  }

  function ImageMeaning(t: Tree, layers: seq<seq<Entry>>): Outcome {
    if layers == [] then Done(t)
    else
      var r := ImageMeaning(t, layers[..|layers| - 1]);
      if r.Done? then TwoPhase(r.tree, layers[|layers| - 1]) else r
  }

  // The entries of all layers in the order in which the specification applies them.
  function InPhases(layers: seq<seq<Entry>>): seq<Entry> {
    if layers == [] then [] else InPhases(layers[..|layers| - 1]) + Phases(layers[|layers| - 1])
  }

  function Phases(es: seq<Entry>): seq<Entry> {
    Whiteouts(es) + Plain(es)
  }

  predicate LinkFreeImage(layers: seq<seq<Entry>>) {
    forall es :: es in layers ==> AllLinkFree(es)
  }

  // ---- the parts of a layer

  lemma {:induction false} Parts(es: seq<Entry>)
    ensures forall e :: e in es && IsWhiteout(e) ==> e in Whiteouts(es)
    ensures forall e :: e in es && !IsWhiteout(e) ==> e in Plain(es)
    ensures forall e :: e in Whiteouts(es) ==> e in es && IsWhiteout(e)
    ensures forall e :: e in Plain(es) ==> e in es && !IsWhiteout(e)
    decreases |es|
  {
    if es != [] {
      Parts(es[..|es| - 1]);
      Seqs.Split(es);
    }
  }

  lemma PhasesLinkFree(es: seq<Entry>)
    requires AllLinkFree(es)
    ensures AllLinkFree(Whiteouts(es)) && AllLinkFree(Plain(es)) && AllLinkFree(Phases(es))
  {
    Parts(es);
  }

  lemma {:induction false} ImageLinkFree(layers: seq<seq<Entry>>)
    requires LinkFreeImage(layers)
    ensures AllLinkFree(InStream(layers)) && AllLinkFree(InPhases(layers))
    ensures forall e :: e in InStream(layers) ==> e in InPhases(layers)
    decreases |layers|
  {
    if layers != [] {
      var es := layers[|layers| - 1];
      assert es in layers;
      ImageLinkFree(layers[..|layers| - 1]);
      PhasesLinkFree(es);
      Parts(es);
    }
  }

  lemma {:induction false} PlainAsIs(t: Tree, es: seq<Entry>)
    requires forall e :: e in es ==> !IsWhiteout(e)
    ensures SpecAll(t, es) == ApplyAll(t, es)
    decreases |es|
  {
    if es != [] {
      assert es[|es| - 1] in es;
      PlainAsIs(t, es[..|es| - 1]);
    }
  }

  lemma {:induction false} WhiteoutsHide(t: Tree, ws: seq<Entry>)
    requires forall w :: w in ws ==> IsWhiteout(w)
    ensures SpecAll(t, ws) == Done(Hidden(t, ws))
    decreases |ws|
  {
    if ws == [] {
      assert Hidden(t, []) == t;
    } else {
      var init, w := ws[..|ws| - 1], ws[|ws| - 1];
      Seqs.Split(ws);
      assert w in ws;
      WhiteoutsHide(t, init);
      HiddenOne(t, init, w);
    }
  }

  lemma TwoPhaseIsSpec(t: Tree, es: seq<Entry>)
    ensures TwoPhase(t, es) == SpecAll(t, Phases(es))
  {
    Parts(es);
    WhiteoutsHide(t, Whiteouts(es));
    PlainAsIs(Hidden(t, Whiteouts(es)), Plain(es));
    SpecAllConcat(t, Whiteouts(es), Plain(es));
  }

  lemma {:induction false} MeaningIsSpec(t: Tree, layers: seq<seq<Entry>>)
    ensures ImageMeaning(t, layers) == SpecAll(t, InPhases(layers))
    decreases |layers|
  {
    if layers != [] {
      var rest, es := layers[..|layers| - 1], layers[|layers| - 1];
      MeaningIsSpec(t, rest);
      SpecAllConcat(t, InPhases(rest), Phases(es));
      if ImageMeaning(t, rest).Done? {
        TwoPhaseIsSpec(ImageMeaning(t, rest).tree, es);
      }
    }
  }

  // ---- the marks that the two orders leave

  // b lays all that a lays, the same, and touches just what a touches.
  predicate Overlays(a: Mark, b: Mark) {
    (a.Laid? ==> b == a) && (a.Untouched? <==> b.Untouched?)
  }

  lemma {:induction false} PartsMarked(es: seq<Entry>, q: Path)
    requires AllLinkFree(es)
    ensures AllLinkFree(Whiteouts(es)) && AllLinkFree(Plain(es))
    ensures !Marked(Whiteouts(es), q).Laid?
    ensures Marked(es, q).Laid? ==> Marked(Plain(es), q) == Marked(es, q)
    ensures Marked(es, q).Untouched? <==> Marked(Whiteouts(es), q).Untouched? && Marked(Plain(es), q).Untouched?
    decreases |es|
  {
    if es != [] {
      var init, e := es[..|es| - 1], es[|es| - 1];
      Seqs.Split(es);
      assert LinkFree(e) && AllLinkFree(init);
      PartsMarked(init, q);
      if IsWhiteout(e) {
        MarkedOne(Whiteouts(init), e, q);
        Seqs.Unit(Plain(init));
      } else {
        MarkedOne(Plain(init), e, q);
        Seqs.Unit(Whiteouts(init));
      }
    }
  }

  lemma PhasesOverlay(es: seq<Entry>, q: Path)
    requires AllLinkFree(es)
    ensures AllLinkFree(Phases(es)) && Overlays(Marked(es, q), Marked(Phases(es), q))
  {
    PartsMarked(es, q);
    MarkedConcat(Whiteouts(es), Plain(es), q);
  }

  lemma {:induction false} ImageOverlays(layers: seq<seq<Entry>>, q: Path)
    requires LinkFreeImage(layers) && AllLinkFree(InStream(layers)) && AllLinkFree(InPhases(layers))
    ensures Overlays(Marked(InStream(layers), q), Marked(InPhases(layers), q))
    decreases |layers|
  {
    if layers != [] {
      var rest, es := layers[..|layers| - 1], layers[|layers| - 1];
      assert es in layers;
      ImageLinkFree(rest);
      ImageOverlays(rest, q);
      PhasesOverlay(es, q);
      MarkedConcat(InStream(rest), es, q);
      MarkedConcat(InPhases(rest), Phases(es), q);
    }
  }

  // ---- entries of the stream go through; what that says of the phases

  lemma {:induction false} WhiteoutsBacked(t: Tree, f: seq<Entry>, ws: seq<Entry>)
    requires Backed(t, f) && forall w :: w in ws ==> IsWhiteout(w)
    ensures Backed(t, f + ws)
    decreases |ws|
  {
    if ws == [] {
      Seqs.Unit(f);
    } else {
      var init, w := ws[..|ws| - 1], ws[|ws| - 1];
      Seqs.Split(ws);
      assert w in ws;
      WhiteoutsBacked(t, f, init);
      Seqs.Assoc(f, init, [w]);
      BackedOne(t, f + init, w);
    }
  }

  // s: the stream so far, whose entries are all in f; pre: part of the layer es.
  lemma {:induction false} PlainBacked(t: Tree, s: seq<Entry>, f: seq<Entry>, pre: seq<Entry>)
    requires WellFormed(t) && ApplyAll(t, s + pre).Done? && Backed(t, f)
    requires forall e :: e in s || (e in pre && IsWhiteout(e)) ==> e in f
    ensures Backed(t, f + Plain(pre))
    decreases |pre|
  {
    if pre == [] {
      Seqs.Unit(f);
    } else {
      var init, x := pre[..|pre| - 1], pre[|pre| - 1];
      Seqs.Split(pre);
      Seqs.Assoc(s, init, [x]);
      ApplyAllOne(t, s + init, x);
      PlainBacked(t, s, f, init);
      if IsWhiteout(x) {
        Seqs.Unit(Plain(init));
      } else {
        Parts(init);
        StreamIsSpec(t, s + init);
        assert BackedBy(t, s + init, x, f + Plain(init));
        assert HasBacking(t, x, f + Plain(init));
        BackedOne(t, f + Plain(init), x);
        Seqs.Assoc(f, Plain(init), [x]);
      }
    }
  }

  lemma {:induction false} PhasesBacked(t: Tree, layers: seq<seq<Entry>>)
    requires WellFormed(t) && LinkFreeImage(layers) && ApplyAll(t, InStream(layers)).Done?
    ensures Backed(t, InPhases(layers))
    decreases |layers|
  {
    if layers != [] {
      var rest, es := layers[..|layers| - 1], layers[|layers| - 1];
      ApplyAllConcat(t, InStream(rest), es);
      PhasesBacked(t, rest);
      ImageLinkFree(rest);
      Parts(es);
      WhiteoutsBacked(t, InPhases(rest), Whiteouts(es));
      PlainBacked(t, InStream(rest), InPhases(rest) + Whiteouts(es), es);
      Seqs.Assoc(InPhases(rest), Whiteouts(es), Plain(es));
    }
  }

  // ---- when the two orders agree

  // What fs lays es lays too.
  ghost predicate Restored(es: seq<Entry>, fs: seq<Entry>)
    requires AllLinkFree(es) && AllLinkFree(fs)
  {
    forall q :: q != [] && Marked(fs, q).Laid? ==> Marked(es, q).Laid?
  }

  // An image without hard links, which goes through in stream order, then
  // gives the tree that the specification gives if and only if, in the order
  // of the specification, no entry puts a non-directory in the way of a later
  // one, and whatever its entries lay in that order they lay in stream order
  // too: what a late whiteout deletes of its own layer is put there again. Both
  // can be read off the entries; the tree they are applied to plays no part.
  lemma ImageIff(t: Tree, layers: seq<seq<Entry>>)
    requires WellFormed(t) && LinkFreeImage(layers) && ApplyLayers(t, layers).Done?
    ensures AllLinkFree(InStream(layers)) && AllLinkFree(InPhases(layers))
    ensures ImageMeaning(t, layers) == ApplyLayers(t, layers) <==>
            Passable(InPhases(layers)) && Restored(InStream(layers), InPhases(layers))
  {
    var es, fs := InStream(layers), InPhases(layers);
    ImageLinkFree(layers);
    LayersAreStream(t, layers);
    MeaningIsSpec(t, layers);
    StreamIsSpec(t, es);
    PhasesBacked(t, layers);
    DoneIffPassable(t, fs);
    if Passable(fs) {
      var a, b := SpecAll(t, es).tree, SpecAll(t, fs).tree;
      WellFormedSpec(t, es);
      WellFormedSpec(t, fs);
      SameTree(a, b);
      forall q | q != [] ensures Look(a, q) == Look(b, q) <==> (Marked(fs, q).Laid? ==> Marked(es, q).Laid?) {
        ImageOverlays(layers, q);
        MarkedLook(t, es, q);
        MarkedLook(t, fs, q);
      }
    }
  }

  // The same for one layer.
  lemma LayerIff(t: Tree, es: seq<Entry>)
    requires WellFormed(t) && AllLinkFree(es) && ApplyAll(t, es).Done?
    ensures AllLinkFree(Phases(es)) && AllLinkFree(Plain(es))
    ensures TwoPhase(t, es) == ApplyAll(t, es) <==> Passable(Phases(es)) && Restored(es, Plain(es))
  {
    OneLayer(t, es);
    PhasesLinkFree(es);
    ImageIff(t, [es]);
    PlainRestored(es);
  }

  lemma PlainRestored(es: seq<Entry>)
    requires AllLinkFree(es) && AllLinkFree(Plain(es)) && AllLinkFree(Phases(es))
    ensures Restored(es, Phases(es)) <==> Restored(es, Plain(es))
  {
    forall q ensures Marked(Phases(es), q).Laid? <==> Marked(Plain(es), q).Laid? {
      PartsMarked(es, q);
      MarkedConcat(Whiteouts(es), Plain(es), q);
    }
  }

  lemma OneLayer(t: Tree, es: seq<Entry>)
    ensures InStream([es]) == es && InPhases([es]) == Phases(es)
    ensures ApplyLayers(t, [es]) == ApplyAll(t, es) && ImageMeaning(t, [es]) == TwoPhase(t, es)
  {
    var one := [es];
    assert one[..0] == [];
    Seqs.Unit(es);
    Seqs.Unit(Phases(es));
  }

  // ---- layers whose whiteouts come first

  // No whiteout comes after an entry that it hides.
  ghost predicate WhiteoutsLead(es: seq<Entry>) {
    forall i, j :: 0 <= i < j < |es| && !IsWhiteout(es[i]) ==> !Hides(es[j], Rel(es[i]))
  }

  lemma {:induction false} LaidBySome(es: seq<Entry>, q: Path) returns (i: nat)
    requires AllLinkFree(es) && Marked(es, q).Laid?
    ensures i < |es| && !IsWhiteout(es[i]) && q <= Rel(es[i])
    decreases |es|
  {
    if MarkBy(es[|es| - 1], q).Untouched? {
      i := LaidBySome(es[..|es| - 1], q);
    } else {
      i := |es| - 1;
    }
  }

  lemma {:induction false} LeadingMarks(es: seq<Entry>, q: Path)
    requires AllLinkFree(es) && WhiteoutsLead(es)
    ensures AllLinkFree(Plain(es)) && (Marked(Plain(es), q).Laid? ==> Marked(es, q) == Marked(Plain(es), q))
    decreases |es|
  {
    PhasesLinkFree(es);
    if es != [] {
      var init, e := es[..|es| - 1], es[|es| - 1];
      Seqs.Split(es);
      LeadingMarks(init, q);
      if IsWhiteout(e) {
        Seqs.Unit(Plain(init));
        if Marked(Plain(init), q).Laid? && Hides(e, q) {
          var i := LaidBySome(init, q);
          HidesBelow(e, q, Rel(es[i]));
        }
      } else {
        MarkedOne(Plain(init), e, q);
      }
    }
  }

  // In such a layer an entry's way that is open in stream order is open in the
  // order of the specification.
  lemma LeadingOpen(t: Tree, es: seq<Entry>, x: Entry, ws: seq<Entry>)
    requires WellFormed(t) && AllLinkFree(es) && WhiteoutsLead(es) && LinkFree(x) && Takes(x)
    requires SpecAll(t, es).Done? && ApplyEntry(SpecAll(t, es).tree, x).Done?
    requires AllLinkFree(ws + Plain(es)) && forall w :: w in ws ==> IsWhiteout(w)
    ensures LeavesOpen(ws + Plain(es), Rel(x))
  {
    TakenDone(SpecAll(t, es).tree, x);
    OpenIsLeftOpen(t, es, Rel(x));
    forall i | 0 < i < |Rel(x)| ensures !Bars(ws + Plain(es), Rel(x)[..i]) {
      OnlyPlainLays(ws, Plain(es), Rel(x)[..i]);
      LeadingMarks(es, Rel(x)[..i]);
      assert !Bars(es, Rel(x)[..i]);
    }
  }

  lemma OnlyPlainLays(ws: seq<Entry>, xs: seq<Entry>, q: Path)
    requires AllLinkFree(ws + xs) && forall w :: w in ws ==> IsWhiteout(w)
    ensures AllLinkFree(xs) && (Marked(ws + xs, q).Laid? ==> Marked(ws + xs, q) == Marked(xs, q))
  {
    assert forall e :: e in ws || e in xs ==> e in ws + xs;
    MarkedConcat(ws, xs, q);
    if Marked(ws, q).Laid? {
      var i := LaidBySome(ws, q);
      assert false;
    }
  }

  lemma {:induction false} LeadingPassable(t: Tree, es: seq<Entry>, ws: seq<Entry>)
    requires WellFormed(t) && AllLinkFree(es) && WhiteoutsLead(es) && ApplyAll(t, es).Done?
    requires AllLinkFree(ws + Plain(es)) && forall w :: w in ws ==> IsWhiteout(w)
    ensures Passable(ws + Plain(es))
    decreases |es|
  {
    if es == [] {
      Seqs.Unit(ws);
      WhiteoutsPassable(ws);
    } else {
      var init, x := es[..|es| - 1], es[|es| - 1];
      Seqs.Split(es);
      LeadingInit(es);
      Seqs.Assoc(ws, Plain(init), if IsWhiteout(x) then [] else [x]);
      Seqs.Unit(ws + Plain(init));
      assert forall e :: e in ws + Plain(init) ==> e in ws + Plain(es);
      LeadingPassable(t, init, ws);
      if !IsWhiteout(x) {
        StreamIsSpec(t, init);
        if Takes(x) {
          LeadingOpen(t, init, x, ws);
        }
        PassableOne(ws + Plain(init), x);
      }
    }
  }

  lemma PassableOne(es: seq<Entry>, x: Entry)
    requires AllLinkFree(es) && LinkFree(x)
    ensures AllLinkFree(es + [x])
    ensures Passable(es + [x]) <==> Passable(es) && (Takes(x) ==> LeavesOpen(es, Rel(x)))
  {
    Seqs.Front(es, x);
  }

  lemma LeadingInit(es: seq<Entry>)
    requires AllLinkFree(es) && WhiteoutsLead(es) && es != []
    ensures LinkFree(es[|es| - 1]) && AllLinkFree(es[..|es| - 1]) && WhiteoutsLead(es[..|es| - 1])
  {
  }

  lemma {:induction false} WhiteoutsPassable(ws: seq<Entry>)
    requires AllLinkFree(ws) && forall w :: w in ws ==> IsWhiteout(w)
    ensures Passable(ws)
    decreases |ws|
  {
    if ws != [] {
      assert ws[|ws| - 1] in ws;
      WhiteoutsPassable(ws[..|ws| - 1]);
    }
  }

  // A layer without hard links, in which no whiteout comes after an entry it
  // hides: applied in stream order, if that goes through, it gives the tree
  // the specification gives, whiteouts first and the other entries on top.
  lemma LayerRefinement(t: Tree, es: seq<Entry>)
    requires WellFormed(t) && AllLinkFree(es) && WhiteoutsLead(es) && ApplyAll(t, es).Done?
    ensures TwoPhase(t, es) == ApplyAll(t, es)
  {
    LayerIff(t, es);
    Parts(es);
    LeadingPassable(t, es, Whiteouts(es));
    forall q | q != [] && Marked(Plain(es), q).Laid? ensures Marked(es, q).Laid? {
      LeadingMarks(es, q);
    }
  }

  // And so, layer by layer, for a whole image.
  lemma {:induction false} ImageRefinement(t: Tree, layers: seq<seq<Entry>>)
    requires WellFormed(t) && LinkFreeImage(layers) && ApplyLayers(t, layers).Done?
    requires forall es :: es in layers ==> WhiteoutsLead(es)
    ensures ImageMeaning(t, layers) == ApplyLayers(t, layers)
    decreases |layers|
  {
    if layers != [] {
      var rest, es := layers[..|layers| - 1], layers[|layers| - 1];
      ImageRefinement(t, rest);
      WellFormedLayers(t, rest);
      assert es in layers;
      LayerRefinement(ApplyLayers(t, rest).tree, es);
    }
  }

  // ---- a layer on which they differ

  // A layer may even whiteout its own file: by the specification the file is
  // there, in stream order it is not.
  lemma OwnFileWhitedOut(file: Entry, w: Entry)
    requires file == Entry(["a"], AFile([], true)) && w == Entry([".wh.a"], AFile([], true))
    ensures TwoPhase(map[], [file, w]) == Done(map[["a"] := File([])])
    ensures ApplyAll(map[], [file, w]) == Done(map[])
  {
    OwnFileFacts(file, w);
    OwnFileSteps(file.kind);
    ApplyAllOne(map[], [], file);
    ApplyAllOne(map[], [file], w);
    assert [] + [file] == [file] && [file] + [w] == [file, w];
    PlainOne([], file);
    PlainOne([file], w);
    assert Hidden(map[], Whiteouts([file, w])) == map[];
  }

  // And by the specification its own file may be in the way of what it puts
  // there next, where in stream order the whiteout has made room.
  lemma OwnFileInTheWay(file: Entry, w: Entry, x: Entry)
    requires file == Entry(["a"], AFile([], true)) && w == Entry([".wh.a"], AFile([], true))
    requires x == Entry(["a", "b"], AFile([], true))
    ensures !TwoPhase(map[], [file, w, x]).Done?
    ensures ApplyAll(map[], [file, w, x]).Done?
  {
    OwnFileWhitedOut(file, w);
    OwnFileFacts(file, w);
    BelowFacts(x);
    var es := [file, w];
    assert es + [x] == [file, w, x];
    ApplyAllOne(map[], es, x);
    PlainOne(es, x);
    WhiteoutsOne(es, x);
    ApplyAllOne(Hidden(map[], Whiteouts(es)), Plain(es), x);
  }

  lemma WhiteoutsOne(es: seq<Entry>, e: Entry)
    ensures Whiteouts(es + [e]) == Whiteouts(es) + if IsWhiteout(e) then [e] else []
  {
    Seqs.Front(es, e);
  }

  lemma BelowFacts(x: Entry)
    requires x == Entry(["a", "b"], AFile([], true))
    ensures !ApplyEntry(map[["a"] := File([])], x).Done? && ApplyEntry(map[], x).Done?
    ensures !IsWhiteout(x)
  {
    BelowIsTaken(x);
    BelowWay(map[["a"] := File([])]);
    BelowWay(map[]);
    TakenDone(map[["a"] := File([])], x);
    TakenDone(map[], x);
  }

  lemma BelowWay(t: Tree)
    ensures Parent(["a", "b"]) == ["a"]
    ensures WayTo(t, ["a"]) == if ["a"] !in t then Absent else if t[["a"]].Dir? then Open else Blocked(t[["a"]])
  {
    assert Parent(["a"]) == [];
  }

  lemma BelowIsTaken(x: Entry)
    requires x == Entry(["a", "b"], AFile([], true))
    ensures Rel(x) == ["a", "b"] && Takes(x) && !IsWhiteout(x)
  {
    CleanAB();
    assert Base(["a", "b"]) == "b" && |"b"| == 1 && |WHITEOUT_PREFIX| == 4;
    assert PEEL[0] != "a" && SBIN[0] != "a" && INIT[0] != "a";
  }

  lemma CleanAB()
    ensures Clean(["a", "b"]) == ["a", "b"]
  {
    assert Parent(["a", "b"]) == ["a"] && Parent(["a"]) == [] && Base(["a", "b"]) == "b" && Base(["a"]) == "a";
    assert Clean(["a"]) == [] + ["a"] == ["a"];
    assert ["a"] + ["b"] == ["a", "b"];
  }

  lemma PlainOne(es: seq<Entry>, e: Entry)
    ensures Plain(es + [e]) == Plain(es) + if IsWhiteout(e) then [] else [e]
  {
    assert (es + [e])[..|es|] == es;
  }

  lemma OwnFileSteps(kind: Kind)
    requires kind == AFile([], true)
    ensures ExtractEntry(map[], ["a"], kind) == Done(map[["a"] := File([])])
    ensures RemoveAll(map[["a"] := File([])], ["a"]) == Done(map[])
  {
    assert Parent(["a"]) == [];
    assert WithDirs(map[], []) == map[];
    assert Pruned(map[["a"] := File([])], ["a"]) == map[];
  }

  lemma OwnFileFacts(file: Entry, w: Entry)
    requires file == Entry(["a"], AFile([], true)) && w == Entry([".wh.a"], AFile([], true))
    ensures Rel(file) == ["a"] && !IsWhiteout(file) && !IsOpaque(file)
    ensures Rel(w) == [".wh.a"] && IsWhiteout(w) && !IsOpaque(w) && Deleted(w) == ["a"]
    ensures !Protected(["a"]) && !MustRemain(["a"])
  {
    assert Parent(["a"]) == [] && Parent([".wh.a"]) == [];
    assert Base(["a"]) == "a" && Base([".wh.a"]) == ".wh.a";
    assert |".wh..wh..opq"| == 12 && |".wh.a"| == 5 && |".wh."| == 4 && |"a"| == 1;
    assert ".wh.a"[4..] == "a";
    assert [] + ["a"] == ["a"];
    assert "peel"[0] != "a"[0] && "sbin"[0] != "a"[0];
    assert PEEL[0] != "a" && SBIN[0] != "a" && |INIT| == 2;
  }
}
