// Applying the entries of an image layer to a directory tree.
module Layers {
  import opened Bytes
  import Seqs
  import opened Wrappers

  // Components from the root down; the root itself is [] and always there.
  type Path = seq<string>

  datatype Node = Dir | File(content: seq<byte>) | Symlink(target: string) | Special(kind: string)

  type Tree = map<Path, Node>

  // What a tar entry asks for. complete: its content could be read to the
  // end. created: the kernel let the device or fifo be made.
  datatype Kind =
    | ADir
    | AFile(content: seq<byte>, complete: bool)
    | ASymlink(target: string)
    | ALink(link: seq<string>)
    | ASpecial(kind: string, created: bool)
    | Ignored

  // name: the entry's name, split at its slashes. Corrupt: the stream breaks here.
  datatype Entry = Entry(name: seq<string>, kind: Kind) | Corrupt

  // Unresolved: the entry's path leads through a symbolic link, and what then
  // happens is for the kernel to say.
  datatype Outcome = Done(tree: Tree) | Failed(tree: Tree) | Unresolved(tree: Tree)

  // ---- paths

  function Parent(p: Path): Path
    requires p != []
  {
    p[..|p| - 1]
  }

  function Base(p: Path): string
    requires p != []
  {
    p[|p| - 1]
  }

  // path.Clean of an absolute path.
  function Clean(name: seq<string>): Path {
    if name == [] then []
    else
      var p, c := Clean(Parent(name)), Base(name);
      if c == "" || c == "." then p
      else if c == ".." then (if p == [] then [] else Parent(p))
      else p + [c]
  }

  // A component that stands for itself.
  predicate PlainPart(c: string) {
    c != "" && c != "." && c != ".."
  }

  predicate PlainParts(p: Path) {
    forall c :: c in p ==> PlainPart(c)
  }

  lemma {:induction false} CleanIsPlain(name: seq<string>)
    ensures PlainParts(Clean(name))
    decreases |name|
  {
    if name != [] {
      CleanIsPlain(Parent(name));
    }
  }

  // A path of such components is left as it is.
  lemma {:induction false} CleanOfPlain(p: Path)
    requires PlainParts(p)
    ensures Clean(p) == p
    decreases |p|
  {
    if p != [] {
      assert Base(p) in p;
      CleanOfPlain(Parent(p));
    }
  }

  lemma CleanStep(name: seq<string>, c: string)
    ensures Clean(name + [c]) == if PlainPart(c) then Clean(name) + [c]
                                 else if c == ".." && Clean(name) != [] then Parent(Clean(name)) else Clean(name)
  {
    assert Parent(name + [c]) == name && Base(name + [c]) == c;
  }

  // A path may be cleaned bit by bit.
  lemma {:induction false} CleanBitByBit(a: seq<string>, b: seq<string>)
    ensures Clean(a + b) == Clean(Clean(a) + b)
    decreases |b|
  {
    if b == [] {
      Seqs.Unit(a);
      Seqs.Unit(Clean(a));
      CleanIsPlain(a);
      CleanOfPlain(Clean(a));
    } else {
      var init, c := b[..|b| - 1], b[|b| - 1];
      Seqs.Split(b);
      Seqs.Assoc(a, init, [c]);
      Seqs.Assoc(Clean(a), init, [c]);
      CleanBitByBit(a, init);
      CleanStep(a + init, c);
      CleanStep(Clean(a) + init, c);
    }
  }

  // The rules of path.Clean, wherever in a path they apply: empty components
  // and "." go, ".." goes with the component before it, and at the root alone.
  lemma CleanRules(a: seq<string>, b: seq<string>, c: string)
    requires PlainPart(c)
    ensures Clean(a + [""] + b) == Clean(a + b) && Clean(a + ["."] + b) == Clean(a + b)
    ensures Clean(a + [c] + [".."] + b) == Clean(a + b) && Clean([".."] + b) == Clean(b)
  {
    CleanStep(a, "");
    CleanStep(a, ".");
    CleanStep(a, c);
    CleanStep(a + [c], "..");
    CleanStep([], "..");
    assert Parent(Clean(a) + [c]) == Clean(a);
    Seqs.Unit([".."]);
    Seqs.Unit(b);
    CleanBitByBit(a, b);
    CleanBitByBit(a + [""], b);
    CleanBitByBit(a + ["."], b);
    CleanBitByBit(a + [c] + [".."], b);
    CleanBitByBit([".."], b);
  }

  const WHITEOUT_PREFIX := ".wh."
  const WHITEOUT_OPAQUE := ".wh..wh..opq"
  const SBIN: Path := ["sbin"]
  const INIT: Path := ["sbin", "init"]
  const PEEL: Path := ["peel"]

  predicate Protected(rel: Path) {
    rel == INIT || PEEL <= rel
  }

  predicate MustRemain(rel: Path) {
    rel == SBIN || rel == PEEL
  }

  // ---- the tree

  function Look(t: Tree, p: Path): Option<Node> {
    if p == [] then Some(Dir) else if p in t then Some(t[p]) else None
  }

  ghost predicate WellFormed(t: Tree) {
    [] !in t && forall p :: p in t ==> Look(t, Parent(p)) == Some(Dir)
  }

  datatype Way = Open | Absent | Blocked(node: Node)

  // What is met on the way down to and including directory d.
  function WayTo(t: Tree, d: Path): Way {
    if d == [] then Open
    else
      match WayTo(t, Parent(d))
      case Open => if d !in t then Absent else if t[d].Dir? then Open else Blocked(t[d])
      case w => w
  }

  function Obstructed(t: Tree, n: Node): Outcome {
    if n.Symlink? then Unresolved(t) else Failed(t)
  }

  // os.MkdirAll
  function MkdirAll(t: Tree, d: Path): Outcome {
    match WayTo(t, d)
    case Blocked(n) => Obstructed(t, n)
    case _ => Done(WithDirs(t, d))
  }

  function WithDirs(t: Tree, d: Path): Tree {
    t + map i | 0 < i <= |d| && d[..i] !in t :: d[..i] := Dir
  }

  // os.RemoveAll. The root cannot be removed, but all that is in it goes.
  function RemoveAll(t: Tree, p: Path): Outcome {
    if p == [] then Failed(map[])
    else
      match WayTo(t, Parent(p))
      case Blocked(n) => Obstructed(t, n)
      case _ => Done(Pruned(t, p))
  }

  function Pruned(t: Tree, p: Path): Tree {
    map q | q in t && !(p <= q) :: t[q]
  }

  predicate InClearedChild(d: Path, q: Path) {
    d < q && !Protected(q[..|d| + 1])
  }

  function ClearDir(t: Tree, d: Path): Outcome {
    match WayTo(t, d)
    case Blocked(n) => Obstructed(t, n)
    case Absent => Done(t)
    case Open => Done(map q | q in t && !InClearedChild(d, q) :: t[q])
  }

  function Create(t: Tree, rel: Path, kind: Kind): Outcome {
    match kind
    case ADir => Done(t[rel := Dir])
    case AFile(content, complete) => if complete then Done(t[rel := File(content)]) else Failed(t[rel := File(content)])
    case ASymlink(target) => Done(t[rel := Symlink(target)])
    case ALink(link) =>
      var src := Clean(link);
      if src == [] then Failed(t)
      else
        (match WayTo(t, Parent(src))
         case Blocked(n) => Obstructed(t, n)
         case _ => if src in t && !t[src].Dir? then Done(t[rel := t[src]]) else Failed(t))
    case ASpecial(k, created) => if created then Done(t[rel := Special(k)]) else Failed(t)
    case Ignored => Done(t)
  }

  // What is in the way of the new entry goes, but a directory stays for a directory.
  function MadeRoom(t: Tree, rel: Path, kind: Kind): Tree {
    if rel in t && !(kind.ADir? && t[rel].Dir?) then Pruned(t, rel) else t
  }

  function ExtractEntry(t: Tree, rel: Path, kind: Kind): Outcome
    requires rel != []
  {
    var made := MkdirAll(t, Parent(rel));
    if !made.Done? then made else Create(MadeRoom(made.tree, rel, kind), rel, kind)
  }

  // ---- entries

  function Rel(e: Entry): Path {
    match e case Entry(name, _) => Clean(name) case Corrupt => []
  }

  predicate IsOpaque(e: Entry) {
    Rel(e) != [] && Base(Rel(e)) == WHITEOUT_OPAQUE
  }

  predicate IsWhiteout(e: Entry) {
    Rel(e) != [] && WHITEOUT_PREFIX <= Base(Rel(e))
  }

  // What a whiteout other than an opaque one names.
  function Deleted(e: Entry): Path
    requires IsWhiteout(e)
  {
    Clean(Parent(Rel(e)) + [Base(Rel(e))[|WHITEOUT_PREFIX|..]])
  }

  function ApplyEntry(t: Tree, e: Entry): Outcome {
    if e.Corrupt? then Failed(t)
    else
      var rel := Rel(e);
      if rel == [] then Done(t)
      else if IsOpaque(e) then
        if Protected(Parent(rel)) then Done(t) else ClearDir(t, Parent(rel))
      else if IsWhiteout(e) then
        if Protected(Deleted(e)) || MustRemain(Deleted(e)) then Done(t) else RemoveAll(t, Deleted(e))
      else if Protected(rel) || (MustRemain(rel) && !e.kind.ADir?) then Done(t)
      else ExtractEntry(t, rel, e.kind)
  }

  // A layer stops at the first entry that does not go through.
  function ApplyAll(t: Tree, es: seq<Entry>): Outcome {
    if es == [] then Done(t)
    else
      var r := ApplyAll(t, es[..|es| - 1]);
      if r.Done? then ApplyEntry(r.tree, es[|es| - 1]) else r
  }

  // So does an image.
  function ApplyLayers(t: Tree, layers: seq<seq<Entry>>): Outcome {
    if layers == [] then Done(t)
    else
      var r := ApplyLayers(t, layers[..|layers| - 1]);
      if r.Done? then ApplyAll(r.tree, layers[|layers| - 1]) else r
  }

  lemma ApplyAllOne(t: Tree, es: seq<Entry>, e: Entry)
    ensures ApplyAll(t, es + [e]) ==
            if ApplyAll(t, es).Done? then ApplyEntry(ApplyAll(t, es).tree, e) else ApplyAll(t, es)
  {
    assert (es + [e])[..|es|] == es;
  }

  // The entries of all layers, in the order in which they are applied.
  function InStream(layers: seq<seq<Entry>>): seq<Entry> {
    if layers == [] then [] else InStream(layers[..|layers| - 1]) + layers[|layers| - 1]
  }

  lemma {:induction false} ApplyAllConcat(t: Tree, a: seq<Entry>, b: seq<Entry>)
    ensures ApplyAll(t, a + b) == if ApplyAll(t, a).Done? then ApplyAll(ApplyAll(t, a).tree, b) else ApplyAll(t, a)
    decreases |b|
  {
    if b == [] {
      Seqs.Unit(a);
    } else {
      var init, e := b[..|b| - 1], b[|b| - 1];
      Seqs.Split(b);
      Seqs.Assoc(a, init, [e]);
      ApplyAllConcat(t, a, init);
      ApplyAllOne(t, a + init, e);
    }
  }

  lemma {:induction false} LayersAreStream(t: Tree, layers: seq<seq<Entry>>)
    ensures ApplyLayers(t, layers) == ApplyAll(t, InStream(layers))
    decreases |layers|
  {
    if layers != [] {
      LayersAreStream(t, layers[..|layers| - 1]);
      ApplyAllConcat(t, InStream(layers[..|layers| - 1]), layers[|layers| - 1]);
    }
  }

  // ---- what one entry does, path by path

  lemma {:induction false} OpenWay(t: Tree, d: Path)
    requires WellFormed(t)
    ensures WayTo(t, d) == Open <==> Look(t, d) == Some(Dir)
    ensures WayTo(t, d).Blocked? ==> d !in t || !t[d].Dir?
  {
    if d != [] {
      OpenWay(t, Parent(d));
    }
  }

  lemma {:induction false} ClearWay(t: Tree, d: Path, i: nat)
    requires !WayTo(t, d).Blocked? && 0 < i <= |d|
    ensures d[..i] in t ==> t[d[..i]].Dir? || WayTo(t, d).Absent?
    ensures WellFormed(t) && d[..i] in t ==> t[d[..i]].Dir?
    decreases |d|
  {
    if i == |d| {
      assert d[..i] == d;
      if WellFormed(t) && d in t {
        OpenWay(t, Parent(d));
      }
    } else {
      assert Parent(d)[..i] == d[..i];
      ClearWay(t, Parent(d), i);
    }
  }

  lemma WithDirsAt(t: Tree, d: Path, q: Path)
    requires WellFormed(t) && !WayTo(t, d).Blocked?
    ensures Look(WithDirs(t, d), q) == if q <= d then Some(Dir) else Look(t, q)
  {
    if q != [] && q <= d {
      assert d[..|q|] == q;
      ClearWay(t, d, |q|);
    }
  }

  // The node an entry other than a hard link leaves at its own path.
  function Left(kind: Kind): Option<Node>
    requires !kind.ALink?
  {
    match kind
    case ADir => Some(Dir)
    case AFile(content, _) => Some(File(content))
    case ASymlink(target) => Some(Symlink(target))
    case ASpecial(k, _) => Some(Special(k))
    case Ignored => None
  }

  // Above the entry, directories; at it, what it says, or for a hard link what
  // its target is; below it, what was there if it merges a directory with a
  // directory and else nothing; elsewhere, no change.
  lemma ExtractAt(t: Tree, rel: Path, kind: Kind, q: Path)
    requires WellFormed(t) && rel != [] && ExtractEntry(t, rel, kind).Done?
    ensures Look(ExtractEntry(t, rel, kind).tree, q) ==
            if q == rel then (if kind.ALink? then Look(t, Clean(kind.link)) else Left(kind))
            else if rel <= q then (if kind.ADir? && Look(t, rel) == Some(Dir) then Look(t, q) else None)
            else if q <= rel then Some(Dir)
            else Look(t, q)
  {
    var t1 := WithDirs(t, Parent(rel));
    WithDirsAt(t, Parent(rel), q);
    WithDirsAt(t, Parent(rel), rel);
    assert q <= rel && q != rel ==> q <= Parent(rel);
    if rel <= q && q != rel && Look(t, rel) == None {
      NothingBelow(t, rel, q);
    }
    if kind.ALink? {
      WithDirsAt(t, Parent(rel), Clean(kind.link));
    }
  }

  lemma {:induction false} NothingBelow(t: Tree, p: Path, q: Path)
    requires WellFormed(t) && p < q && Look(t, p) != Some(Dir)
    ensures q !in t
    decreases |q|
  {
    if q in t && p != Parent(q) {
      assert p < Parent(q);
      NothingBelow(t, p, Parent(q));
    }
  }
}
