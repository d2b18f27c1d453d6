// What each entry does, told by its name alone and path by path.
module LayerNames {
  import opened Bytes
  import opened Layers
  import opened LayerLinks
  import opened LayerMarks
  import opened LayerSafety
  import Seqs
  import opened Wrappers

  // ---- entries that are no whiteouts

  // Exactly three kinds of them are turned away: sbin/init, peel and all below
  // it, and sbin as anything but a directory. All others are extracted.
  lemma PlainEntryIs(t: Tree, e: Entry)
    requires e.Entry? && Rel(e) != [] && !(".wh." <= Base(Rel(e)))
    ensures ApplyEntry(t, e) ==
            if Rel(e) == ["sbin", "init"] || Rel(e)[0] == "peel" || (Rel(e) == ["sbin"] && !e.kind.ADir?) then Done(t)
            else ExtractEntry(t, Rel(e), e.kind)
  {
    NamesProtected(Rel(e));
    if IsOpaque(e) {
      OpaqueIsWhiteout(e);
    }
  }

  lemma NamesProtected(p: Path)
    ensures Protected(p) <==> p == ["sbin", "init"] || (p != [] && p[0] == "peel")
    ensures MustRemain(p) <==> p == ["sbin"] || p == ["peel"]
  {
  }

  // Nothing but directories on the way to p.
  predicate OnlyDirsAbove(t: Tree, p: Path) {
    forall i :: 0 < i < |p| && p[..i] in t ==> t[p[..i]].Dir?
  }

  lemma WayIsOpen(t: Tree, p: Path)
    requires WellFormed(t) && p != []
    ensures OnlyDirsAbove(t, p) <==> !WayTo(t, Parent(p)).Blocked?
  {
    if WayTo(t, Parent(p)).Blocked? {
      var i := BlockedAt(t, Parent(p));
      assert Parent(p)[..i] == p[..i];
    } else {
      forall i | 0 < i < |p| && p[..i] in t ensures t[p[..i]].Dir? {
        assert Parent(p)[..i] == p[..i];
        ClearWay(t, Parent(p), i);
      }
    }
  }

  // An entry that is extracted goes through if and only if nothing but
  // directories is on its way and its content could be had or it could be made.
  lemma PlainEntryDone(t: Tree, e: Entry)
    requires WellFormed(t) && e.Entry? && Rel(e) != [] && !(".wh." <= Base(Rel(e))) && !e.kind.ALink?
    requires Rel(e) != ["sbin", "init"] && Rel(e)[0] != "peel" && (Rel(e) == ["sbin"] ==> e.kind.ADir?)
    ensures ApplyEntry(t, e).Done? <==>
            OnlyDirsAbove(t, Rel(e)) && (e.kind.AFile? ==> e.kind.complete) && (e.kind.ASpecial? ==> e.kind.created)
  {
    NamesProtected(Rel(e));
    WayIsOpen(t, Rel(e));
    TakenDone(t, e);
  }

  // A hard link goes through if and only if there is something other than a
  // directory to link to, that does not itself make way for the link.
  lemma HardLinkDone(t: Tree, e: Entry)
    requires WellFormed(t) && e.Entry? && Rel(e) != [] && !(".wh." <= Base(Rel(e))) && e.kind.ALink?
    requires Rel(e) != ["sbin", "init"] && Rel(e)[0] != "peel" && Rel(e) != ["sbin"]
    ensures var src := Clean(e.kind.link);
            ApplyEntry(t, e).Done? <==>
            OnlyDirsAbove(t, Rel(e)) && src in t && !t[src].Dir? && !(Rel(e) <= src)
  {
    var rel, src := Rel(e), Clean(e.kind.link);
    PlainEntryIs(t, e);
    WayIsOpen(t, rel);
    if !WayTo(t, Parent(rel)).Blocked? && src != [] {
      WellFormedRoomMade(t, rel, e.kind);
      SourceInRoom(t, rel, e.kind, src);
      LinkableIff(MadeRoom(WithDirs(t, Parent(rel)), rel, e.kind), src);
    }
  }

  predicate Linkable(t: Tree, src: Path) {
    src in t && !t[src].Dir?
  }

  lemma LinkableIff(t: Tree, src: Path)
    requires WellFormed(t) && src != []
    ensures Linkable(t, src) <==> !WayTo(t, Parent(src)).Blocked? && Linkable(t, src)
  {
    OpenWay(t, Parent(src));
  }

  lemma SourceInRoom(t: Tree, rel: Path, kind: Kind, src: Path)
    requires WellFormed(t) && rel != [] && !kind.ADir? && !WayTo(t, Parent(rel)).Blocked? && src != []
    ensures Linkable(MadeRoom(WithDirs(t, Parent(rel)), rel, kind), src) <==> Linkable(t, src) && !(rel <= src)
  {
    RoomLook(t, rel, kind, src);
    if src in t && src <= Parent(rel) {
      assert Parent(rel)[..|src|] == src;
      ClearWay(t, Parent(rel), |src|);
    }
  }

  // And then it is there as it says, and nothing else has changed but what had
  // to make way for it.
  lemma PlainEntryAt(t: Tree, e: Entry, q: Path)
    requires WellFormed(t) && e.Entry? && Rel(e) != [] && !(".wh." <= Base(Rel(e)))
    requires Rel(e) != ["sbin", "init"] && Rel(e)[0] != "peel" && (Rel(e) == ["sbin"] ==> e.kind.ADir?)
    requires ApplyEntry(t, e).Done?
    ensures Look(ApplyEntry(t, e).tree, q) ==
            if q == Rel(e) then
              match e.kind
              case ADir => Some(Dir)
              case AFile(content, _) => Some(File(content))
              case ASymlink(target) => Some(Symlink(target))
              case ALink(link) => Look(t, Clean(link))
              case ASpecial(kind, _) => Some(Special(kind))
              case Ignored => None
            else if Rel(e) <= q then (if e.kind.ADir? then Look(t, q) else None)
            else if q <= Rel(e) then Some(Dir)
            else Look(t, q)
  {
    PlainEntryIs(t, e);
    ExtractAt(t, Rel(e), e.kind, q);
    if Rel(e) < q && Look(t, Rel(e)) != Some(Dir) {
      NothingBelow(t, Rel(e), q);
    }
  }

  // A file whose content breaks off leaves what could be read of it; a device
  // or fifo that cannot be made leaves the room made for it. Both end the layer.
  lemma BrokenEntry(t: Tree, name: seq<string>, content: seq<byte>, kind: string)
    requires Clean(name) != [] && !(".wh." <= Base(Clean(name)))
    requires Clean(name) != ["sbin", "init"] && Clean(name)[0] != "peel" && Clean(name) != ["sbin"]
    ensures ApplyEntry(t, Entry(name, AFile(content, true))).Done? ==>
              ApplyEntry(t, Entry(name, AFile(content, false))) ==
              Failed(ApplyEntry(t, Entry(name, AFile(content, true))).tree)
    ensures ApplyEntry(t, Entry(name, Ignored)).Done? ==>
              ApplyEntry(t, Entry(name, ASpecial(kind, false))) == Failed(ApplyEntry(t, Entry(name, Ignored)).tree)
  {
    PlainEntryIs(t, Entry(name, AFile(content, true)));
    PlainEntryIs(t, Entry(name, AFile(content, false)));
    PlainEntryIs(t, Entry(name, Ignored));
    PlainEntryIs(t, Entry(name, ASpecial(kind, false)));
  }

  // ---- whiteouts

  lemma WhiteoutTarget(e: Entry, p: Path, n: string)
    requires Rel(e) == p + [".wh." + n]
    ensures IsWhiteout(e)
    ensures Deleted(e) == if PlainPart(n) then p + [n] else if n == ".." && p != [] then Parent(p) else p
  {
    assert Parent(Rel(e)) == p && Base(Rel(e)) == ".wh." + n && |".wh."| == 4;
    assert (".wh." + n)[4..] == n;
    RelIsPlain(e);
    assert PlainParts(p) by {
      assert forall c :: c in p ==> c in Rel(e);
    }
    CleanOfPlain(p);
    CleanStep(p, n);
  }

  lemma RelIsPlain(e: Entry)
    ensures PlainParts(Rel(e))
  {
    if e.Entry? {
      CleanIsPlain(e.name);
    }
  }

  // A whiteout of p/n removes that and all below it and nothing else, unless it
  // is of sbin, sbin/init, peel or something below peel: then nothing at all.
  lemma NamedWhiteout(t: Tree, e: Entry, p: Path, n: string, q: Path)
    requires WellFormed(t) && Rel(e) == p + [".wh." + n] && PlainPart(n) && n != ".wh..opq"
    ensures var d := p + [n];
            if d == ["sbin"] || d == ["sbin", "init"] || d[0] == "peel" then ApplyEntry(t, e) == Done(t)
            else
              && (ApplyEntry(t, e).Done? <==> OnlyDirsAbove(t, d))
              && (ApplyEntry(t, e).Done? ==>
                    Look(ApplyEntry(t, e).tree, q) == if d <= q then None else Look(t, q))
  {
    var d := p + [n];
    WhiteoutTarget(e, p, n);
    NotTheOpaqueName(n);
    assert Base(Rel(e)) == ".wh." + n;
    assert !IsOpaque(e);
    NamesProtected(d);
    WayIsOpen(t, d);
  }

  lemma NotTheOpaqueName(n: string)
    ensures ".wh." + n == ".wh..wh..opq" <==> n == ".wh..opq"
  {
    assert |".wh."| == 4;
    assert (".wh." + n)[4..] == n && ".wh..wh..opq"[4..] == ".wh..opq";
  }

  // An opaque whiteout of d removes every child of d, with all below it, but
  // for sbin/init and peel; in those two themselves it does nothing.
  lemma OpaqueWhiteout(t: Tree, e: Entry, d: Path, q: Path)
    requires WellFormed(t) && Rel(e) == d + [".wh..wh..opq"]
    ensures if d == ["sbin", "init"] || (d != [] && d[0] == "peel") then ApplyEntry(t, e) == Done(t)
            else
              && (ApplyEntry(t, e).Done? <==> forall i :: 0 < i <= |d| && d[..i] in t ==> t[d[..i]].Dir?)
              && (ApplyEntry(t, e).Done? ==>
                    Look(ApplyEntry(t, e).tree, q) ==
                    if d < q && q[..|d| + 1] != ["sbin", "init"] && q[0] != "peel" then None else Look(t, q))
  {
    assert Parent(Rel(e)) == d && Base(Rel(e)) == ".wh..wh..opq" && IsOpaque(e);
    NamesProtected(d);
    ClearedWay(t, d);
    if d < q {
      NamesProtected(q[..|d| + 1]);
    }
    if !Protected(d) && ApplyEntry(t, e).Done? {
      ClearedAt(t, d, q);
    }
  }

  lemma ClearedWay(t: Tree, d: Path)
    requires WellFormed(t)
    ensures (forall i :: 0 < i <= |d| && d[..i] in t ==> t[d[..i]].Dir?) <==> ClearDir(t, d).Done?
  {
    if WayTo(t, d).Blocked? {
      var i := BlockedAt(t, d);
    } else {
      forall i | 0 < i <= |d| && d[..i] in t ensures t[d[..i]].Dir? {
        ClearWay(t, d, i);
      }
    }
  }

  lemma ClearedAt(t: Tree, d: Path, q: Path)
    requires WellFormed(t) && ClearDir(t, d).Done?
    ensures Look(ClearDir(t, d).tree, q) == if d < q && !Protected(q[..|d| + 1]) then None else Look(t, q)
  {
    OpenWay(t, d);
    if d < q && Look(t, d) != Some(Dir) {
      NothingBelow(t, d, q);
    }
  }
}
