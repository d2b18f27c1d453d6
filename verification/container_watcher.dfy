// The client's watcher of one container, as the program runs it.
module ContainerWatching {
  import opened Listens
  import opened Stream
  import opened Ports

  datatype Change = Open(key: PortKey) | Close(key: PortKey)

  // Something handed to the rest of the client: the ports given to the
  // startup callback, or a slice of changes sent on outCh.
  datatype Handed = Called(ports: seq<PortKey>) | Sent(changes: seq<Change>)

  function OpenKeys(changes: seq<Change>): set<PortKey> {
    set c | c in changes && c.Open? :: c.key
  }

  function CloseKeys(changes: seq<Change>): set<PortKey> {
    set c | c in changes && c.Close? :: c.key
  }

  function AsOut(h: Handed): Out {
    match h
    case Called(ports) => Startup(set k | k in ports)
    case Sent(changes) => Emit(Batch(OpenKeys(changes), CloseKeys(changes)))
  }

  function AsOuts(hs: seq<Handed>): (outs: seq<Out>)
    ensures |outs| == |hs|
  {
    seq(|hs|, i requires 0 <= i < |hs| => AsOut(hs[i]))
  }

  ghost predicate NoRepeats<T(!new)>(s: seq<T>) {
    forall i, j :: 0 <= i < j < |s| ==> s[i] != s[j]
  }

  // The changes are the opening of these ports and the closing of those.
  ghost predicate Says(changes: seq<Change>, opens: set<PortKey>, closes: set<PortKey>) {
    forall k :: (Open(k) in changes <==> k in opens) && (Close(k) in changes <==> k in closes)
  }

  // No port is listed twice and no change made twice in one go.
  ghost predicate Tidy(hs: seq<Handed>) {
    forall h :: h in hs ==>
      match h case Called(ports) => NoRepeats(ports) case Sent(changes) => changes != [] && NoRepeats(changes)
  }

  class ContainerWatcher {
    var portCounts: map<PortKey, int>
    var handed: seq<Handed>

    constructor ()
      ensures portCounts == map[] && handed == []
    {
      portCounts, handed := map[], [];
    }

    method Emit(changes: seq<Change>)
      requires changes != [] && NoRepeats(changes)
      modifies this`handed
      ensures handed == old(handed) + [Sent(changes)]
      ensures AsOuts(handed) == AsOuts(old(handed)) + [AsOut(Sent(changes))]
      ensures old(Tidy(handed)) ==> Tidy(handed)
    {
      handed := handed + [Sent(changes)];
    }

    method Callback(ports: seq<PortKey>)
      requires NoRepeats(ports)
      modifies this`handed
      ensures handed == old(handed) + [Called(ports)]
      ensures AsOuts(handed) == AsOuts(old(handed)) + [AsOut(Called(ports))]
      ensures old(Tidy(handed)) ==> Tidy(handed)
    {
      handed := handed + [Called(ports)];
    }

    // One connection: it delivers evs and ends. startup says whether there is
    // a callback. A connection that fails outright is one that delivers nothing.
    method WatchOnce(evs: seq<Event>, startup: bool)
      modifies this
      ensures portCounts == Watch(old(portCounts), startup, evs).0
      ensures AsOuts(handed) == AsOuts(old(handed)) + Watch(old(portCounts), startup, evs).1
      ensures old(Tidy(handed)) ==> Tidy(handed)
    {
      var incoming: set<Listen>, synced, cbFired := {}, false, false;
      ghost var c0 := Fresh(portCounts);
      ghost var outs0, outs := AsOuts(handed), [];
      assert outs0 + outs == outs0;
      for i := 0 to |evs|
        invariant (Conn(portCounts, incoming, synced, cbFired), outs) == OnEvents(startup, c0, evs[..i])
        invariant AsOuts(handed) == outs0 + outs
        invariant old(Tidy(handed)) ==> Tidy(handed)
      {
        ghost var c := Conn(portCounts, incoming, synced, cbFired);
        incoming, synced, cbFired := HandleLine(evs[i], startup, incoming, synced, cbFired);
        OnEventsOne(startup, c0, evs[..i], evs[i]);
        assert evs[..i + 1] == evs[..i] + [evs[i]];
        assert outs0 + outs + OnEvent(startup, c, evs[i]).1 == outs0 + (outs + OnEvent(startup, c, evs[i]).1);
        outs := outs + OnEvent(startup, c, evs[i]).1;
      }
      assert evs[..|evs|] == evs;
      if startup && !cbFired {
        Callback([]);
        assert AsOut(Called([])) == Startup({});
      }
    }

    // The body of the loop over the stream's lines.
    method HandleLine(e: Event, startup: bool, incoming0: set<Listen>, synced0: bool, cbFired0: bool)
      returns (incoming: set<Listen>, synced: bool, cbFired: bool)
      modifies this
      ensures Conn(portCounts, incoming, synced, cbFired) ==
              OnEvent(startup, Conn(old(portCounts), incoming0, synced0, cbFired0), e).0
      ensures AsOuts(handed) ==
              AsOuts(old(handed)) + OnEvent(startup, Conn(old(portCounts), incoming0, synced0, cbFired0), e).1
      ensures old(Tidy(handed)) ==> Tidy(handed)
      ensures e.Sync? ==> synced && portCounts == CountMap(incoming0)
    {
      incoming, synced, cbFired := incoming0, synced0, cbFired0;
      match e
      case Add(l) =>
        if !synced {
          incoming := incoming + {l};
        } else {
          Added(PortKey(l.stack, l.port));
        }
      case Remove(l) =>
        if !synced {
          incoming := incoming - {l};
        } else {
          Removed(PortKey(l.stack, l.port));
        }
      case Sync =>
        synced := true;
        var oldCounts := portCounts;
        portCounts := CountListens(incoming);
        if !startup {
          Reconcile(oldCounts);
        } else if !cbFired {
          cbFired := true;
          var ports := Keys(portCounts);
          Callback(ports);
          assert (set k | k in ports) == portCounts.Keys;
        }
      case Skipped =>
    }

    method Added(k: PortKey)
      modifies this
      ensures portCounts == Raise(old(portCounts), k)
      ensures forall j :: Count(portCounts, j) == Count(old(portCounts), j) + if j == k then 1 else 0
      ensures handed == old(handed) + if Count(old(portCounts), k) == 0 then [Sent([Open(k)])] else []
      ensures AsOuts(handed) ==
              AsOuts(old(handed)) + if Count(old(portCounts), k) == 0 then [Out.Emit(Batch({k}, {}))] else []
      ensures old(Tidy(handed)) ==> Tidy(handed)
    {
      var prev := Count(portCounts, k);
      portCounts := portCounts[k := prev + 1];
      if prev == 0 {
        SingleChange(Open(k));
        Emit([Open(k)]);
      }
    }

    method Removed(k: PortKey)
      modifies this
      ensures portCounts == Lower(old(portCounts), k)
      ensures forall j :: j != k ==> Count(portCounts, j) == Count(old(portCounts), j)
      ensures if Count(old(portCounts), k) <= 1 then k !in portCounts
              else Count(portCounts, k) == Count(old(portCounts), k) - 1
      ensures handed == old(handed) + if Count(old(portCounts), k) <= 1 then [Sent([Close(k)])] else []
      ensures AsOuts(handed) ==
              AsOuts(old(handed)) + if Count(old(portCounts), k) <= 1 then [Out.Emit(Batch({}, {k}))] else []
      ensures old(Tidy(handed)) ==> Tidy(handed)
    {
      var n := Count(portCounts, k) - 1;
      portCounts := portCounts[k := n];
      if n <= 0 {
        portCounts := portCounts - {k};
        n := 0;
      }
      if n == 0 {
        SingleChange(Close(k));
        Emit([Close(k)]);
      }
    }

    // After a reconnect: tell what changed while disconnected.
    method Reconcile(oldCounts: map<PortKey, int>)
      modifies this`handed
      ensures AsOuts(handed) == AsOuts(old(handed)) + EmitIf(Diff(oldCounts, portCounts))
      ensures old(Tidy(handed)) ==> Tidy(handed)
      ensures exists changes ::
                && handed == old(handed) + (if changes == [] then [] else [Sent(changes)])
                && Says(changes, set k | k in portCounts && Count(oldCounts, k) == 0,
                                 set k | k in oldCounts && Count(portCounts, k) == 0)
    {
      var d := Diff(oldCounts, portCounts);
      var changes: seq<Change> := [];
      var todo := portCounts.Keys;
      while todo != {}
        invariant todo <= portCounts.Keys
        invariant forall c :: c in changes <==>
                  c.Open? && c.key in portCounts.Keys - todo && Count(oldCounts, c.key) == 0
        invariant NoRepeats(changes)
      {
        var k :| k in todo;
        todo := todo - {k};
        if Count(oldCounts, k) == 0 {
          assert Open(k) !in changes;
          changes := changes + [Open(k)];
        }
      }
      assert forall c :: c in changes <==> c.Open? && c.key in d.opens;
      todo := oldCounts.Keys;
      while todo != {}
        invariant todo <= oldCounts.Keys
        invariant forall c :: c in changes <==>
                    || (c.Open? && c.key in d.opens)
                    || (c.Close? && c.key in oldCounts.Keys - todo && Count(portCounts, c.key) == 0)
        invariant NoRepeats(changes)
      {
        var k :| k in todo;
        todo := todo - {k};
        if Count(portCounts, k) == 0 {
          assert Close(k) !in changes;
          changes := changes + [Close(k)];
        }
      }
      assert forall c :: c in changes <==> (c.Open? && c.key in d.opens) || (c.Close? && c.key in d.closes);
      assert Says(changes, d.opens, d.closes);
      ChangesOf(changes, d);
      if |changes| > 0 {
        Emit(changes);
      }
    }

    // What run does on its way out.
    method CloseAll()
      modifies this
      ensures portCounts == map[]
      ensures if old(portCounts) == map[] then handed == old(handed)
              else exists changes :: handed == old(handed) + [Sent(changes)] && Says(changes, {}, old(portCounts).Keys)
      ensures AsOuts(handed) ==
              AsOuts(old(handed))
              + if old(portCounts) == map[] then [] else [Out.Emit(Batch({}, old(portCounts).Keys))]
      ensures old(Tidy(handed)) ==> Tidy(handed)
    {
      var counts := portCounts;
      portCounts := map[];
      if |counts| > 0 {
        var changes: seq<Change> := [];
        var todo := counts.Keys;
        while todo != {}
          invariant todo <= counts.Keys
          invariant forall c :: c in changes <==> c.Close? && c.key in counts.Keys - todo
          invariant NoRepeats(changes)
        {
          var k :| k in todo;
          todo := todo - {k};
          assert Close(k) !in changes;
          changes := changes + [Close(k)];
        }
        assert Says(changes, {}, counts.Keys);
        ChangesOf(changes, Batch({}, counts.Keys));
        Emit(changes);
      }
    }

    // The connections a watcher makes until it is told to stop; the callback
    // goes to the first.
    method Run(conns: seq<seq<Event>>, startup: bool)
      requires portCounts == map[] && handed == []
      modifies this
      ensures AsOuts(handed) == Lifetime(startup, conns)
      ensures portCounts == map[] && Tidy(handed)
      ensures AllWellFed(conns) ==>
                AsOuts(handed) ==
                WatchAll(map[], startup, conns).1
                + if Held(conns) == {} then [] else [Out.Emit(Batch({}, Image(Held(conns))))]
    {
      var cb := startup;
      for i := 0 to |conns|
        invariant cb == (startup && i == 0)
        invariant (portCounts, AsOuts(handed)) == WatchAll(map[], startup, conns[..i])
        invariant Tidy(handed)
      {
        WatchOnce(conns[i], cb);
        cb := false;
        assert conns[..i + 1][..i] == conns[..i];
      }
      assert conns[..|conns|] == conns;
      CloseAll();
      if AllWellFed(conns) {
        LifetimeEnds(startup, conns);
      }
    }
  }

  method CountListens(ls: set<Listen>) returns (counts: map<PortKey, int>)
    ensures counts == CountMap(ls)
    ensures forall stack, port ::
              Count(counts, PortKey(stack, port)) == |set l | l in ls && l.stack == stack && l.port == port|
  {
    counts := map[];
    var done: set<Listen>, todo := {}, ls;
    assert Image({}) == {};
    while todo != {}
      invariant done !! todo && done + todo == ls
      invariant counts == CountMap(done)
    {
      var l :| l in todo;
      RaiseCounts(done, l);
      counts := counts[Key(l) := Count(counts, Key(l)) + 1];
      done, todo := done + {l}, todo - {l};
    }
    assert done == ls;
    forall stack, port
      ensures Count(counts, PortKey(stack, port)) == |set l | l in ls && l.stack == stack && l.port == port|
    {
      CountIs(ls, stack, port);
    }
  }

  method Keys(counts: map<PortKey, int>) returns (ports: seq<PortKey>)
    ensures NoRepeats(ports) && forall k :: k in ports <==> k in counts
  {
    ports := [];
    var todo := counts.Keys;
    while todo != {}
      invariant todo <= counts.Keys
      invariant NoRepeats(ports) && forall k :: k in ports <==> k in counts.Keys - todo
    {
      var k :| k in todo;
      todo := todo - {k};
      assert k !in ports;
      ports := ports + [k];
    }
  }

  lemma SingleChange(c: Change)
    ensures AsOut(Sent([c])) == Out.Emit(if c.Open? then Batch({c.key}, {}) else Batch({}, {c.key}))
  {
    assert c in [c];
    ChangesOf([c], if c.Open? then Batch({c.key}, {}) else Batch({}, {c.key}));
  }

  lemma ChangesOf(changes: seq<Change>, b: Batch)
    requires forall c :: c in changes <==> (c.Open? && c.key in b.opens) || (c.Close? && c.key in b.closes)
    ensures AsOut(Sent(changes)) == Out.Emit(b)
    ensures changes == [] <==> b == Batch({}, {})
  {
    forall k ensures (k in OpenKeys(changes) <==> k in b.opens) && (k in CloseKeys(changes) <==> k in b.closes) {
      assert Open(k) in changes <==> k in b.opens;
      assert Close(k) in changes <==> k in b.closes;
    }
    if changes != [] {
      assert changes[0] in changes;
    }
  }
}
