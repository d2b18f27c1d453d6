// A client's view of one container: reference counts per (stack, port) and
// the open and close edges they give rise to.
module Ports {
  import opened Listens
  import Seqs
  import opened Stream

  // One batch of changes: first the opens, then the closes, each in map order.
  // No key occurs twice in a batch, so the order within it carries nothing.
  datatype Batch = Batch(opens: set<PortKey>, closes: set<PortKey>)

  // What a watcher hands out: its startup callback's argument, or a batch.
  datatype Out = Startup(ports: set<PortKey>) | Emit(batch: Batch)

  // The locals of one connection, together with portCounts.
  datatype Conn = Conn(counts: map<PortKey, int>, incoming: set<Listen>, synced: bool, fired: bool)

  // ---- counting listens

  function Image(ls: set<Listen>): set<PortKey> {
    set l | l in ls :: Key(l)
  }

  function Fiber(ls: set<Listen>, k: PortKey): set<Listen> {
    set l | l in ls && Key(l) == k
  }

  function CountMap(ls: set<Listen>): map<PortKey, int> {
    map k | k in Image(ls) :: |Fiber(ls, k)|
  }

  lemma CountIsFiber(ls: set<Listen>, k: PortKey)
    ensures Count(CountMap(ls), k) == |Fiber(ls, k)|
    ensures k in Image(ls) <==> |Fiber(ls, k)| > 0
  {
    if k in Image(ls) {
      var l :| l in ls && Key(l) == k;
      assert l in Fiber(ls, k);
    } else {
      assert Fiber(ls, k) == {};
    }
  }

  // What the counts are of, spelled out.
  lemma CountIs(ls: set<Listen>, stack: Stack, port: Port)
    ensures Count(CountMap(ls), PortKey(stack, port)) == |set l | l in ls && l.stack == stack && l.port == port|
    ensures PortKey(stack, port) in Image(ls) <==> exists l :: l in ls && l.stack == stack && l.port == port
  {
    CountIsFiber(ls, PortKey(stack, port));
    assert Fiber(ls, PortKey(stack, port)) == set l | l in ls && l.stack == stack && l.port == port;
    if l :| l in ls && l.stack == stack && l.port == port {
      assert Key(l) == PortKey(stack, port);
    }
  }

  lemma ImageIs(ls: set<Listen>)
    ensures forall stack, port :: PortKey(stack, port) in Image(ls) <==>
              exists l :: l in ls && l.stack == stack && l.port == port
  {
    forall stack, port
      ensures PortKey(stack, port) in Image(ls) <==> exists l :: l in ls && l.stack == stack && l.port == port
    {
      CountIs(ls, stack, port);
    }
  }

  lemma FiberAdd(ls: set<Listen>, l: Listen, k: PortKey)
    requires l !in ls
    ensures |Fiber(ls + {l}, k)| == |Fiber(ls, k)| + if k == Key(l) then 1 else 0
  {
    if k == Key(l) {
      assert Fiber(ls + {l}, k) == Fiber(ls, k) + {l};
    } else {
      assert Fiber(ls + {l}, k) == Fiber(ls, k);
    }
  }

  // ---- one event

  function Raise(counts: map<PortKey, int>, k: PortKey): map<PortKey, int> {
    counts[k := Count(counts, k) + 1]
  }

  function Lower(counts: map<PortKey, int>, k: PortKey): map<PortKey, int> {
    if Count(counts, k) - 1 <= 0 then counts - {k} else counts[k := Count(counts, k) - 1]
  }

  function Diff(before: map<PortKey, int>, after: map<PortKey, int>): Batch {
    Batch(set k | k in after && Count(before, k) == 0, set k | k in before && Count(after, k) == 0)
  }

  function EmitIf(b: Batch): seq<Out> {
    if b == Batch({}, {}) then [] else [Emit(b)]
  }

  // startup says whether the connection was given a startup callback.
  function OnEvent(startup: bool, c: Conn, e: Event): (Conn, seq<Out>) {
    match e
    case Add(l) =>
      if !c.synced then (c.(incoming := c.incoming + {l}), [])
      else (c.(counts := Raise(c.counts, Key(l))),
            if Count(c.counts, Key(l)) == 0 then [Emit(Batch({Key(l)}, {}))] else [])
    case Remove(l) =>
      if !c.synced then (c.(incoming := c.incoming - {l}), [])
      else (c.(counts := Lower(c.counts, Key(l))),
            if Count(c.counts, Key(l)) <= 1 then [Emit(Batch({}, {Key(l)}))] else [])
    case Sync =>
      var counts := CountMap(c.incoming);
      if startup then
        (c.(counts := counts, synced := true, fired := true), if c.fired then [] else [Startup(counts.Keys)])
      else
        (c.(counts := counts, synced := true), EmitIf(Diff(c.counts, counts)))
    case Skipped => (c, [])
  }

  function Fresh(counts: map<PortKey, int>): Conn {
    Conn(counts, {}, false, false)
  }

  function OnEvents(startup: bool, c: Conn, evs: seq<Event>): (Conn, seq<Out>) {
    if evs == [] then (c, [])
    else
      var (c', outs) := OnEvents(startup, c, evs[..|evs| - 1]);
      var (c'', more) := OnEvent(startup, c', evs[|evs| - 1]);
      (c'', outs + more)
  }

  // On the way out the callback is fired if it has not been.
  function AtExit(startup: bool, c: Conn): seq<Out> {
    if startup && !c.fired then [Startup({})] else []
  }

  // The whole of a connection that delivers evs and then ends, for whatever
  // reason; one that cannot be made at all delivers nothing.
  function Watch(counts: map<PortKey, int>, startup: bool, evs: seq<Event>): (map<PortKey, int>, seq<Out>) {
    var (c, outs) := OnEvents(startup, Fresh(counts), evs);
    (c.counts, outs + AtExit(startup, c))
  }

  lemma OnEventsOne(startup: bool, c: Conn, evs: seq<Event>, e: Event)
    ensures OnEvents(startup, c, evs + [e]) ==
            (OnEvent(startup, OnEvents(startup, c, evs).0, e).0,
             OnEvents(startup, c, evs).1 + OnEvent(startup, OnEvents(startup, c, evs).0, e).1)
  {
    Seqs.Front(evs, e);
  }

  // ---- the callback is called exactly once

  function Callbacks(outs: seq<Out>): nat {
    if outs == [] then 0 else Callbacks(outs[..|outs| - 1]) + if outs[|outs| - 1].Startup? then 1 else 0
  }

  lemma CallbacksOne(outs: seq<Out>, o: Out)
    ensures Callbacks(outs + [o]) == Callbacks(outs) + if o.Startup? then 1 else 0
  {
    Seqs.Front(outs, o);
  }

  // Whatever the stream, well formed or not, cut short or not, a connection
  // with a callback calls it once and one without never does; and a
  // connection with one emits nothing before calling it.
  lemma CallbackExactlyOnce(counts: map<PortKey, int>, startup: bool, evs: seq<Event>)
    ensures var outs := Watch(counts, startup, evs).1;
            && Callbacks(outs) == (if startup then 1 else 0)
            && (startup ==> outs[0].Startup?)
  {
    CallbackInvariant(startup, Fresh(counts), evs);
    var (c, outs) := OnEvents(startup, Fresh(counts), evs);
    if startup && !c.fired {
      CallbacksOne(outs, Startup({}));
    } else {
      Seqs.Unit(outs);
    }
  }

  predicate CallbackSoFar(startup: bool, c: Conn, outs: seq<Out>) {
    && Callbacks(outs) == (if c.fired then 1 else 0)
    && (startup ==> c.fired == c.synced)
    && (c.fired ==> startup && outs != [] && outs[0].Startup?)
    && (startup && !c.fired ==> outs == [])
  }

  lemma CallbackStep(startup: bool, c: Conn, outs: seq<Out>, e: Event)
    requires CallbackSoFar(startup, c, outs)
    ensures CallbackSoFar(startup, OnEvent(startup, c, e).0, outs + OnEvent(startup, c, e).1)
  {
    var more := OnEvent(startup, c, e).1;
    if more == [] {
      Seqs.Unit(outs);
    } else {
      assert more == [more[0]];
      CallbacksOne(outs, more[0]);
    }
  }

  lemma {:induction false} CallbackInvariant(startup: bool, c: Conn, evs: seq<Event>)
    requires !c.fired && !c.synced
    ensures CallbackSoFar(startup, OnEvents(startup, c, evs).0, OnEvents(startup, c, evs).1)
    decreases |evs|
  {
    if evs != [] {
      var before := evs[..|evs| - 1];
      CallbackInvariant(startup, c, before);
      CallbackStep(startup, OnEvents(startup, c, before).0, OnEvents(startup, c, before).1, evs[|evs| - 1]);
    }
  }

  // ---- histories of edges

  function AsBatch(o: Out): Batch {
    match o
    case Startup(ports) => Batch(ports, {})
    case Emit(b) => b
  }

  function OpenAfter(outs: seq<Out>): set<PortKey> {
    if outs == [] then {}
    else
      var b := AsBatch(outs[|outs| - 1]);
      OpenAfter(outs[..|outs| - 1]) + b.opens - b.closes
  }

  // Only what is closed is opened and only what is open is closed.
  predicate Alternates(outs: seq<Out>) {
    outs == [] || (Alternates(outs[..|outs| - 1]) && Follows(OpenAfter(outs[..|outs| - 1]), AsBatch(outs[|outs| - 1])))
  }

  predicate Follows(open: set<PortKey>, b: Batch) {
    b.opens !! open && b.closes <= open
  }

  lemma AlternatesOne(outs: seq<Out>, o: Out)
    ensures Alternates(outs + [o]) <==> Alternates(outs) && Follows(OpenAfter(outs), AsBatch(o))
    ensures OpenAfter(outs + [o]) == OpenAfter(outs) + AsBatch(o).opens - AsBatch(o).closes
  {
    Seqs.Front(outs, o);
  }

  lemma {:induction false} AlternatesPrefix(outs: seq<Out>, n: nat)
    requires Alternates(outs) && n <= |outs|
    ensures Alternates(outs[..n])
    decreases |outs|
  {
    if n < |outs| {
      AlternatesPrefix(outs[..|outs| - 1], n);
      assert outs[..|outs| - 1][..n] == outs[..n];
    } else {
      assert outs[..n] == outs;
    }
  }

  // The edges one key goes through: true for an open, false for a close.
  function Edges(outs: seq<Out>, k: PortKey): seq<bool> {
    if outs == [] then []
    else
      var b := AsBatch(outs[|outs| - 1]);
      Edges(outs[..|outs| - 1], k) + (if k in b.opens then [true] else []) + (if k in b.closes then [false] else [])
  }

  predicate OpenCloseOpen(edges: seq<bool>) {
    forall i :: 0 <= i < |edges| ==> edges[i] == (i % 2 == 0)
  }

  ghost predicate Disjoint(outs: seq<Out>) {
    forall o :: o in outs ==> AsBatch(o).opens !! AsBatch(o).closes
  }

  predicate FollowsAt(open: set<PortKey>, b: Batch, k: PortKey) {
    (k in b.opens ==> k !in open) && (k in b.closes ==> k in open)
  }

  predicate AlternatesAt(outs: seq<Out>, k: PortKey) {
    || outs == []
    || (&& AlternatesAt(outs[..|outs| - 1], k)
        && FollowsAt(OpenAfter(outs[..|outs| - 1]), AsBatch(outs[|outs| - 1]), k))
  }

  // Alternates says, for every key, just what it should: open, close, open,
  // and so on.
  lemma AlternationPerKey(outs: seq<Out>)
    requires Disjoint(outs)
    ensures Alternates(outs) <==> forall k :: OpenCloseOpen(Edges(outs, k))
  {
    if Alternates(outs) {
      forall k ensures OpenCloseOpen(Edges(outs, k)) {
        AlternatesForAll(outs, k);
        AlternationAt(outs, k);
      }
    } else {
      var k := BrokenKey(outs);
      AlternationAt(outs, k);
      assert !OpenCloseOpen(Edges(outs, k));
    }
  }

  lemma {:induction false} AlternatesForAll(outs: seq<Out>, k: PortKey)
    requires Alternates(outs)
    ensures AlternatesAt(outs, k)
    decreases |outs|
  {
    if outs != [] {
      AlternatesForAll(outs[..|outs| - 1], k);
    }
  }

  lemma {:induction false} BrokenKey(outs: seq<Out>) returns (k: PortKey)
    requires !Alternates(outs)
    ensures !AlternatesAt(outs, k)
    decreases |outs|
  {
    var rest, b := outs[..|outs| - 1], AsBatch(outs[|outs| - 1]);
    if !Alternates(rest) {
      k := BrokenKey(rest);
    } else if k' :| k' in b.opens && k' in OpenAfter(rest) {
      k := k';
    } else {
      assert !(b.closes <= OpenAfter(rest));
      k :| k in b.closes && k !in OpenAfter(rest);
    }
  }

  // And a key is open after an odd number of edges.
  lemma OpenIsOdd(outs: seq<Out>, k: PortKey)
    requires Disjoint(outs) && Alternates(outs)
    ensures k in OpenAfter(outs) <==> |Edges(outs, k)| % 2 == 1
  {
    AlternatesForAll(outs, k);
    AlternationAt(outs, k);
  }

  lemma {:induction false} AlternationAt(outs: seq<Out>, k: PortKey)
    requires Disjoint(outs)
    ensures OpenCloseOpen(Edges(outs, k)) <==> AlternatesAt(outs, k)
    ensures OpenCloseOpen(Edges(outs, k)) ==> (k in OpenAfter(outs) <==> |Edges(outs, k)| % 2 == 1)
    decreases |outs|
  {
    if outs != [] {
      var rest, o := outs[..|outs| - 1], outs[|outs| - 1];
      assert outs == rest + [o] && o in outs;
      AlternationAt(rest, k);
      EdgesPrefix(outs, k);
      if OpenCloseOpen(Edges(rest, k)) {
        EdgesOne(rest, o, k);
      }
    }
  }

  lemma EdgesOne(rest: seq<Out>, o: Out, k: PortKey)
    requires OpenCloseOpen(Edges(rest, k)) && (k in OpenAfter(rest) <==> |Edges(rest, k)| % 2 == 1)
    requires AsBatch(o).opens !! AsBatch(o).closes
    ensures OpenCloseOpen(Edges(rest + [o], k)) <==> FollowsAt(OpenAfter(rest), AsBatch(o), k)
    ensures FollowsAt(OpenAfter(rest), AsBatch(o), k) ==>
            (k in OpenAfter(rest + [o]) <==> |Edges(rest + [o], k)| % 2 == 1)
  {
    var a, b := Edges(rest, k), Edges(rest + [o], k);
    assert (rest + [o])[..|rest|] == rest;
    var up := k in AsBatch(o).opens;
    if up || k in AsBatch(o).closes {
      assert b == a + [up];
      ExtendEdges(a, up);
    } else {
      assert b == a;
    }
  }

  lemma ExtendEdges(a: seq<bool>, e: bool)
    requires OpenCloseOpen(a)
    ensures OpenCloseOpen(a + [e]) <==> e == (|a| % 2 == 0)
  {
    assert (a + [e])[|a|] == e;
  }

  lemma EdgesPrefix(outs: seq<Out>, k: PortKey)
    requires outs != []
    ensures OpenCloseOpen(Edges(outs, k)) ==> OpenCloseOpen(Edges(outs[..|outs| - 1], k))
  {
    var a, b := Edges(outs[..|outs| - 1], k), Edges(outs, k);
    assert forall i :: 0 <= i < |a| ==> a[i] == b[i];
  }

  // ---- one step of a synced connection

  // Counts, replica and what has been announced agree.
  ghost predicate InStep(counts: map<PortKey, int>, replica: set<Listen>, outs: seq<Out>) {
    && counts == CountMap(replica)
    && Alternates(outs)
    && OpenAfter(outs) == Image(replica)
  }

  lemma RaiseCounts(ls: set<Listen>, l: Listen)
    requires l !in ls
    ensures Raise(CountMap(ls), Key(l)) == CountMap(ls + {l})
    ensures Count(CountMap(ls), Key(l)) == 0 <==> Key(l) !in Image(ls)
    ensures Image(ls + {l}) == Image(ls) + {Key(l)}
  {
    forall k ensures Count(CountMap(ls), k) == |Fiber(ls, k)| && (k in Image(ls) <==> |Fiber(ls, k)| > 0)
      && |Fiber(ls + {l}, k)| == |Fiber(ls, k)| + if k == Key(l) then 1 else 0 {
      CountIsFiber(ls, k);
      FiberAdd(ls, l, k);
    }
    assert l in ls + {l};
  }

  lemma LowerCounts(ls: set<Listen>, l: Listen)
    requires l in ls
    ensures Lower(CountMap(ls), Key(l)) == CountMap(ls - {l})
    ensures Count(CountMap(ls), Key(l)) > 0
    ensures Count(CountMap(ls), Key(l)) == 1 <==> Key(l) !in Image(ls - {l})
    ensures Image(ls - {l}) == Image(ls) - if Count(CountMap(ls), Key(l)) == 1 then {Key(l)} else {}
  {
    var rest := ls - {l};
    assert ls == rest + {l};
    forall k ensures Count(CountMap(ls), k) == |Fiber(ls, k)| && (k in Image(rest) <==> |Fiber(rest, k)| > 0)
      && |Fiber(ls, k)| == |Fiber(rest, k)| + if k == Key(l) then 1 else 0 {
      CountIsFiber(ls, k);
      CountIsFiber(rest, k);
      FiberAdd(rest, l, k);
    }
    RaiseCounts(rest, l);
  }

  // One more thing handed out, or none.
  lemma InStepNone(counts: map<PortKey, int>, replica: set<Listen>, outs: seq<Out>)
    requires InStep(counts, replica, outs)
    ensures InStep(counts, replica, outs + [])
  {
    Seqs.Unit(outs);
  }

  lemma InStepOne(counts: map<PortKey, int>, replica: set<Listen>, outs: seq<Out>, o: Out)
    requires counts == CountMap(replica) && Alternates(outs) && Follows(OpenAfter(outs), AsBatch(o))
    requires OpenAfter(outs) + AsBatch(o).opens - AsBatch(o).closes == Image(replica)
    ensures InStep(counts, replica, outs + [o])
  {
    AlternatesOne(outs, o);
  }

  // Closing all that is open.
  lemma InStepClosed(counts: map<PortKey, int>, replica: set<Listen>, outs: seq<Out>)
    requires InStep(counts, replica, outs)
    ensures InStep(map[], {}, outs + if counts == map[] then [] else [Emit(Batch({}, counts.Keys))])
  {
    assert counts.Keys == Image(replica) && CountMap({}) == map[] && Image({}) == {};
    if counts == map[] {
      InStepNone(counts, {}, outs);
    } else {
      InStepOne(map[], {}, outs, Emit(Batch({}, counts.Keys)));
    }
  }

  lemma SyncedAdd(counts: map<PortKey, int>, replica: set<Listen>, outs: seq<Out>, l: Listen)
    requires l !in replica && InStep(counts, replica, outs)
    ensures InStep(Raise(counts, Key(l)), replica + {l},
                   outs + if Count(counts, Key(l)) == 0 then [Emit(Batch({Key(l)}, {}))] else [])
  {
    RaiseCounts(replica, l);
    if Count(counts, Key(l)) == 0 {
      InStepOne(Raise(counts, Key(l)), replica + {l}, outs, Emit(Batch({Key(l)}, {})));
    } else {
      assert Image(replica + {l}) == Image(replica);
      InStepNone(Raise(counts, Key(l)), replica + {l}, outs);
    }
  }

  lemma SyncedRemove(counts: map<PortKey, int>, replica: set<Listen>, outs: seq<Out>, l: Listen)
    requires l in replica && InStep(counts, replica, outs)
    ensures InStep(Lower(counts, Key(l)), replica - {l},
                   outs + if Count(counts, Key(l)) <= 1 then [Emit(Batch({}, {Key(l)}))] else [])
  {
    LowerCounts(replica, l);
    assert Key(l) in Image(replica);
    if Count(counts, Key(l)) <= 1 {
      InStepOne(Lower(counts, Key(l)), replica - {l}, outs, Emit(Batch({}, {Key(l)})));
    } else {
      assert Image(replica - {l}) == Image(replica);
      InStepNone(Lower(counts, Key(l)), replica - {l}, outs);
    }
  }

  lemma SyncedStep(startup: bool, c: Conn, replica: set<Listen>, outs: seq<Out>, e: Event)
    requires c.synced && News(replica, e) && InStep(c.counts, replica, outs)
    ensures var (c', more) := OnEvent(startup, c, e);
            c'.synced && c'.fired == c.fired && InStep(c'.counts, Apply(replica, e), outs + more)
            && (forall o :: o in more ==> o.Emit?)
  {
    if e.Add? {
      SyncedAdd(c.counts, replica, outs, e.listen);
    } else {
      SyncedRemove(c.counts, replica, outs, e.listen);
    }
  }

  // The sync marker, first time or after a reconnect, whatever the replica of
  // the connection before it was.
  lemma SyncStep(startup: bool, c: Conn, before: set<Listen>, outs: seq<Out>)
    requires !c.synced && InStep(c.counts, before, outs) && (startup ==> !c.fired && outs == [])
    ensures var (c', more) := OnEvent(startup, c, Sync);
            c'.synced && InStep(c'.counts, c.incoming, outs + more)
  {
    if startup {
      FirstSync(c.incoming);
      Seqs.Unit([Startup(CountMap(c.incoming).Keys)]);
    } else {
      LaterSync(before, c.incoming, outs);
    }
  }

  lemma FirstSync(now: set<Listen>)
    ensures InStep(CountMap(now), now, [Startup(CountMap(now).Keys)])
  {
    var none: seq<Out> := [];
    Seqs.Unit([Startup(CountMap(now).Keys)]);
    assert OpenAfter(none) + AsBatch(Startup(CountMap(now).Keys)).opens - {} == Image(now);
    InStepOne(CountMap(now), now, none, Startup(CountMap(now).Keys));
  }

  lemma LaterSync(before: set<Listen>, now: set<Listen>, outs: seq<Out>)
    requires InStep(CountMap(before), before, outs)
    ensures InStep(CountMap(now), now, outs + EmitIf(Diff(CountMap(before), CountMap(now))))
  {
    var d := Diff(CountMap(before), CountMap(now));
    DiffIs(before, now);
    if d == Batch({}, {}) {
      assert Image(before) == Image(before) + d.opens - d.closes == Image(now);
      InStepNone(CountMap(now), now, outs);
    } else {
      InStepOne(CountMap(now), now, outs, Emit(d));
    }
  }

  // The keys that come and the keys that go.
  lemma DiffIs(before: set<Listen>, now: set<Listen>)
    ensures Diff(CountMap(before), CountMap(now)) == Batch(Image(now) - Image(before), Image(before) - Image(now))
    ensures Image(before) + (Image(now) - Image(before)) - (Image(before) - Image(now)) == Image(now)
  {
    forall k
      ensures k in Image(before) <==> Count(CountMap(before), k) != 0
      ensures k in Image(now) <==> Count(CountMap(now), k) != 0
    {
      CountIsFiber(before, k);
      CountIsFiber(now, k);
    }
  }

  // ---- reference counting is right for exact streams, and for no others

  ghost predicate FaithfulAfter(s: set<Listen>, c: Conn, evs: seq<Event>) {
    var (c', outs) := OnEvents(false, c, evs);
    InStep(c'.counts, Replay(s, evs), [Startup(Image(s))] + outs)
  }

  // At the end of evs and at every point before it.
  ghost predicate Faithful(s: set<Listen>, c: Conn, evs: seq<Event>) {
    FaithfulAfter(s, c, evs) && (evs == [] || Faithful(s, c, evs[..|evs| - 1]))
  }

  // Fed adds and removes after a sync on s, the counts equal the numbers of
  // listens per key and the edges alternate at every point, if and only if
  // each event is news: the decrement cannot tell a repeated event from a new one.
  lemma {:induction false} FaithfulIffExact(s: set<Listen>, c: Conn, evs: seq<Event>)
    requires c.synced && c.counts == CountMap(s)
    requires forall e :: e in evs ==> e.Add? || e.Remove?
    ensures Faithful(s, c, evs) <==> Exact(s, evs)
    ensures OnEvents(false, c, evs).0.synced
    decreases |evs|
  {
    if evs == [] {
      FaithfulStart(s, c);
    } else {
      var a, e := evs[..|evs| - 1], evs[|evs| - 1];
      Seqs.Split(evs);
      assert e in evs && forall x :: x in a ==> x in evs;
      FaithfulIffExact(s, c, a);
      ExactOne(s, a, e);
      if Faithful(s, c, a) {
        FaithfulNext(s, c, a, e);
      } else {
        OnEventsOne(false, c, a, e);
      }
    }
  }

  lemma FaithfulStart(s: set<Listen>, c: Conn)
    requires c.synced && c.counts == CountMap(s)
    ensures Faithful(s, c, [])
  {
    var none: seq<Out> := [];
    Seqs.Unit([Startup(Image(s))]);
    assert OpenAfter(none) + Image(s) - {} == Image(s);
    InStepOne(c.counts, s, none, Startup(Image(s)));
  }

  lemma FaithfulNext(s: set<Listen>, c: Conn, a: seq<Event>, e: Event)
    requires FaithfulAfter(s, c, a) && OnEvents(false, c, a).0.synced && (e.Add? || e.Remove?)
    ensures FaithfulAfter(s, c, a + [e]) <==> News(Replay(s, a), e)
    ensures OnEvents(false, c, a + [e]).0.synced
  {
    var (c', outs) := OnEvents(false, c, a);
    var start := [Startup(Image(s))];
    OnEventsOne(false, c, a, e);
    ReplayOne(s, a, e);
    Seqs.Assoc(start, outs, OnEvent(false, c', e).1);
    if News(Replay(s, a), e) {
      SyncedStep(false, c', Replay(s, a), start + outs, e);
    } else {
      StaleStep(c', Replay(s, a), start + outs, e);
    }
  }

  lemma StaleStep(c: Conn, replica: set<Listen>, outs: seq<Out>, e: Event)
    requires c.synced && (e.Add? || e.Remove?) && !News(replica, e) && InStep(c.counts, replica, outs)
    ensures var (c', more) := OnEvent(false, c, e); !InStep(c'.counts, Apply(replica, e), outs + more)
  {
    var (c', more) := OnEvent(false, c, e);
    var k := Key(e.listen);
    assert Apply(replica, e) == replica;
    CountIsFiber(replica, k);
    if e.Add? {
      assert Count(c'.counts, k) == Count(c.counts, k) + 1;
    } else if Count(c.counts, k) == 0 {
      AlternatesOne(outs, more[0]);
    } else {
      assert Count(c'.counts, k) != Count(c.counts, k);
    }
  }

  // ---- a watcher's whole life

  // What a server sends on one connection, as far as it gets: its snapshot,
  // the sync marker, then events that are news to a holder of the snapshot.
  ghost predicate WellFed(stream: seq<Event>) {
    exists order: seq<Listen>, s: set<Listen>, evs: seq<Event> ::
      Lists(order, s) && Exact(s, evs) && stream <= Adds(order) + [Sync] + evs
  }

  // One connection after another; only the first has the callback.
  function WatchAll(counts: map<PortKey, int>, startup: bool, conns: seq<seq<Event>>): (map<PortKey, int>, seq<Out>) {
    if conns == [] then (counts, [])
    else
      var (counts', outs) := WatchAll(counts, startup, conns[..|conns| - 1]);
      var (counts'', more) := Watch(counts', startup && |conns| == 1, conns[|conns| - 1]);
      (counts'', outs + more)
  }

  // When the watcher stops, it closes whatever it still has open.
  function Lifetime(startup: bool, conns: seq<seq<Event>>): seq<Out> {
    var (counts, outs) := WatchAll(map[], startup, conns);
    outs + if counts == map[] then [] else [Emit(Batch({}, counts.Keys))]
  }

  // Before the sync marker a connection, whatever it delivers, changes nothing
  // but its own incoming set, which follows it.
  lemma {:induction false} UpToMarker(startup: bool, c: Conn, evs: seq<Event>)
    requires !c.synced && Sync !in evs
    ensures OnEvents(startup, c, evs) == (c.(incoming := Replay(c.incoming, evs)), [])
    decreases |evs|
  {
    if evs != [] {
      Seqs.Split(evs);
      UpToMarker(startup, c, evs[..|evs| - 1]);
      var none: seq<Out> := [];
      Seqs.Unit(none);
    }
  }

  lemma BeforeSync(startup: bool, c: Conn, ls: seq<Listen>)
    requires !c.synced
    ensures OnEvents(startup, c, Adds(ls)) == (c.(incoming := c.incoming + Elems(ls)), [])
  {
    UpToMarker(startup, c, Adds(ls));
    ReplayAdds(c.incoming, ls);
  }

  lemma {:induction false} AfterSync(startup: bool, c: Conn, replica: set<Listen>, outs: seq<Out>, evs: seq<Event>)
    requires c.synced && InStep(c.counts, replica, outs) && Exact(replica, evs)
    ensures var (c', more) := OnEvents(startup, c, evs);
            c'.synced && c'.fired == c.fired && InStep(c'.counts, Replay(replica, evs), outs + more)
    decreases |evs|
  {
    if evs == [] {
      InStepNone(c.counts, replica, outs);
    } else {
      var a, e := evs[..|evs| - 1], evs[|evs| - 1];
      Seqs.Split(evs);
      ExactOne(replica, a, e);
      AfterSync(startup, c, replica, outs, a);
      var (c', more) := OnEvents(startup, c, a);
      SyncedStep(startup, c', Replay(replica, a), outs + more, e);
      OnEventsOne(startup, c, a, e);
      ReplayOne(replica, a, e);
      Seqs.Assoc(outs, more, OnEvent(startup, c', e).1);
    }
  }

  lemma {:induction false} OnEventsConcat(startup: bool, c: Conn, a: seq<Event>, b: seq<Event>)
    ensures var (c', outs) := OnEvents(startup, c, a);
            OnEvents(startup, c, a + b) == (OnEvents(startup, c', b).0, outs + OnEvents(startup, c', b).1)
    decreases |b|
  {
    var (c', outs) := OnEvents(startup, c, a);
    if b == [] {
      Seqs.Unit(a);
      Seqs.Unit(outs);
    } else {
      var b', e := b[..|b| - 1], b[|b| - 1];
      Seqs.Split(b);
      Seqs.Assoc(a, b', [e]);
      OnEventsConcat(startup, c, a, b');
      OnEventsOne(startup, c, a + b', e);
      OnEventsOne(startup, c', b', e);
      var (c'', more) := OnEvents(startup, c', b');
      Seqs.Assoc(outs, more, OnEvent(startup, c'', e).1);
    }
  }

  // What a client takes the container to be listening on: what its last
  // connection to get a sync marker has told it.
  function ReplicaAfter(before: set<Listen>, stream: seq<Event>): set<Listen> {
    if Sync in stream then Replay({}, stream) else before
  }

  function Held(conns: seq<seq<Event>>): set<Listen> {
    if conns == [] then {} else ReplicaAfter(Held(conns[..|conns| - 1]), conns[|conns| - 1])
  }

  // A connection fed by a watcher leaves counts, replica and edges in step:
  // with the replica of the connection before it if it got no sync marker,
  // else with its own.
  lemma ConnectionInStep(counts: map<PortKey, int>, before: set<Listen>, outs: seq<Out>, startup: bool,
      stream: seq<Event>)
    requires WellFed(stream) && InStep(counts, before, outs) && (startup ==> outs == [])
    ensures var (counts', more) := Watch(counts, startup, stream);
            InStep(counts', ReplicaAfter(before, stream), outs + more)
  {
    var order, s, evs :| Lists(order, s) && Exact(s, evs) && stream <= Adds(order) + [Sync] + evs;
    if |stream| <= |order| {
      assert stream == Adds(order[..|stream|]);
      UnsyncedConnection(counts, before, outs, startup, order[..|stream|]);
    } else {
      var n := |stream| - |order| - 1;
      assert stream == (Adds(order) + [Sync]) + evs[..n];
      assert evs == evs[..n] + evs[n..];
      ExactConcat(s, evs[..n], evs[n..]);
      ReplicaOfServed(order, s, evs, n);
      SyncedConnection(counts, before, outs, startup, order, s, evs[..n]);
    }
  }

  lemma UnsyncedConnection(counts: map<PortKey, int>, before: set<Listen>, outs: seq<Out>, startup: bool,
      order: seq<Listen>)
    requires InStep(counts, before, outs) && (startup ==> outs == [])
    ensures var (counts', more) := Watch(counts, startup, Adds(order)); InStep(counts', before, outs + more)
  {
    BeforeSync(startup, Fresh(counts), order);
    if startup {
      AlternatesOne([], Startup({}));
      assert outs + ([] + [Startup({})]) == [] + [Startup({})];
    } else {
      assert outs + ([] + []) == outs;
    }
  }

  lemma SyncedConnection(counts: map<PortKey, int>, before: set<Listen>, outs: seq<Out>, startup: bool,
      order: seq<Listen>, s: set<Listen>, evs: seq<Event>)
    requires InStep(counts, before, outs) && (startup ==> outs == [])
    requires Lists(order, s) && Exact(s, evs)
    ensures var (counts', more) := Watch(counts, startup, (Adds(order) + [Sync]) + evs);
            InStep(counts', Replay(s, evs), outs + more)
  {
    var (c2, sync) := UpToSync(counts, startup, order, s);
    SyncStep(startup, Fresh(counts).(incoming := s), before, outs);
    AfterSync(startup, c2, s, outs + sync, evs);
    var more := OnEvents(startup, c2, evs).1;
    WatchFrom(counts, startup, Adds(order) + [Sync], evs);
    Seqs.Assoc(outs, sync, more);
  }

  // A connection whose callback, if any, has been called has nothing to make up for.
  lemma WatchFrom(counts: map<PortKey, int>, startup: bool, a: seq<Event>, b: seq<Event>)
    requires var c := OnEvents(startup, Fresh(counts), a).0;
             OnEvents(startup, c, b).0.fired == startup
    ensures var (c, outs) := OnEvents(startup, Fresh(counts), a);
            var (c', more) := OnEvents(startup, c, b);
            Watch(counts, startup, a + b) == (c'.counts, outs + more)
  {
    var (c, outs) := OnEvents(startup, Fresh(counts), a);
    OnEventsConcat(startup, Fresh(counts), a, b);
    Seqs.Unit(outs + OnEvents(startup, c, b).1);
  }

  ghost function UpToSync(counts: map<PortKey, int>, startup: bool, order: seq<Listen>, s: set<Listen>):
      (r: (Conn, seq<Out>))
    requires Lists(order, s)
    ensures r == OnEvents(startup, Fresh(counts), Adds(order) + [Sync])
    ensures r == OnEvent(startup, Fresh(counts).(incoming := s), Sync)
    ensures r.0.synced && r.0.fired == startup
  {
    BeforeSync(startup, Fresh(counts), order);
    assert {} + Elems(order) == s;
    OnEventsOne(startup, Fresh(counts), Adds(order), Sync);
    assert [] + OnEvent(startup, Fresh(counts).(incoming := s), Sync).1 ==
           OnEvent(startup, Fresh(counts).(incoming := s), Sync).1;
    OnEvent(startup, Fresh(counts).(incoming := s), Sync)
  }

  ghost predicate AllWellFed(conns: seq<seq<Event>>) {
    forall s :: s in conns ==> WellFed(s)
  }

  // However often a watcher reconnects, its counts, and what it has handed out
  // as open, are those of what it was last told.
  lemma {:induction false} ConnectionsInStep(startup: bool, conns: seq<seq<Event>>)
    requires AllWellFed(conns)
    ensures var (counts, outs) := WatchAll(map[], startup, conns); InStep(counts, Held(conns), outs)
    decreases |conns|
  {
    if conns != [] {
      var n := |conns| - 1;
      ConnectionsInStep(startup, conns[..n]);
      var (counts, outs) := WatchAll(map[], startup, conns[..n]);
      assert conns[n] in conns;
      ConnectionInStep(counts, Held(conns[..n]), outs, startup && n == 0, conns[n]);
    }
  }

  // However often a watcher is cut off and reconnects, and wherever each of
  // its streams breaks, what it hands out over its life alternates per key,
  // and when it has stopped nothing is left open.
  lemma LifetimeAlternates(startup: bool, conns: seq<seq<Event>>)
    requires AllWellFed(conns)
    ensures Alternates(Lifetime(startup, conns)) && OpenAfter(Lifetime(startup, conns)) == {}
  {
    ConnectionsInStep(startup, conns);
    var (counts, outs) := WatchAll(map[], startup, conns);
    InStepClosed(counts, Held(conns), outs);
  }

  // ---- exactly what is handed out, line by line

  // All that has been handed out when `part` has come of the connection after conns.
  function SoFar(startup: bool, conns: seq<seq<Event>>, part: seq<Event>): seq<Out> {
    var (counts, outs) := WatchAll(map[], startup, conns);
    outs + OnEvents(startup && conns == [], Fresh(counts), part).1
  }

  lemma {:induction false} SyncedIff(startup: bool, c: Conn, evs: seq<Event>)
    requires !c.synced && !c.fired
    ensures var c' := OnEvents(startup, c, evs).0;
            (c'.synced <==> Sync in evs) && (c'.fired <==> startup && Sync in evs)
    decreases |evs|
  {
    if evs != [] {
      Seqs.Split(evs);
      SyncedIff(startup, c, evs[..|evs| - 1]);
    }
  }

  // Between connections nothing is handed out but the callback, if the first
  // one has ended without a sync marker.
  lemma BetweenConnections(startup: bool, conns: seq<seq<Event>>, part: seq<Event>)
    ensures SoFar(startup, conns, []) == WatchAll(map[], startup, conns).1
    ensures WatchAll(map[], startup, conns + [part]).1 ==
            SoFar(startup, conns, part) + if startup && conns == [] && Sync !in part then [Startup({})] else []
  {
    var (counts, outs) := WatchAll(map[], startup, conns);
    var first := startup && conns == [];
    Seqs.Unit(outs);
    Seqs.Front(conns, part);
    SyncedIff(first, Fresh(counts), part);
    var (c, more) := OnEvents(first, Fresh(counts), part);
    Seqs.Assoc(outs, more, AtExit(first, c));
  }

  lemma SoFarInStep(startup: bool, conns: seq<seq<Event>>, part: seq<Event>)
    requires AllWellFed(conns) && WellFed(part)
    ensures Alternates(SoFar(startup, conns, part))
    ensures OpenAfter(SoFar(startup, conns, part)) == Image(Held(conns + [part]))
    ensures startup && conns == [] && Sync !in part ==> SoFar(startup, conns, part) == []
  {
    var all := conns + [part];
    forall s | s in all ensures WellFed(s) {
    }
    ConnectionsInStep(startup, all);
    BetweenConnections(startup, conns, part);
    var outs := SoFar(startup, conns, part);
    if startup && conns == [] && Sync !in part {
      CallbackInvariant(true, Fresh(map[]), part);
      SyncedIff(true, Fresh(map[]), part);
      assert outs == [];
    } else {
      Seqs.Unit(outs);
    }
    Seqs.Front(conns, part);
    if outs == [] && startup && conns == [] && Sync !in part {
      assert Held(all) == {};
    }
  }

  lemma WellFedPrefix(part: seq<Event>, e: Event)
    requires WellFed(part + [e])
    ensures WellFed(part)
  {
    var order, s, evs :| Lists(order, s) && Exact(s, evs) && part + [e] <= Adds(order) + [Sync] + evs;
    assert part <= part + [e];
    assert part <= Adds(order) + [Sync] + evs;
  }

  predicate IsIdle(o: Out) {
    o == Emit(Batch({}, {}))
  }

  lemma HandsOutOne(startup: bool, c: Conn, e: Event)
    ensures var more := OnEvent(startup, c, e).1;
            more == [] || (exists o :: more == [o] && !IsIdle(o) && (o.Startup? <==> startup && e.Sync?))
  {
    var more := OnEvent(startup, c, e).1;
    if more != [] {
      assert more == [more[0]];
    }
  }

  lemma ChangesSomething(outs: seq<Out>, o: Out)
    requires Alternates(outs + [o]) && o.Emit? && !IsIdle(o)
    ensures OpenAfter(outs + [o]) != OpenAfter(outs)
  {
    AlternatesOne(outs, o);
    if k :| k in o.batch.opens && k !in o.batch.closes {
      assert k in OpenAfter(outs + [o]) && k !in OpenAfter(outs);
    } else if k :| k in o.batch.closes {
      assert k !in OpenAfter(outs + [o]) && k in OpenAfter(outs);
    }
  }

  lemma OpenedBy(o: Out)
    requires o.Startup?
    ensures OpenAfter([o]) == o.ports
  {
    assert [o][..0] == [];
  }

  lemma NoneOrChanges(outs: seq<Out>, last: seq<Out>)
    requires Alternates(outs + last)
    requires last == [] || exists o :: last == [o] && !IsIdle(o) && o.Emit?
    ensures outs + last != outs <==> OpenAfter(outs + last) != OpenAfter(outs)
    ensures outs + last == outs || exists o :: outs + last == outs + [o] && !IsIdle(o)
  {
    if last == [] {
      Seqs.Unit(outs);
    } else {
      ChangesSomething(outs, last[0]);
    }
  }

  // What one more line adds.
  lemma LineAdds(startup: bool, conns: seq<seq<Event>>, part: seq<Event>, e: Event) returns (last: seq<Out>)
    ensures SoFar(startup, conns, part + [e]) == SoFar(startup, conns, part) + last
    ensures last == [] || exists o :: last == [o] && !IsIdle(o) && (o.Startup? <==> startup && conns == [] && e.Sync?)
    ensures startup && conns == [] && e.Sync? && Sync !in part ==> last != []
  {
    var (counts, before) := WatchAll(map[], startup, conns);
    var first := startup && conns == [];
    var (c, more) := OnEvents(first, Fresh(counts), part);
    OnEventsOne(first, Fresh(counts), part, e);
    SyncedIff(first, Fresh(counts), part);
    last := OnEvent(first, c, e).1;
    Seqs.Assoc(before, more, last);
    HandsOutOne(first, c, e);
  }

  // One more line hands out one thing at most: on the startup connection's sync
  // marker the callback's result; else a batch, if and only if the set of open
  // keys has changed.
  lemma OneMoreLine(startup: bool, conns: seq<seq<Event>>, part: seq<Event>, e: Event)
    requires AllWellFed(conns) && WellFed(part + [e])
    ensures var outs, outs' := SoFar(startup, conns, part), SoFar(startup, conns, part + [e]);
            var now := Image(Held(conns + [part + [e]]));
            && OpenAfter(outs') == now
            && (outs' == outs || exists o :: outs' == outs + [o] && !IsIdle(o))
            && (startup && conns == [] && e.Sync? && Sync !in part ==> outs == [] && outs' == [Startup(now)])
            && (!(startup && conns == [] && e.Sync?) ==> (outs' != outs <==> now != Image(Held(conns + [part]))))
  {
    WellFedPrefix(part, e);
    SoFarInStep(startup, conns, part);
    SoFarInStep(startup, conns, part + [e]);
    var outs := SoFar(startup, conns, part);
    var last := LineAdds(startup, conns, part, e);
    if startup && conns == [] && e.Sync? {
      if last == [] {
        Seqs.Unit(outs);
      } else if Sync !in part {
        Seqs.Unit(last);
        OpenedBy(last[0]);
      }
    } else {
      NoneOrChanges(outs, last);
    }
  }

  // And on its way out a watcher closes what it was last told is open, if that
  // is anything.
  lemma LifetimeEnds(startup: bool, conns: seq<seq<Event>>)
    requires AllWellFed(conns)
    ensures Lifetime(startup, conns) ==
            WatchAll(map[], startup, conns).1 + if Held(conns) == {} then [] else [Emit(Batch({}, Image(Held(conns))))]
    ensures OpenAfter(WatchAll(map[], startup, conns).1) == Image(Held(conns))
  {
    ConnectionsInStep(startup, conns);
    var held := Held(conns);
    assert CountMap(held).Keys == Image(held);
    if l :| l in held {
      assert Key(l) in Image(held);
    }
  }
}
