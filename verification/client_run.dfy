// The ports client: many container watchers feeding one Changes channel, the
// startup snapshot first.
module ClientRun {
  import opened Listens
  import Seqs
  import opened Ports
  import opened Link

  // How many batches outCh can hold.
  const OUT_BUF := 128

  // What is sent on Changes: the combined startup snapshot, here still sorted
  // by watcher, or one watcher's batch. Watchers are told apart by instance:
  // a container that goes and comes back gets a new one.
  datatype Item = First(ports: map<nat, set<PortKey>>) | Later(id: nat, batch: Batch)

  // initial: watchers present at startup, that is those with a callback.
  // startupCh and outCh: sent to run, not yet received. snapshot, pending and
  // remaining are run's locals; collecting until it sends the snapshot.
  datatype Client = Client(
    cws: map<nat, Cw>, initial: set<nat>,
    startupCh: seq<(nat, set<PortKey>)>, outCh: seq<(nat, Batch)>,
    collecting: bool, remaining: nat, snapshot: map<nat, set<PortKey>>, pending: seq<(nat, Batch)>,
    changes: seq<Item>)

  datatype ClientAction =
    | Watcher(id: nat, a: CwAction)
    | Discover(id: nat)
    | TakeStartup
    | TakeEarly
    | Deadline
    | SendSnapshot
    | Flush
    | Forward

  // Channels after a watcher has handed out o.
  function Handed(s: Client, id: nat, o: Out): Client {
    match o
    case Startup(ports) => s.(startupCh := s.startupCh + [(id, ports)])
    case Emit(b) => s.(outCh := s.outCh + [(id, b)])
  }

  // emit blocks while outCh is full.
  predicate Room(s: Client, o: Out) {
    o.Emit? ==> |s.outCh| < OUT_BUF
  }

  // The watcher's step goes through, with what it hands out.
  ghost predicate HandsOver(s: Client, id: nat, c': Cw, s': Client)
    requires id in s.cws
  {
    if c'.outs == s.cws[id].outs then s' == s.(cws := s.cws[id := c'])
    else
      && |c'.outs| > 0 && Room(s, c'.outs[|c'.outs| - 1])
      && s' == Handed(s, id, c'.outs[|c'.outs| - 1]).(cws := s.cws[id := c'])
  }

  ghost predicate WatcherNext(s: Client, id: nat, a: CwAction, s': Client) {
    && id in s.cws && id in s'.cws && CwNext(s.cws[id], a, s'.cws[id])
    && (a.Stop? ==> !s.collecting)
    && HandsOver(s, id, s'.cws[id], s')
  }

  // A container turning up after startup gets no callback.
  ghost predicate DiscoverNext(s: Client, id: nat, s': Client) {
    && !s.collecting && id !in s.cws
    && id in s'.cws && CwInit(s'.cws[id]) && !s'.cws[id].startup
    && s' == s.(cws := s.cws[id := s'.cws[id]])
  }

  predicate TakeStartupNext(s: Client, s': Client) {
    && s.collecting && s.remaining > 0 && s.startupCh != []
    && s' == s.(startupCh := s.startupCh[1..], remaining := s.remaining - 1,
         snapshot := s.snapshot[s.startupCh[0].0 := s.startupCh[0].1])
  }

  // What run does by itself with what it has received.
  predicate RunNext(s: Client, a: ClientAction, s': Client) {
    match a
    case TakeEarly =>
      && s.collecting && s.remaining > 0 && s.outCh != []
      && s' == s.(outCh := s.outCh[1..], pending := s.pending + [s.outCh[0]])
    case Deadline =>
      s.collecting && s.remaining > 0 && s' == s.(remaining := 0)
    case SendSnapshot =>
      s.collecting && s.remaining == 0 && s' == s.(collecting := false, changes := s.changes + [First(s.snapshot)])
    case Flush =>
      && !s.collecting && s.pending != []
      && s' == s.(pending := s.pending[1..], changes := s.changes + [Later(s.pending[0].0, s.pending[0].1)])
    case Forward =>
      && !s.collecting && s.pending == [] && s.outCh != []
      && s' == s.(outCh := s.outCh[1..], changes := s.changes + [Later(s.outCh[0].0, s.outCh[0].1)])
    case _ => false
  }

  ghost predicate ClientNext(s: Client, a: ClientAction, s': Client) {
    match a
    case Watcher(id, ca) => WatcherNext(s, id, ca, s')
    case Discover(id) => DiscoverNext(s, id, s')
    case TakeStartup => TakeStartupNext(s, s')
    case _ => RunNext(s, a, s')
  }

  ghost predicate ClientInit(s: Client) {
    && s.cws.Keys == s.initial
    && (forall id :: id in s.cws ==> CwInit(s.cws[id]) && s.cws[id].startup)
    && s.startupCh == [] && s.outCh == [] && s.pending == [] && s.changes == []
    && s.collecting && s.remaining == |s.initial| && s.snapshot == map[]
  }

  ghost predicate IsClientRun(ss: seq<Client>, acts: seq<ClientAction>) {
    && |ss| == |acts| + 1
    && ClientInit(ss[0])
    && forall i :: 0 <= i < |acts| ==> ClientNext(ss[i], acts[i], ss[i + 1])
  }

  // ---- one watcher's share of what has been sent

  function ShareOf(x: Item, id: nat): seq<Out> {
    match x
    case First(ports) => if id in ports then [Startup(ports[id])] else []
    case Later(i, b) => if i == id then [Emit(b)] else []
  }

  function Share(items: seq<Item>, id: nat): seq<Out> {
    if items == [] then [] else Share(items[..|items| - 1], id) + ShareOf(items[|items| - 1], id)
  }

  function Laters(bs: seq<(nat, Batch)>): (items: seq<Item>)
    ensures |items| == |bs| && forall i :: 0 <= i < |bs| ==> items[i] == Later(bs[i].0, bs[i].1)
  {
    seq(|bs|, i requires 0 <= i < |bs| => Later(bs[i].0, bs[i].1))
  }

  lemma {:induction false} ShareConcat(a: seq<Item>, b: seq<Item>, id: nat)
    ensures Share(a + b, id) == Share(a, id) + Share(b, id)
    decreases |b|
  {
    if b == [] {
      assert a + b == a;
    } else {
      var b', x := b[..|b| - 1], b[|b| - 1];
      assert (a + b)[..|a + b| - 1] == a + b';
      ShareConcat(a, b', id);
    }
  }

  // Everything sent on Changes or on its way there, in the order it will have.
  function Pipeline(s: Client): seq<Item> {
    (if s.collecting then [First(s.snapshot)] else s.changes) + Laters(s.pending + s.outCh)
  }

  // A startup result nobody has received.
  function Unreceived(ch: seq<(nat, set<PortKey>)>, id: nat): seq<Out> {
    if ch == [] then []
    else Unreceived(ch[..|ch| - 1], id) + if ch[|ch| - 1].0 == id then [Startup(ch[|ch| - 1].1)] else []
  }

  lemma {:induction false} UnreceivedConcat(a: seq<(nat, set<PortKey>)>, b: seq<(nat, set<PortKey>)>, id: nat)
    ensures Unreceived(a + b, id) == Unreceived(a, id) + Unreceived(b, id)
    decreases |b|
  {
    if b == [] {
      assert a + b == a;
    } else {
      assert (a + b)[..|a + b| - 1] == a + b[..|b| - 1];
      UnreceivedConcat(a, b[..|b| - 1], id);
    }
  }

  // ---- steps

  lemma ShareOne(items: seq<Item>, x: Item, id: nat)
    ensures Share(items + [x], id) == Share(items, id) + ShareOf(x, id)
  {
    assert (items + [x])[..|items|] == items;
  }

  lemma LatersOne(bs: seq<(nat, Batch)>, b: (nat, Batch))
    ensures Laters(bs + [b]) == Laters(bs) + [Later(b.0, b.1)]
    ensures Laters([b] + bs) == [Later(b.0, b.1)] + Laters(bs)
  {
  }

  // What a watcher hands out goes to the end of its share, and to no other's.
  lemma EmitShares(s: Client, id: nat, b: Batch, i: nat)
    ensures var s' := Handed(s, id, Emit(b));
            && s'.startupCh == s.startupCh
            && Share(Pipeline(s'), i) == Share(Pipeline(s), i) + if i == id then [Emit(b)] else []
  {
    var s' := Handed(s, id, Emit(b));
    assert s'.pending + s'.outCh == (s.pending + s.outCh) + [(id, b)];
    LatersOne(s.pending + s.outCh, (id, b));
    assert Pipeline(s') == Pipeline(s) + [Later(id, b)];
    ShareOne(Pipeline(s), Later(id, b), i);
  }

  lemma StartupShares(s: Client, id: nat, ports: set<PortKey>, i: nat)
    ensures var s' := Handed(s, id, Startup(ports));
            && Pipeline(s') == Pipeline(s)
            && Unreceived(s'.startupCh, i) == Unreceived(s.startupCh, i) + if i == id then [Startup(ports)] else []
  {
    assert (s.startupCh + [(id, ports)])[..|s.startupCh|] == s.startupCh;
  }

  // Moving things along inside run leaves the pipeline as it is.
  lemma PipelineKept(s: Client, a: ClientAction, s': Client)
    requires RunNext(s, a, s') && (s.collecting ==> s.changes == [])
    ensures Pipeline(s') == Pipeline(s) && s'.startupCh == s.startupCh && s'.cws == s.cws
  {
  }

  lemma ShareFirst(ports: map<nat, set<PortKey>>, rest: seq<Item>, i: nat)
    ensures Share([First(ports)] + rest, i) == ShareOf(First(ports), i) + Share(rest, i)
  {
    ShareConcat([First(ports)], rest, i);
    ShareOne([], First(ports), i);
    assert [] + [First(ports)] == [First(ports)];
    assert [] + ShareOf(First(ports), i) == ShareOf(First(ports), i);
  }

  lemma UnreceivedFirst(x: (nat, set<PortKey>), rest: seq<(nat, set<PortKey>)>, i: nat)
    ensures Unreceived([x] + rest, i) == (if x.0 == i then [Startup(x.1)] else []) + Unreceived(rest, i)
  {
    UnreceivedConcat([x], rest, i);
    var none: seq<(nat, set<PortKey>)> := [];
    assert [x][..0] == none;
    assert Unreceived([x], i) == Unreceived(none, i) + if x.0 == i then [Startup(x.1)] else [];
    assert [] + (if x.0 == i then [Startup(x.1)] else []) == if x.0 == i then [Startup(x.1)] else [];
  }

  // Receiving a startup result moves it into the snapshot.
  lemma TakeStartupShares(snapshot: map<nat, set<PortKey>>, x: (nat, set<PortKey>), rest: seq<(nat, set<PortKey>)>,
      items: seq<Item>, i: nat)
    requires x.0 !in snapshot && |Unreceived([x] + rest, i)| <= 1
    ensures Unreceived(rest, i) + Share([First(snapshot[x.0 := x.1])] + items, i) ==
            Unreceived([x] + rest, i) + Share([First(snapshot)] + items, i)
    ensures |Unreceived(rest, i)| <= 1
    ensures x.0 == i ==> Unreceived(rest, i) == []
  {
    UnreceivedFirst(x, rest, i);
    ShareFirst(snapshot, items, i);
    ShareFirst(snapshot[x.0 := x.1], items, i);
    var r := Share(items, i);
    if x.0 == i {
      assert Unreceived(rest, i) == [];
      assert [] + ([Startup(x.1)] + r) == [Startup(x.1)] + ([] + r);
    } else {
      assert [] + Unreceived(rest, i) == Unreceived(rest, i);
    }
  }

  // ---- the invariant is kept

  function OutsOf(s: Client, id: nat): seq<Out> {
    if id in s.cws then s.cws[id].outs else []
  }

  // Nothing is lost, doubled or reordered: what a watcher has handed out is
  // its startup result, if nobody has received it, followed by its share of
  // what is on Changes or on its way there.
  ghost predicate Settled(s: Client, id: nat) {
    var late := Unreceived(s.startupCh, id);
    && OutsOf(s, id) == late + Share(Pipeline(s), id)
    && |late| <= 1
    && (s.collecting && id in s.snapshot ==> late == [])
  }

  ghost predicate ChangesShape(s: Client) {
    if s.collecting then s.changes == []
    else
      && s.changes != [] && s.changes[0] == First(s.snapshot)
      && forall i :: 1 <= i < |s.changes| ==> s.changes[i].Later?
  }

  ghost predicate AllWatched(cws: map<nat, Cw>) {
    forall id :: id in cws ==> CwInv(cws[id])
  }

  ghost predicate ClientInv(s: Client) {
    AllWatched(s.cws) && ChangesShape(s) && forall id :: Settled(s, id)
  }

  lemma StartupSettled(s: Client, id: nat, ports: set<PortKey>, s': Client, i: nat)
    requires Settled(s, i) && OutsOf(s, id) == []
    requires s' == Handed(s, id, Startup(ports)).(cws := s'.cws)
    requires OutsOf(s', i) == OutsOf(s, i) + if i == id then [Startup(ports)] else []
    ensures Settled(s', i)
  {
    StartupShares(s, id, ports, i);
    assert Pipeline(s') == Pipeline(s);
    if i == id {
      NotInSnapshot(s, i);
      assert [] + [Startup(ports)] == [Startup(ports)] && [Startup(ports)] + [] == [Startup(ports)];
    }
  }

  lemma EmitSettled(s: Client, id: nat, b: Batch, s': Client, i: nat)
    requires Settled(s, i)
    requires s' == Handed(s, id, Emit(b)).(cws := s'.cws)
    requires OutsOf(s', i) == OutsOf(s, i) + if i == id then [Emit(b)] else []
    ensures Settled(s', i)
  {
    EmitShares(s, id, b, i);
    assert Pipeline(s') == Pipeline(Handed(s, id, Emit(b)));
    var u, p := Unreceived(s.startupCh, i), Share(Pipeline(s), i);
    Seqs.Assoc(u, p, if i == id then [Emit(b)] else []);
  }

  lemma NotInSnapshot(s: Client, i: nat)
    requires Share(Pipeline(s), i) == []
    ensures s.collecting ==> i !in s.snapshot
  {
    if s.collecting {
      ShareFirst(s.snapshot, Laters(s.pending + s.outCh), i);
    }
  }

  lemma WatcherSettled(s: Client, id: nat, c': Cw, s': Client, i: nat)
    requires Settled(s, i) && id in s.cws && AtMostOneMore(s.cws[id].startup, s.cws[id].outs, c'.outs)
    requires HandsOver(s, id, c', s')
    ensures Settled(s', i)
  {
    var outs := s.cws[id].outs;
    if c'.outs != outs {
      var o :| c'.outs == outs + [o] && (o.Startup? ==> s.cws[id].startup && outs == []);
      if o.Startup? {
        StartupSettled(s, id, o.ports, s', i);
      } else {
        EmitSettled(s, id, o.batch, s', i);
      }
    }
  }

  lemma WatcherStep(s: Client, id: nat, a: CwAction, s': Client)
    requires AllWatched(s.cws) && WatcherNext(s, id, a, s')
    ensures id in s.cws && id in s'.cws && s'.cws == s.cws[id := s'.cws[id]]
    ensures CwInv(s'.cws[id]) && AtMostOneMore(s.cws[id].startup, s.cws[id].outs, s'.cws[id].outs)
  {
    CwInvStep(s.cws[id], a, s'.cws[id]);
    StepHandsOutOne(s.cws[id], a, s'.cws[id]);
  }

  lemma InvWatcher(s: Client, id: nat, a: CwAction, s': Client)
    requires ClientInv(s) && WatcherNext(s, id, a, s')
    ensures ClientInv(s')
  {
    WatcherStep(s, id, a, s');
    assert AllWatched(s'.cws);
    forall i ensures Settled(s', i) {
      assert Settled(s, i);
      WatcherSettled(s, id, s'.cws[id], s', i);
    }
  }

  lemma InvTakeStartup(s: Client, s': Client)
    requires ClientInv(s) && TakeStartupNext(s, s')
    ensures ClientInv(s')
  {
    var x := s.startupCh[0];
    assert s.startupCh == [x] + s'.startupCh;
    assert Settled(s, x.0);
    UnreceivedFirst(x, s'.startupCh, x.0);
    forall i ensures Settled(s', i) {
      assert Settled(s, i);
      TakeStartupShares(s.snapshot, x, s'.startupCh, Laters(s.pending + s.outCh), i);
      UnreceivedFirst(x, s'.startupCh, i);
    }
  }

  lemma InvDiscover(s: Client, id: nat, s': Client)
    requires ClientInv(s) && DiscoverNext(s, id, s')
    ensures ClientInv(s')
  {
    CwInvInit(s'.cws[id]);
    forall i ensures Settled(s', i) {
      assert Settled(s, i);
    }
  }

  lemma InvInside(s: Client, a: ClientAction, s': Client)
    requires ClientInv(s) && RunNext(s, a, s')
    ensures ClientInv(s')
  {
    PipelineKept(s, a, s');
    forall i ensures Settled(s', i) {
      assert Settled(s, i);
    }
  }

  lemma ClientInvStep(s: Client, a: ClientAction, s': Client)
    requires ClientInv(s) && ClientNext(s, a, s')
    ensures ClientInv(s')
  {
    match a
    case Watcher(id, ca) => InvWatcher(s, id, ca, s');
    case Discover(id) => InvDiscover(s, id, s');
    case TakeStartup => InvTakeStartup(s, s');
    case _ => InvInside(s, a, s');
  }

  lemma ClientInvInit(s: Client)
    requires ClientInit(s)
    ensures ClientInv(s)
  {
    forall id | id in s.cws ensures CwInv(s.cws[id]) {
      CwInvInit(s.cws[id]);
    }
    forall i ensures Settled(s, i) {
      ShareFirst(map[], [], i);
      assert [First(s.snapshot)] + [] == [First(s.snapshot)];
      assert s.pending + s.outCh == [];
    }
  }

  lemma {:induction false} ClientInvRun(ss: seq<Client>, acts: seq<ClientAction>, i: nat)
    requires IsClientRun(ss, acts) && i < |ss|
    ensures ClientInv(ss[i])
  {
    if i == 0 {
      ClientInvInit(ss[0]);
    } else {
      ClientInvRun(ss, acts, i - 1);
      ClientInvStep(ss[i - 1], acts[i - 1], ss[i]);
    }
  }

  // ---- what a consumer of Changes sees

  // Nothing of this watcher's is on its way any more.
  predicate Forwarded(s: Client, id: nat) {
    Share(Laters(s.pending + s.outCh), id) == []
  }

  // Changes carries the snapshot first; then what it carries of one watcher
  // is, from the start and in order, what that watcher handed out.
  lemma InOrder(s: Client, id: nat)
    requires Settled(s, id) && !s.collecting
    ensures Unreceived(s.startupCh, id) + Share(s.changes, id) <= OutsOf(s, id)
    ensures Forwarded(s, id) ==> Unreceived(s.startupCh, id) + Share(s.changes, id) == OutsOf(s, id)
  {
    ShareConcat(s.changes, Laters(s.pending + s.outCh), id);
    var late, seen, rest := Unreceived(s.startupCh, id), Share(s.changes, id), Share(Laters(s.pending + s.outCh), id);
    assert late + (seen + rest) == (late + seen) + rest;
  }

  // End to end: in every reachable state, the opens and closes of a container
  // on Changes alternate per (stack, port); and once its connection has
  // nothing left to deliver, what is open is exactly what the container is
  // listening on. All this provided that no startup result of its own was
  // left unreceived.
  lemma EndToEnd(ss: seq<Client>, acts: seq<ClientAction>, i: nat, id: nat)
    requires IsClientRun(ss, acts) && i < |ss| && id in ss[i].cws
    requires !ss[i].collecting && Unreceived(ss[i].startupCh, id) == []
    ensures Alternates(Share(ss[i].changes, id))
    ensures Forwarded(ss[i], id) && Drained(ss[i].cws[id]) ==>
            OpenAfter(Share(ss[i].changes, id)) == Image(ss[i].cws[id].srv.current)
    ensures Forwarded(ss[i], id) && Drained(ss[i].cws[id]) ==>
            forall stack, port :: PortKey(stack, port) in OpenAfter(Share(ss[i].changes, id)) <==>
              exists l :: l in ss[i].cws[id].srv.current && l.stack == stack && l.port == port
  {
    ClientInvRun(ss, acts, i);
    assert Settled(ss[i], id) && CwInv(ss[i].cws[id]);
    InOrder(ss[i], id);
    SeesRight(ss[i].cws[id], Share(ss[i].changes, id));
    assert [] + Share(ss[i].changes, id) == Share(ss[i].changes, id);
    ImageIs(ss[i].cws[id].srv.current);
  }

  lemma SeesRight(c: Cw, seen: seq<Out>)
    requires CwInv(c)
    ensures seen <= c.outs ==> Alternates(seen)
    ensures seen == c.outs && Drained(c) ==> OpenAfter(seen) == Image(c.srv.current)
  {
    if seen <= c.outs {
      assert seen == c.outs[..|seen|];
      AlternatesPrefix(c.outs, |seen|);
    }
    if Drained(c) {
      DrainedIsCurrent(c);
    }
  }

  lemma ChangesInOrder(ss: seq<Client>, acts: seq<ClientAction>, i: nat)
    requires IsClientRun(ss, acts) && i < |ss|
    ensures ss[i].changes == [] || ss[i].changes[0].First?
    ensures forall k :: 1 <= k < |ss[i].changes| ==> ss[i].changes[k].Later?
    ensures !ss[i].collecting ==>
            forall id :: Unreceived(ss[i].startupCh, id) + Share(ss[i].changes, id) <= OutsOf(ss[i], id)
  {
    ClientInvRun(ss, acts, i);
    if !ss[i].collecting {
      forall id ensures Unreceived(ss[i].startupCh, id) + Share(ss[i].changes, id) <= OutsOf(ss[i], id) {
        assert Settled(ss[i], id);
        InOrder(ss[i], id);
      }
    }
  }

  // ---- what is handed out can be forwarded, and the view brought up to date

  ghost predicate ClientPath(ss: seq<Client>, acts: seq<ClientAction>) {
    Seqs.Chain(ClientNext, ss, acts)
  }

  predicate NoDeadline(acts: seq<ClientAction>) {
    forall a :: a in acts ==> !a.Deadline?
  }

  // Once the snapshot is out, run can forward all it has: Changes then goes on
  // with what was pending and what was in outCh, in that order.
  lemma {:induction false} CanForward(s: Client) returns (ss: seq<Client>, acts: seq<ClientAction>)
    requires !s.collecting
    ensures ClientPath(ss, acts) && ss[0] == s && forall a :: a in acts ==> a.Flush? || a.Forward?
    ensures ss[|acts|] == s.(pending := [], outCh := [], changes := s.changes + Laters(s.pending + s.outCh))
    decreases |s.pending| + |s.outCh|
  {
    if s.pending == [] && s.outCh == [] {
      Seqs.Unit(s.changes);
      ss, acts := [s], [];
    } else {
      var a := if s.pending != [] then Flush else Forward;
      var b := if s.pending != [] then s.pending[0] else s.outCh[0];
      var s' := if s.pending != [] then s.(pending := s.pending[1..], changes := s.changes + [Later(b.0, b.1)])
                else s.(outCh := s.outCh[1..], changes := s.changes + [Later(b.0, b.1)]);
      assert s.pending + s.outCh == [b] + (s'.pending + s'.outCh);
      LatersOne(s'.pending + s'.outCh, b);
      Seqs.Assoc(s.changes, [Later(b.0, b.1)], Laters(s'.pending + s'.outCh));
      ss, acts := CanForward(s');
      Seqs.ChainOne(ClientNext, s, a, ss, acts);
      ss, acts := [s] + ss, [a] + acts;
    }
  }

  // What the watcher has to hand over goes through when there is room.
  lemma CanHandOver(s: Client, id: nat, a: CwAction, c': Cw) returns (s': Client)
    requires !s.collecting && s.outCh == [] && id in s.cws && CwNext(s.cws[id], a, c')
    requires c'.outs == s.cws[id].outs || c'.outs != []
    ensures ClientNext(s, Watcher(id, a), s') && !s'.collecting && id in s'.cws && s'.cws[id] == c'
  {
    if c'.outs == s.cws[id].outs {
      s' := s.(cws := s.cws[id := c']);
    } else {
      var o := c'.outs[|c'.outs| - 1];
      s' := Handed(s, id, o).(cws := s.cws[id := c']);
    }
  }

  ghost predicate LiveIn(s: Client, id: nat) {
    !s.collecting && id in s.cws && Live(s.cws[id]) && CwInv(s.cws[id])
  }

  ghost predicate UpToDate(s: Client, id: nat) {
    !s.collecting && id in s.cws && Drained(s.cws[id]) && Forwarded(s, id)
  }

  function Current(s: Client, id: nat): set<Listen>
    requires id in s.cws
  {
    s.cws[id].srv.current
  }

  lemma StepIsPath(s: Client, a: ClientAction, s': Client)
    requires ClientNext(s, a, s')
    ensures ClientPath([s, s'], [a])
  {
  }

  lemma CanTakeOver(s: Client, id: nat) returns (a: CwAction, s': Client)
    requires LiveIn(s, id) && s.outCh == [] && !Drained(s.cws[id])
    ensures ClientPath([s, s'], [Watcher(id, a)])
    ensures LiveIn(s', id) && Backlog(s'.cws[id]) < Backlog(s.cws[id]) && Current(s', id) == Current(s, id)
  {
    var c';
    a, c' := CanDeliver(s.cws[id]);
    StepHandsOutOne(s.cws[id], a, c');
    CwInvStep(s.cws[id], a, c');
    s' := CanHandOver(s, id, a, c');
    StepIsPath(s, Watcher(id, a), s');
  }

  lemma CanForwardFor(s: Client, id: nat) returns (ss: seq<Client>, acts: seq<ClientAction>)
    requires LiveIn(s, id)
    ensures ClientPath(ss, acts) && ss[0] == s && NoDeadline(acts)
    ensures var s' := ss[|acts|]; s'.cws == s.cws && !s'.collecting && s'.outCh == [] && Forwarded(s', id)
  {
    ss, acts := CanForward(s);
  }

  lemma OneDelivery(s: Client, id: nat) returns (ss: seq<Client>, acts: seq<ClientAction>)
    requires LiveIn(s, id) && !Drained(s.cws[id])
    ensures ClientPath(ss, acts) && ss[0] == s && NoDeadline(acts)
    ensures var s' := ss[|acts|];
            LiveIn(s', id) && Backlog(s'.cws[id]) < Backlog(s.cws[id]) && Current(s', id) == Current(s, id)
  {
    ss, acts := CanForwardFor(s, id);
    var s1 := ss[|acts|];
    var a, s2 := CanTakeOver(s1, id);
    ss, acts := FollowedBy(ss, acts, [s1, s2], [Watcher(id, a)]);
  }

  // And so from every state past the snapshot: if a container's connection is
  // live, there is a way on, without any scan, to where everything of it has
  // been delivered and forwarded.
  lemma {:induction false} CanCatchUp(s: Client, id: nat) returns (ss: seq<Client>, acts: seq<ClientAction>)
    requires LiveIn(s, id)
    ensures ClientPath(ss, acts) && ss[0] == s && NoDeadline(acts)
    ensures UpToDate(ss[|acts|], id) && Current(ss[|acts|], id) == Current(s, id)
    decreases Backlog(s.cws[id])
  {
    if Drained(s.cws[id]) {
      ss, acts := CanForwardFor(s, id);
    } else {
      ss, acts := OneDelivery(s, id);
      var tt, bcts := CanCatchUp(ss[|acts|], id);
      ss, acts := FollowedBy(ss, acts, tt, bcts);
    }
  }

  lemma FollowedBy(ss: seq<Client>, acts: seq<ClientAction>, tt: seq<Client>, bcts: seq<ClientAction>)
    returns (all: seq<Client>, abs: seq<ClientAction>)
    requires ClientPath(ss, acts) && ClientPath(tt, bcts) && tt[0] == ss[|acts|]
    requires NoDeadline(acts) && NoDeadline(bcts)
    ensures ClientPath(all, abs) && all[0] == ss[0] && all[|abs|] == tt[|bcts|] && NoDeadline(abs)
  {
    Seqs.ChainOn(ClientNext, ss, acts, |acts|, tt, bcts);
    assert acts[..|acts|] == acts;
    all, abs := ss[..|acts|] + tt, acts + bcts;
  }

  // ---- when the startup deadline fires

  ghost predicate Lost(s: Client, id: nat) {
    var late := Unreceived(s.startupCh, id);
    late != [] && late[0] != Startup({})
  }

  lemma {:induction false} EdgesTail(o: Out, rest: seq<Out>, k: PortKey)
    ensures Edges([o] + rest, k) == Edges([o], k) + Edges(rest, k)
    decreases |rest|
  {
    if rest == [] {
      assert [o] + rest == [o];
    } else {
      assert ([o] + rest)[..|rest|] == [o] + rest[..|rest| - 1];
      EdgesTail(o, rest[..|rest| - 1], k);
    }
  }

  lemma {:induction false} EmptyHead(rest: seq<Out>)
    ensures Alternates([Startup({})] + rest) <==> Alternates(rest)
    ensures OpenAfter([Startup({})] + rest) == OpenAfter(rest)
    decreases |rest|
  {
    var none := Startup({});
    if rest == [] {
      assert [none] + rest == [] + [none];
      AlternatesOne([], none);
    } else {
      assert ([none] + rest)[..|rest|] == [none] + rest[..|rest| - 1];
      EmptyHead(rest[..|rest| - 1]);
    }
  }

  lemma Shifted(edges: seq<bool>)
    requires edges != [] && OpenCloseOpen([true] + edges)
    ensures !OpenCloseOpen(edges)
  {
    assert ([true] + edges)[1] == edges[0];
  }

  lemma KeyFacts(outs: seq<Out>, k: PortKey)
    requires Alternates(outs)
    ensures OpenCloseOpen(Edges(outs, k)) && (k in OpenAfter(outs) <==> |Edges(outs, k)| % 2 == 1)
  {
  }

  lemma OneEdge(ports: set<PortKey>, k: PortKey)
    requires k in ports
    ensures Edges([Startup(ports)], k) == [true]
  {
    assert [Startup(ports)][..0] == [];
  }

  // A missing startup result is either contradicted later, by a close of what
  // was never opened, or never made good.
  lemma MissingHead(ports: set<PortKey>, rest: seq<Out>)
    requires ports != {} && Alternates([Startup(ports)] + rest)
    ensures !(Alternates(rest) && OpenAfter(rest) == OpenAfter([Startup(ports)] + rest))
  {
    var k :| k in ports;
    KeyFacts([Startup(ports)] + rest, k);
    EdgesTail(Startup(ports), rest, k);
    OneEdge(ports, k);
    if Alternates(rest) {
      KeyFacts(rest, k);
      if Edges(rest, k) != [] {
        Shifted(Edges(rest, k));
      }
    }
  }

  // The documentation promises that a container too slow for the startup
  // snapshot shows up later in open events. It does not: its startup result
  // goes to a channel nobody reads. With everything else forwarded, the
  // consumer's view of it is right if and only if that result was empty or
  // was received.
  lemma ViewIffNotLost(ss: seq<Client>, acts: seq<ClientAction>, i: nat, id: nat)
    requires IsClientRun(ss, acts) && i < |ss| && id in ss[i].cws
    requires !ss[i].collecting && Forwarded(ss[i], id)
    ensures var seen := Share(ss[i].changes, id);
            Alternates(seen) && OpenAfter(seen) == OpenAfter(ss[i].cws[id].outs) <==> !Lost(ss[i], id)
  {
    ClientInvRun(ss, acts, i);
    var s := ss[i];
    InOrder(s, id);
    assert Settled(s, id) && CwInv(s.cws[id]);
    var late, seen := Unreceived(s.startupCh, id), Share(s.changes, id);
    if late == [] {
      assert [] + seen == seen;
    } else {
      assert late == [late[0]];
      UnreceivedStartup(s.startupCh, id);
      if late[0] == Startup({}) {
        EmptyHead(seen);
      } else {
        MissingHead(late[0].ports, seen);
      }
    }
  }

  lemma {:induction false} UnreceivedStartup(ch: seq<(nat, set<PortKey>)>, id: nat)
    ensures forall o :: o in Unreceived(ch, id) ==> o.Startup?
    decreases |ch|
  {
    if ch != [] {
      UnreceivedStartup(ch[..|ch| - 1], id);
    }
  }

  // ---- without the deadline nothing is lost

  // Who may still have a startup result to give, has given one, or has had it taken.
  ghost predicate StartupBooks(s: Client) {
    && s.snapshot.Keys <= s.initial
    && (forall x :: x in s.startupCh ==> x.0 in s.initial)
    && (forall id :: id in s.cws && s.cws[id].startup ==> id in s.initial)
  }

  ghost predicate NoneMissing(s: Client) {
    && (s.collecting ==> s.remaining + |s.snapshot| == |s.initial|)
    && (!s.collecting ==> s.snapshot.Keys == s.initial && s.startupCh == [])
  }

  lemma SameInitial(s: Client, a: ClientAction, s': Client)
    requires ClientNext(s, a, s')
    ensures s'.initial == s.initial
  {
  }

  lemma StartupKept(c: Cw, a: CwAction, c': Cw)
    requires CwNext(c, a, c')
    ensures c'.startup ==> c.startup
  {
  }

  lemma BooksHandsOver(s: Client, id: nat, c': Cw, s': Client)
    requires StartupBooks(s) && id in s.cws && HandsOver(s, id, c', s') && (c'.startup ==> s.cws[id].startup)
    requires AtMostOneMore(s.cws[id].startup, s.cws[id].outs, c'.outs)
    ensures StartupBooks(s')
  {
    if c'.outs != s.cws[id].outs {
      var o :| c'.outs == s.cws[id].outs + [o] && (o.Startup? ==> s.cws[id].startup && s.cws[id].outs == []);
      if o.Startup? {
        assert s'.startupCh == s.startupCh + [(id, o.ports)];
      }
    }
  }

  lemma BooksStep(s: Client, a: ClientAction, s': Client)
    requires AllWatched(s.cws) && StartupBooks(s) && ClientNext(s, a, s')
    ensures StartupBooks(s')
  {
    match a
    case Watcher(id, ca) =>
      WatcherStep(s, id, ca, s');
      StartupKept(s.cws[id], ca, s'.cws[id]);
      BooksHandsOver(s, id, s'.cws[id], s');
    case TakeStartup =>
      assert s.startupCh[0] in s.startupCh;
    case _ =>
  }

  lemma InSnapshotHasOuts(s: Client, id: nat)
    requires Settled(s, id) && ChangesShape(s) && !s.collecting && id in s.snapshot
    ensures OutsOf(s, id) != []
  {
    var late := Laters(s.pending + s.outCh);
    HeadAndRest(s.changes);
    Seqs.Assoc([First(s.snapshot)], s.changes[1..], late);
    ShareFirst(s.snapshot, s.changes[1..] + late, id);
  }

  lemma HeadAndRest(items: seq<Item>)
    requires items != []
    ensures items == [items[0]] + items[1..]
  {
  }

  // After the snapshot has gone out complete, no watcher has a callback left to fire.
  lemma NoLateStartup(s: Client, id: nat, c': Cw, s': Client)
    requires StartupBooks(s) && NoneMissing(s) && !s.collecting
    requires id in s.cws && HandsOver(s, id, c', s') && AtMostOneMore(s.cws[id].startup, s.cws[id].outs, c'.outs)
    requires s.cws[id].outs == [] ==> id !in s.snapshot
    ensures s'.startupCh == []
  {
    if c'.outs != s.cws[id].outs {
      var o :| c'.outs == s.cws[id].outs + [o] && (o.Startup? ==> s.cws[id].startup && s.cws[id].outs == []);
      assert o.Emit?;
    }
  }

  lemma SubsetOfSameSize<T>(a: set<T>, b: set<T>)
    requires a <= b && |a| == |b|
    ensures a == b
  {
    assert |b| == |a| + |b - a| by {
      assert b == a + (b - a);
    }
    assert b - a == {};
  }

  lemma NoneMissingWatcher(s: Client, id: nat, a: CwAction, s': Client)
    requires ClientInv(s) && StartupBooks(s) && NoneMissing(s) && WatcherNext(s, id, a, s')
    ensures NoneMissing(s')
  {
    WatcherStep(s, id, a, s');
    if !s.collecting {
      assert Settled(s, id);
      if id in s.snapshot {
        InSnapshotHasOuts(s, id);
      }
      NoLateStartup(s, id, s'.cws[id], s');
    }
  }

  // Nobody's result is both waiting and taken.
  lemma WaitingNotTaken(s: Client)
    requires ClientInv(s) && s.collecting && s.startupCh != []
    ensures s.startupCh[0].0 !in s.snapshot
  {
    var x := s.startupCh[0];
    assert s.startupCh == [x] + s.startupCh[1..];
    UnreceivedFirst(x, s.startupCh[1..], x.0);
    assert Settled(s, x.0);
  }

  lemma NoneMissingRun(s: Client, a: ClientAction, s': Client)
    requires ClientInv(s) && StartupBooks(s) && NoneMissing(s)
    requires (TakeStartupNext(s, s') || RunNext(s, a, s')) && !a.Deadline?
    ensures NoneMissing(s')
  {
    if s.collecting && s.startupCh != [] {
      WaitingNotTaken(s);
      assert s.startupCh[0] in s.startupCh;
    }
    if !s'.collecting && s.collecting {
      assert |s.snapshot.Keys| == |s.snapshot|;
      SubsetOfSameSize(s.snapshot.Keys, s.initial);
    }
    if TakeStartupNext(s, s') {
      assert s'.snapshot.Keys == s.snapshot.Keys + {s.startupCh[0].0};
    }
  }

  lemma NoneMissingStep(s: Client, a: ClientAction, s': Client)
    requires ClientInv(s) && StartupBooks(s) && NoneMissing(s) && ClientNext(s, a, s') && !a.Deadline?
    ensures NoneMissing(s')
  {
    if a.Watcher? {
      NoneMissingWatcher(s, a.id, a.a, s');
    } else if !a.Discover? {
      NoneMissingRun(s, a, s');
    }
  }

  lemma {:induction false} BooksRun(ss: seq<Client>, acts: seq<ClientAction>, i: nat)
    requires IsClientRun(ss, acts) && i < |ss|
    ensures StartupBooks(ss[i]) && ss[i].initial == ss[0].initial
  {
    if i > 0 {
      BooksRun(ss, acts, i - 1);
      ClientInvRun(ss, acts, i - 1);
      assert ClientNext(ss[i - 1], acts[i - 1], ss[i]);
      SameInitial(ss[i - 1], acts[i - 1], ss[i]);
      BooksStep(ss[i - 1], acts[i - 1], ss[i]);
    }
  }

  // If the deadline has not fired, no startup result is ever left behind, and
  // the snapshot covers every container found at startup: EndToEnd applies.
  lemma {:induction false} NoDeadlineNoLoss(ss: seq<Client>, acts: seq<ClientAction>, i: nat)
    requires IsClientRun(ss, acts) && i < |ss|
    requires forall k :: 0 <= k < i ==> !acts[k].Deadline?
    ensures NoneMissing(ss[i])
    ensures !ss[i].collecting ==>
            ss[i].snapshot.Keys == ss[0].initial && forall id :: Unreceived(ss[i].startupCh, id) == []
  {
    BooksRun(ss, acts, i);
    if i > 0 {
      NoDeadlineNoLoss(ss, acts, i - 1);
      BooksRun(ss, acts, i - 1);
      ClientInvRun(ss, acts, i - 1);
      NoneMissingStep(ss[i - 1], acts[i - 1], ss[i]);
    }
  }

  // With or without the deadline, startup results never outnumber the room
  // made for them, so sending one never blocks a watcher.
  lemma StartupNeverBlocks(ss: seq<Client>, acts: seq<ClientAction>, i: nat)
    requires IsClientRun(ss, acts) && i < |ss|
    ensures |ss[i].startupCh| <= |ss[0].initial|
  {
    BooksRun(ss, acts, i);
    ClientInvRun(ss, acts, i);
    forall id ensures |Unreceived(ss[i].startupCh, id)| <= 1 {
      assert Settled(ss[i], id);
    }
    AtMostOneEach(ss[i].startupCh, ss[0].initial);
  }

  lemma {:induction false} AtMostOneEach(ch: seq<(nat, set<PortKey>)>, ids: set<nat>)
    requires forall id :: |Unreceived(ch, id)| <= 1
    requires forall x :: x in ch ==> x.0 in ids
    ensures |ch| <= |ids|
    decreases |ch|
  {
    if ch != [] {
      var x, rest := ch[0], ch[1..];
      assert ch == [x] + rest;
      forall id ensures |Unreceived(rest, id)| <= 1 && (id == x.0 ==> Unreceived(rest, id) == []) {
        UnreceivedFirst(x, rest, id);
        assert |Unreceived(ch, id)| <= 1;
      }
      forall y | y in rest ensures y.0 in ids - {x.0} {
        HasUnreceived(rest, y);
        assert y in ch;
      }
      assert x in ch;
      AtMostOneEach(rest, ids - {x.0});
    }
  }

  lemma {:induction false} HasUnreceived(ch: seq<(nat, set<PortKey>)>, x: (nat, set<PortKey>))
    requires x in ch
    ensures Unreceived(ch, x.0) != []
    decreases |ch|
  {
    if ch[|ch| - 1] != x {
      HasUnreceived(ch[..|ch| - 1], x);
    }
  }

  // ---- and the consumer's view can always be brought up to date

  lemma Continued(ss: seq<Client>, acts: seq<ClientAction>, i: nat, tt: seq<Client>, bcts: seq<ClientAction>)
    returns (all: seq<Client>, abs: seq<ClientAction>)
    requires IsClientRun(ss, acts) && i < |ss| && ClientPath(tt, bcts) && tt[0] == ss[i]
    ensures IsClientRun(all, abs) && i < |all| && all[..i + 1] == ss[..i + 1] && abs == acts[..i] + bcts
    ensures all[|abs|] == tt[|bcts|]
  {
    RunIsPath(ss, acts);
    Seqs.ChainOn(ClientNext, ss, acts, i, tt, bcts);
    all, abs := ss[..i] + tt, acts[..i] + bcts;
    assert all[..i + 1][0] == ss[..i + 1][0];
    RunIsPath(all, abs);
  }

  lemma RunIsPath(ss: seq<Client>, acts: seq<ClientAction>)
    ensures IsClientRun(ss, acts) <==> ClientPath(ss, acts) && ClientInit(ss[0])
  {
  }

  lemma UpToDateSees(ss: seq<Client>, acts: seq<ClientAction>, id: nat)
    requires IsClientRun(ss, acts) && NoDeadline(acts) && UpToDate(ss[|acts|], id)
    ensures OpenAfter(Share(ss[|acts|].changes, id)) == Image(Current(ss[|acts|], id))
  {
    NoDeadlineNoLoss(ss, acts, |acts|);
    EndToEnd(ss, acts, |acts|, id);
  }

  // From every state reachable without the deadline, past the snapshot: if a
  // container's connection is live, the run can go on, without any scan, to
  // where Changes has open just what the container was listening on.
  lemma CatchesUp(ss: seq<Client>, acts: seq<ClientAction>, i: nat, id: nat)
    returns (all: seq<Client>, abs: seq<ClientAction>)
    requires IsClientRun(ss, acts) && i < |ss| && NoDeadline(acts[..i])
    requires !ss[i].collecting && id in ss[i].cws && Live(ss[i].cws[id])
    ensures IsClientRun(all, abs) && i < |all| && all[..i + 1] == ss[..i + 1]
    ensures OpenAfter(Share(all[|abs|].changes, id)) == Image(ss[i].cws[id].srv.current)
  {
    ClientInvRun(ss, acts, i);
    var tt, bcts := CanCatchUp(ss[i], id);
    all, abs := Continued(ss, acts, i, tt, bcts);
    assert NoDeadline(abs);
    UpToDateSees(all, abs, id);
  }
}
