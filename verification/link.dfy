// One container seen from the client: its listen watcher, the /watch
// connection to it, breaking and being made again at any moment, and the
// client's own watcher at the other end.
module Link {
  import opened Listens
  import Seqs
  import opened Stream
  import opened WatchModel
  import opened Ports

  // A connection in progress: subscription sub; what has been sent but not
  // yet read, namely snapshot adds, then the sync marker unless read, then
  // events; and the reader's locals.
  datatype Link =
    | Down(counts: map<PortKey, int>)
    | Up(sub: nat, adds: seq<Listen>, lines: seq<Event>, conn: Conn)

  // startup: the next connection has the startup callback. replica is what
  // the reader has been told, for the proof; no code keeps it.
  datatype Cw = Cw(srv: Watch<nat>, link: Link, startup: bool, stopped: bool, replica: set<Listen>, outs: seq<Out>) {
    function Counts(): map<PortKey, int> {
      match link case Down(counts) => counts case Up(_, _, _, conn) => conn.counts
    }
  }

  datatype CwAction =
    | Server(a: Action<nat>)
    | Connect(sub: nat, order: seq<Listen>)
    | ConnectFails
    | ReadAdd
    | ReadSync
    | ReadEvent
    | Disconnect
    | Reboot
    | Stop

  function AfterServer(l: Link, srv: Watch<nat>, a: Action<nat>): Link {
    if l.Up? && a == Take(l.sub) && l.sub in srv.subs && srv.subs[l.sub].queue != []
    then l.(lines := l.lines + [srv.subs[l.sub].queue[0]])
    else l
  }

  ghost predicate CwNext(c: Cw, a: CwAction, c': Cw) {
    match a
    case Server(wa) =>
      && Next(c.srv, wa, c'.srv)
      && c' == c.(srv := c'.srv, link := AfterServer(c.link, c.srv, wa))
    case Connect(sub, order) =>
      && c.link.Down? && !c.stopped
      && Next(c.srv, Subscribe(sub), c'.srv) && Lists(order, c'.srv.subs[sub].snapshot)
      && c' == c.(srv := c'.srv, link := Up(sub, order, [], Fresh(c.link.counts)))
    case ConnectFails =>
      c.link.Down? && !c.stopped && c' == c.(startup := false, outs := c.outs + AtExit(c.startup, Fresh(c.link.counts)))
    case ReadAdd =>
      && c.link.Up? && !c.link.conn.synced && c.link.adds != []
      && c' == Reads(c, Add(c.link.adds[0])).(link := Reads(c, Add(c.link.adds[0])).link.(adds := c.link.adds[1..]))
    case ReadSync =>
      && c.link.Up? && !c.link.conn.synced && c.link.adds == []
      && c' == Reads(c, Sync).(replica := c.link.conn.incoming)
    case ReadEvent =>
      && c.link.Up? && c.link.conn.synced && c.link.lines != []
      && c' == Reads(c, c.link.lines[0]).(link := Reads(c, c.link.lines[0]).link.(lines := c.link.lines[1..]),
           replica := Apply(c.replica, c.link.lines[0]))
    case Disconnect =>
      && c.link.Up?
      && c' == c.(link := Down(c.link.conn.counts), startup := false, outs := c.outs + AtExit(c.startup, c.link.conn))
    // The container starts anew behind the same socket, its watcher with it.
    // The connection has ended before, with the server it was to.
    case Reboot =>
      c.link.Down? && WatchModel.Init(c'.srv) && c' == c.(srv := c'.srv)
    case Stop =>
      && c.link.Down? && !c.stopped
      && c' == c.(link := Down(map[]), stopped := true, replica := {},
                  outs := c.outs + if c.link.counts == map[] then [] else [Emit(Batch({}, c.link.counts.Keys))])
  }

  // The reader takes one line.
  function Reads(c: Cw, e: Event): Cw
    requires c.link.Up?
  {
    var (conn, more) := OnEvent(c.startup, c.link.conn, e);
    c.(link := c.link.(conn := conn), outs := c.outs + more)
  }

  ghost predicate CwInit(c: Cw) {
    WatchModel.Init(c.srv) && c.link == Down(map[]) && !c.stopped && c.replica == {} && c.outs == []
  }

  // ---- the invariant

  ghost predicate LinkInv(c: Cw)
    requires c.link.Up?
  {
    var Up(id, adds, lines, conn) := c.link;
    && id in c.srv.subs
    && var sub := c.srv.subs[id];
    if conn.synced then
      && adds == [] && |lines| <= |sub.taken|
      && lines == sub.taken[|sub.taken| - |lines|..]
      && c.replica == Replay(sub.snapshot, sub.taken[..|sub.taken| - |lines|])
    else
      conn.incoming + Elems(adds) == sub.snapshot && lines == sub.taken && !conn.fired
  }

  ghost predicate CwInv(c: Cw) {
    && Inv(c.srv)
    && InStep(c.Counts(), c.replica, c.outs)
    && (c.startup && c.link.Down? ==> c.outs == [])
    && (c.startup && c.link.Up? ==> c.link.conn.fired == c.link.conn.synced && (!c.link.conn.synced ==> c.outs == []))
    && (c.link.Up? ==> LinkInv(c) && !c.stopped)
  }

  lemma ServerKeepsSub(w: Watch<nat>, a: Action<nat>, w': Watch<nat>, id: nat)
    requires Next(w, a, w') && id in w.subs
    ensures id in w'.subs
    ensures w'.subs[id].snapshot == w.subs[id].snapshot
    ensures w'.subs[id].taken == if a == Take(id) then w.subs[id].taken + [w.subs[id].queue[0]] else w.subs[id].taken
  {
  }

  lemma CwInvServer(c: Cw, a: Action<nat>, c': Cw)
    requires CwInv(c) && CwNext(c, Server(a), c')
    ensures CwInv(c')
  {
    InvStep(c.srv, a, c'.srv);
    if c.link.Up? {
      LinkServer(c, a, c');
    }
  }

  lemma LinkServer(c: Cw, a: Action<nat>, c': Cw)
    requires c.link.Up? && LinkInv(c) && CwNext(c, Server(a), c')
    ensures LinkInv(c') && c'.link.conn == c.link.conn
  {
    ServerKeepsSub(c.srv, a, c'.srv, c.link.sub);
    var taken, taken' := c.srv.subs[c.link.sub].taken, c'.srv.subs[c.link.sub].taken;
    if c.link.conn.synced && a == Take(c.link.sub) {
      var n := |taken| - |c.link.lines|;
      assert taken'[..n] == taken[..n];
      assert taken'[n..] == taken[n..] + [taken'[|taken|]];
    }
  }

  lemma CwInvConnect(c: Cw, sub: nat, order: seq<Listen>, c': Cw)
    requires CwInv(c) && CwNext(c, Connect(sub, order), c')
    ensures CwInv(c')
  {
    InvStep(c.srv, Subscribe(sub), c'.srv);
    assert {} + Elems(order) == c'.srv.subs[sub].snapshot;
  }

  // A connection that ends before its sync marker leaves all as it was, but
  // for the callback.
  lemma ExitInStep(startup: bool, conn: Conn, replica: set<Listen>, outs: seq<Out>)
    requires InStep(conn.counts, replica, outs)
    requires startup ==> conn.fired || outs == []
    ensures InStep(conn.counts, replica, outs + AtExit(startup, conn))
  {
    if startup && !conn.fired {
      AlternatesOne([], Startup({}));
      assert outs + [Startup({})] == [] + [Startup({})];
    } else {
      assert outs + [] == outs;
    }
  }

  lemma CwInvExit(c: Cw, a: CwAction, c': Cw)
    requires CwInv(c) && CwNext(c, a, c') && (a.ConnectFails? || a.Disconnect?)
    ensures CwInv(c')
  {
    if a.ConnectFails? {
      ExitInStep(c.startup, Fresh(c.link.counts), c.replica, c.outs);
    } else {
      ExitInStep(c.startup, c.link.conn, c.replica, c.outs);
    }
  }

  lemma CwInvReboot(c: Cw, c': Cw)
    requires CwInv(c) && CwNext(c, Reboot, c')
    ensures CwInv(c')
  {
    assert c'.srv.log == [];
  }

  lemma CwInvStop(c: Cw, c': Cw)
    requires CwInv(c) && CwNext(c, Stop, c')
    ensures CwInv(c')
  {
    InStepClosed(c.link.counts, c.replica, c.outs);
  }

  lemma CwInvReadAdd(c: Cw, c': Cw)
    requires CwInv(c) && CwNext(c, ReadAdd, c')
    ensures CwInv(c')
  {
    TakeFirst(c.link.conn.incoming, c.link.adds);
    InStepNone(c.link.conn.counts, c.replica, c.outs);
  }

  lemma TakeFirst(taken: set<Listen>, adds: seq<Listen>)
    requires adds != []
    ensures taken + {adds[0]} + Elems(adds[1..]) == taken + Elems(adds)
  {
    assert adds == [adds[0]] + adds[1..];
  }

  lemma CwInvReadSync(c: Cw, c': Cw)
    requires CwInv(c) && CwNext(c, ReadSync, c')
    ensures CwInv(c')
  {
    SyncStep(c.startup, c.link.conn, c.replica, c.outs);
    var taken := c.srv.subs[c.link.sub].taken;
    assert taken[0..] == taken && taken[..0] == [];
    assert Elems([]) == {};
    assert c.link.conn.incoming == c.srv.subs[c.link.sub].snapshot;
  }

  lemma CwInvReadEvent(c: Cw, c': Cw)
    requires CwInv(c) && CwNext(c, ReadEvent, c')
    ensures CwInv(c')
  {
    NextLineIsNews(c);
    SyncedStep(c.startup, c.link.conn, c.replica, c.outs, c.link.lines[0]);
    SentIsExact(c.srv, c.link.sub);
    LinkReadEvent(c, c');
  }

  lemma SentIsExact(w: Watch<nat>, id: nat)
    requires Inv(w) && id in w.subs
    ensures Exact(w.subs[id].snapshot, w.subs[id].Sent())
  {
    LogIsExact(w);
    SubReplays(w.subs[id], w.log, 0);
  }

  lemma NextLineIsNews(c: Cw)
    requires Inv(c.srv) && c.link.Up? && LinkInv(c) && c.link.conn.synced && c.link.lines != []
    ensures News(c.replica, c.link.lines[0])
  {
    var sub := c.srv.subs[c.link.sub];
    SentIsExact(c.srv, c.link.sub);
    ReadOn(sub.snapshot, sub.taken, sub.queue, c.link.lines);
  }

  lemma LinkReadEvent(c: Cw, c': Cw)
    requires c.link.Up? && LinkInv(c) && c.link.conn.synced && c.link.lines != []
    requires Exact(c.srv.subs[c.link.sub].snapshot, c.srv.subs[c.link.sub].Sent())
    requires c'.srv == c.srv && c'.link.Up? && c'.link.sub == c.link.sub && c'.link.adds == c.link.adds
    requires c'.link.lines == c.link.lines[1..] && c'.link.conn.synced
    requires c'.replica == Apply(c.replica, c.link.lines[0])
    ensures LinkInv(c')
  {
    var sub := c.srv.subs[c.link.sub];
    ReadOn(sub.snapshot, sub.taken, sub.queue, c.link.lines);
  }

  // Reading the next of the lines that a subscriber has taken and not yet
  // handled: it is news to what the subscriber holds.
  lemma ReadOn(s: set<Listen>, taken: seq<Event>, queue: seq<Event>, lines: seq<Event>)
    requires Exact(s, taken + queue) && 0 < |lines| <= |taken| && lines == taken[|taken| - |lines|..]
    ensures var n := |taken| - |lines|;
            && News(Replay(s, taken[..n]), lines[0])
            && Apply(Replay(s, taken[..n]), lines[0]) == Replay(s, taken[..n + 1])
            && lines[1..] == taken[n + 1..]
  {
    var n := |taken| - |lines|;
    Seqs.Tail(taken, n);
    TakenIsNews(s, taken, queue, n);
  }

  lemma TakenIsNews(s: set<Listen>, taken: seq<Event>, queue: seq<Event>, n: nat)
    requires Exact(s, taken + queue) && n < |taken|
    ensures News(Replay(s, taken[..n]), taken[n])
    ensures Replay(s, taken[..n + 1]) == Apply(Replay(s, taken[..n]), taken[n])
  {
    assert (taken + queue)[..n] == taken[..n];
    assert taken[..n + 1] == taken[..n] + [taken[n]];
    ReplayOne(s, taken[..n], taken[n]);
  }

  lemma CwInvStep(c: Cw, a: CwAction, c': Cw)
    requires CwInv(c) && CwNext(c, a, c')
    ensures CwInv(c')
  {
    match a
    case Server(wa) => CwInvServer(c, wa, c');
    case Connect(sub, order) => CwInvConnect(c, sub, order, c');
    case ReadAdd => CwInvReadAdd(c, c');
    case ReadSync => CwInvReadSync(c, c');
    case ReadEvent => CwInvReadEvent(c, c');
    case Reboot => CwInvReboot(c, c');
    case Stop => CwInvStop(c, c');
    case _ => CwInvExit(c, a, c');
  }

  lemma CwInvInit(c: Cw)
    requires CwInit(c)
    ensures CwInv(c)
  {
    assert c.srv.log == [];
  }

  // ---- what follows

  ghost predicate Drained(c: Cw) {
    && c.link.Up? && c.link.conn.synced && c.link.lines == []
    && c.link.sub in c.srv.subs && c.srv.scan.Idle? && !c.srv.subs[c.link.sub].closed
    && c.srv.subs[c.link.sub].queue == []
  }

  // With nothing left on the way, the client has open just what the container
  // is listening on.
  lemma DrainedIsCurrent(c: Cw)
    requires CwInv(c) && Drained(c)
    ensures OpenAfter(c.outs) == Image(c.srv.current)
    ensures c.Counts() == CountMap(c.srv.current)
  {
    var sub := c.srv.subs[c.link.sub];
    LiveSubReplays(sub, c.srv.log);
    assert sub.Sent() == sub.taken;
    assert sub.taken[..|sub.taken|] == sub.taken;
  }

  // A port is open just if the container listens on it in that stack, at
  // whatever address and in whatever protocol; and the count is of how many do.
  lemma DrainedPort(c: Cw, stack: Stack, port: Port)
    requires CwInv(c) && Drained(c)
    ensures PortKey(stack, port) in OpenAfter(c.outs) <==>
            exists l :: l in c.srv.current && l.stack == stack && l.port == port
    ensures Count(c.Counts(), PortKey(stack, port)) ==
            |set l | l in c.srv.current && l.stack == stack && l.port == port|
  {
    DrainedIsCurrent(c);
    CountIs(c.srv.current, stack, port);
  }

  // ---- it can be drained

  // The connection is up, its subscriber has not been dropped, and no scan is on.
  ghost predicate Live(c: Cw) {
    c.link.Up? && c.link.sub in c.srv.subs && !c.srv.subs[c.link.sub].closed && c.srv.scan.Idle?
  }

  function Backlog(c: Cw): nat
    requires c.link.Up? && c.link.sub in c.srv.subs
  {
    2 * |c.srv.subs[c.link.sub].queue| + |c.link.lines| + |c.link.adds| + if c.link.conn.synced then 0 else 1
  }

  predicate Delivers(a: CwAction, sub: nat) {
    a == Server(Take(sub)) || a.ReadAdd? || a.ReadSync? || a.ReadEvent?
  }

  // As long as anything is on the way, something can be delivered.
  lemma CanDeliver(c: Cw) returns (a: CwAction, c': Cw)
    requires Live(c) && !Drained(c)
    ensures CwNext(c, a, c') && Delivers(a, c.link.sub)
    ensures Live(c') && c'.link.sub == c.link.sub && Backlog(c') < Backlog(c) && c'.srv.current == c.srv.current
  {
    var id := c.link.sub;
    if c.srv.subs[id].queue != [] {
      a := Server(Take(id));
      c' := c.(srv := Took(c.srv, id), link := AfterServer(c.link, c.srv, Take(id)));
    } else if !c.link.conn.synced && c.link.adds != [] {
      a := ReadAdd;
      c' := Reads(c, Add(c.link.adds[0]));
      c' := c'.(link := c'.link.(adds := c.link.adds[1..]));
    } else if !c.link.conn.synced {
      a := ReadSync;
      c' := Reads(c, Sync).(replica := c.link.conn.incoming);
    } else {
      a := ReadEvent;
      c' := Reads(c, c.link.lines[0]);
      c' := c'.(link := c'.link.(lines := c.link.lines[1..]), replica := Apply(c.replica, c.link.lines[0]));
    }
  }

  ghost predicate CwPath(cs: seq<Cw>, acts: seq<CwAction>) {
    |cs| == |acts| + 1 && forall i :: 0 <= i < |acts| ==> CwNext(cs[i], acts[i], cs[i + 1])
  }

  // From every such state, delivering what is on the way drains the connection.
  lemma {:induction false} CanDrain(c: Cw) returns (cs: seq<Cw>, acts: seq<CwAction>)
    requires Live(c)
    ensures CwPath(cs, acts) && cs[0] == c && forall a :: a in acts ==> Delivers(a, c.link.sub)
    ensures Drained(cs[|acts|]) && cs[|acts|].srv.current == c.srv.current
    decreases Backlog(c)
  {
    if Drained(c) {
      cs, acts := [c], [];
    } else {
      var a, c' := CanDeliver(c);
      cs, acts := CanDrain(c');
      cs, acts := [c] + cs, [a] + acts;
    }
  }

  // ---- one thing at a time

  // What is handed out when one thing at most is, a startup callback's only as
  // the first of all.
  ghost predicate AtMostOneMore(startup: bool, outs: seq<Out>, outs': seq<Out>) {
    outs' == outs || exists o :: outs' == outs + [o] && (o.Startup? ==> startup && outs == [])
  }

  lemma OneMore(startup: bool, outs: seq<Out>, more: seq<Out>)
    requires |more| <= 1 && (more != [] && more[0].Startup? ==> startup && outs == [])
    ensures AtMostOneMore(startup, outs, outs + more)
  {
    if more == [] {
      assert outs + more == outs;
    } else {
      assert more == [more[0]];
    }
  }

  lemma OutsOfOne(startup: bool, c: Conn, e: Event)
    ensures |OnEvent(startup, c, e).1| <= 1
    ensures forall o :: o in OnEvent(startup, c, e).1 && o.Startup? ==> e.Sync? && startup && !c.fired
  {
  }

  lemma NextLineIsNoSync(c: Cw)
    requires Inv(c.srv) && c.link.Up? && LinkInv(c) && c.link.conn.synced && c.link.lines != []
    ensures !c.link.lines[0].Sync?
  {
    var sub := c.srv.subs[c.link.sub];
    NextLineIsNews(c);
  }

  // Every step of a watcher hands out one thing at most.
  lemma StepHandsOutOne(c: Cw, a: CwAction, c': Cw)
    requires CwInv(c) && CwNext(c, a, c')
    ensures AtMostOneMore(c.startup, c.outs, c'.outs)
  {
    match a
    case Server(wa) =>
    case Connect(sub, order) =>
    case ConnectFails => OneMore(c.startup, c.outs, AtExit(c.startup, Fresh(c.link.counts)));
    case ReadAdd => ReadHandsOutOne(c, Add(c.link.adds[0]));
    case ReadSync => ReadHandsOutOne(c, Sync);
    case ReadEvent => NextLineIsNoSync(c); ReadHandsOutOne(c, c.link.lines[0]);
    case Disconnect => OneMore(c.startup, c.outs, AtExit(c.startup, c.link.conn));
    case Reboot =>
    case Stop =>
      OneMore(c.startup, c.outs, if c.link.counts == map[] then [] else [Emit(Batch({}, c.link.counts.Keys))]);
  }

  lemma ReadHandsOutOne(c: Cw, e: Event)
    requires c.link.Up? && (c.startup && e.Sync? && !c.link.conn.fired ==> c.outs == [])
    ensures AtMostOneMore(c.startup, c.outs, c.outs + OnEvent(c.startup, c.link.conn, e).1)
  {
    OutsOfOne(c.startup, c.link.conn, e);
    OneMore(c.startup, c.outs, OnEvent(c.startup, c.link.conn, e).1);
  }
}
