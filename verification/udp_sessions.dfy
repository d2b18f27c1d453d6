// The session table of a UDP proxy: the reader that opens sessions, a return
// loop for each, and the reaper.
module UdpSessions {

  // Seconds a session may be idle, and seconds between sweeps.
  const IDLE := 120
  const SWEEP := 30

  // A return loop: forwarding; out of its loop and about to take its session
  // off the table; about to close the tunnel; over.
  datatype Loop = Forwarding | Evicting | Closing | Ended

  datatype Session = Session(key: string, lastActive: int, tunnelOpen: bool, loop: Loop)

  // The reader: in ReadFrom; writing a datagram to a session's tunnel; after a
  // failed write, about to take the session off the table, then to close it; over.
  datatype Reader = Reading | Writing(id: nat) | WriteFailed(id: nat) | Dropping(id: nat) | Stopped

  // A sweep holds the lock; todo are the keys it has yet to look at.
  datatype Reaper = Sleeping | Sweeping(cutoff: int, todo: set<string>) | Gone

  // sessions: every session ever opened, by number.
  datatype Udp = Udp(now: int, lastSweep: int, table: map<string, nat>, sessions: map<nat, Session>, reader: Reader,
      reaper: Reaper)

  datatype Action =
    | Tick(seconds: nat)
    | ReadKnown(key: string)
    | ReadNew(key: string, id: nat)
    | WriteWorks
    | WriteBreaks
    | DropEntry
    | DropTunnel
    | ReadBreaks
    | LoopForwards(id: nat)
    | LoopBreaks(id: nat)
    | LoopEvicts(id: nat)
    | LoopCloses(id: nat)
    | SweepBegins
    | SweepLooks(key: string)
    | SweepEnds
    | ReaperLeaves

  predicate Unlocked(s: Udp) {
    !s.reaper.Sweeping?
  }

  function Touched(s: Udp, id: nat): Udp
    requires id in s.sessions
  {
    s.(sessions := s.sessions[id := s.sessions[id].(lastActive := s.now)])
  }

  function TunnelClosed(s: Udp, id: nat): Udp
    requires id in s.sessions
  {
    s.(sessions := s.sessions[id := s.sessions[id].(tunnelOpen := false)])
  }

  function InLoop(s: Udp, id: nat, loop: Loop): Udp
    requires id in s.sessions
  {
    s.(sessions := s.sessions[id := s.sessions[id].(loop := loop)])
  }

  // Takes the session off the table unless its key is another's by now.
  function Evicted(s: Udp, id: nat): Udp
    requires id in s.sessions
  {
    var key := s.sessions[id].key;
    if key in s.table && s.table[key] == id then s.(table := s.table - {key}) else s
  }

  // Closes every tunnel on the table.
  function AllClosed(s: Udp): Udp {
    s.(sessions := map id | id in s.sessions ::
                     if id in s.table.Values then s.sessions[id].(tunnelOpen := false) else s.sessions[id])
  }

  ghost predicate Next(s: Udp, a: Action, s': Udp) {
    match a
    // Sweeps come on time and take none.
    case Tick(n) =>
      && Unlocked(s) && (s.reaper.Sleeping? ==> s.now + n <= s.lastSweep + SWEEP)
      && s' == s.(now := s.now + n)
    case ReadKnown(key) =>
      && s.reader.Reading? && Unlocked(s) && key in s.table && s.table[key] in s.sessions
      && s' == Touched(s, s.table[key]).(reader := Writing(s.table[key]))
    case ReadNew(key, id) =>
      && s.reader.Reading? && Unlocked(s) && key !in s.table && id !in s.sessions
      && s' == s.(table := s.table[key := id], sessions := s.sessions[id := Session(key, s.now, true, Forwarding)],
           reader := Writing(id))
    case WriteWorks => s.reader.Writing? && s' == s.(reader := Reading)
    case WriteBreaks => s.reader.Writing? && s' == s.(reader := WriteFailed(s.reader.id))
    case DropEntry =>
      && s.reader.WriteFailed? && Unlocked(s) && s.reader.id in s.sessions
      && s' == Evicted(s, s.reader.id).(reader := Dropping(s.reader.id))
    case DropTunnel =>
      s.reader.Dropping? && s.reader.id in s.sessions && s' == TunnelClosed(s, s.reader.id).(reader := Reading)
    case ReadBreaks =>
      s.reader.Reading? && Unlocked(s) && s' == AllClosed(s).(reader := Stopped)
    case LoopForwards(id) =>
      id in s.sessions && s.sessions[id].loop.Forwarding? && s' == Touched(s, id)
    case LoopBreaks(id) =>
      id in s.sessions && s.sessions[id].loop.Forwarding? && s' == InLoop(s, id, Evicting)
    case LoopEvicts(id) =>
      && id in s.sessions && s.sessions[id].loop.Evicting? && Unlocked(s)
      && s' == InLoop(Evicted(s, id), id, Closing)
    case LoopCloses(id) =>
      id in s.sessions && s.sessions[id].loop.Closing? && s' == InLoop(TunnelClosed(s, id), id, Ended)
    case SweepBegins =>
      && s.reaper.Sleeping? && s.now == s.lastSweep + SWEEP
      && s' == s.(reaper := Sweeping(s.now - IDLE, s.table.Keys))
    case SweepLooks(key) =>
      && s.reaper.Sweeping? && key in s.reaper.todo && key in s.table && s.table[key] in s.sessions
      && s' == (if s.sessions[s.table[key]].lastActive < s.reaper.cutoff
                then TunnelClosed(s, s.table[key]).(table := s.table - {key}) else s)
               .(reaper := s.reaper.(todo := s.reaper.todo - {key}))
    case SweepEnds =>
      s.reaper.Sweeping? && s.reaper.todo == {} && s' == s.(reaper := Sleeping, lastSweep := s.now)
    case ReaperLeaves =>
      s.reaper.Sleeping? && s' == s.(reaper := Gone)
  }

  ghost predicate Init(s: Udp) {
    s == Udp(s.now, s.now, map[], map[], Reading, Sleeping)
  }

  ghost predicate IsRun(ss: seq<Udp>, acts: seq<Action>) {
    && |ss| == |acts| + 1 && Init(ss[0])
    && forall i :: 0 <= i < |acts| ==> Next(ss[i], acts[i], ss[i + 1])
  }

  // ---- no tunnel is forgotten

  predicate OnTable(s: Udp, id: nat)
    requires id in s.sessions
  {
    s.sessions[id].key in s.table && s.table[s.sessions[id].key] == id
  }

  // An open tunnel is on the table, or somebody is just about to close it.
  predicate Cared(s: Udp, id: nat)
    requires id in s.sessions
  {
    s.sessions[id].tunnelOpen ==> OnTable(s, id) || s.sessions[id].loop.Closing? || s.reader == Dropping(id)
  }

  ghost predicate TableInv(s: Udp) {
    forall key :: key in s.table ==>
      && s.table[key] in s.sessions && s.sessions[s.table[key]].key == key
      && (s.sessions[s.table[key]].loop.Forwarding? || s.sessions[s.table[key]].loop.Evicting?)
  }

  ghost predicate SessionInv(s: Udp, id: nat)
    requires id in s.sessions
  {
    && Cared(s, id)
    && (s.sessions[id].loop.Ended? ==> !s.sessions[id].tunnelOpen)
    && (s.reader.Stopped? && OnTable(s, id) ==> !s.sessions[id].tunnelOpen)
    && s.sessions[id].lastActive <= s.now
  }

  ghost predicate ReaderInv(s: Udp) {
    s.reader.Writing? || s.reader.WriteFailed? || s.reader.Dropping? ==> s.reader.id in s.sessions
  }

  ghost predicate Inv(s: Udp) {
    TableInv(s) && ReaderInv(s) && forall id :: id in s.sessions ==> SessionInv(s, id)
  }

  lemma SessionInvStep(s: Udp, a: Action, s': Udp, id: nat)
    requires TableInv(s) && Next(s, a, s') && id in s'.sessions && (id in s.sessions ==> SessionInv(s, id))
    ensures SessionInv(s', id)
  {
    if a.ReadBreaks? && OnTable(s, id) {
      assert s.table[s.sessions[id].key] in s.table.Values;
    }
  }

  lemma InvStep(s: Udp, a: Action, s': Udp)
    requires Inv(s) && Next(s, a, s')
    ensures Inv(s')
  {
    forall id | id in s'.sessions ensures SessionInv(s', id) {
      SessionInvStep(s, a, s', id);
    }
  }

  lemma {:induction false} InvRun(ss: seq<Udp>, acts: seq<Action>, i: nat)
    requires IsRun(ss, acts) && i < |ss|
    ensures Inv(ss[i])
  {
    if i > 0 {
      InvRun(ss, acts, i - 1);
      InvStep(ss[i - 1], acts[i - 1], ss[i]);
    }
  }

  // Under every interleaving: each tunnel ever opened is closed, on the table,
  // or in the hands of a thread whose next step closes it. Once the reader has
  // stopped no return loop is left waiting on an open tunnel; and once all
  // return loops are over, the table is empty and every tunnel closed.
  lemma NoTunnelForgotten(ss: seq<Udp>, acts: seq<Action>, i: nat)
    requires IsRun(ss, acts) && i < |ss|
    ensures forall id :: id in ss[i].sessions ==> Cared(ss[i], id)
    ensures ss[i].reader.Stopped? ==>
              forall id :: id in ss[i].sessions && !ss[i].sessions[id].loop.Closing? ==> !ss[i].sessions[id].tunnelOpen
    ensures ss[i].reader.Stopped? && (forall id :: id in ss[i].sessions ==> ss[i].sessions[id].loop.Ended?) ==>
              ss[i].table == map[] && forall id :: id in ss[i].sessions ==> !ss[i].sessions[id].tunnelOpen
  {
    InvRun(ss, acts, i);
    var s := ss[i];
    forall id | id in s.sessions
      ensures Cared(s, id) && (s.reader.Stopped? && !s.sessions[id].loop.Closing? ==> !s.sessions[id].tunnelOpen)
    {
      assert SessionInv(s, id);
    }
    if s.reader.Stopped? && (forall id :: id in s.sessions ==> s.sessions[id].loop.Ended?) {
      assert forall key :: key in s.table ==> s.table[key] in s.sessions;
      assert s.table.Keys == {};
    }
  }

  // ---- the idle bound

  ghost predicate TimeInv(s: Udp) {
    && s.lastSweep <= s.now
    && match s.reaper
       case Sleeping =>
         && s.now <= s.lastSweep + SWEEP
         && (forall key :: key in s.table && s.table[key] in s.sessions ==>
               s.sessions[s.table[key]].lastActive >= s.lastSweep - IDLE)
       case Sweeping(cutoff, todo) =>
         && s.now == s.lastSweep + SWEEP && cutoff == s.now - IDLE && todo <= s.table.Keys
         && (forall key :: key in s.table && s.table[key] in s.sessions ==>
               s.sessions[s.table[key]].lastActive >= if key in todo then s.lastSweep - IDLE else cutoff)
       case Gone => true
  }

  lemma TimeInvStep(s: Udp, a: Action, s': Udp)
    requires TableInv(s) && TimeInv(s) && Next(s, a, s')
    ensures TimeInv(s')
  {
  }

  lemma {:induction false} TimeInvRun(ss: seq<Udp>, acts: seq<Action>, i: nat)
    requires IsRun(ss, acts) && i < |ss|
    ensures TimeInv(ss[i])
  {
    if i > 0 {
      TimeInvRun(ss, acts, i - 1);
      InvRun(ss, acts, i - 1);
      TimeInvStep(ss[i - 1], acts[i - 1], ss[i]);
    }
  }

  // ---- activity, by what happens and not by what is noted of it

  // A datagram one way or the other.
  ghost predicate Activity(s: Udp, a: Action, id: nat) {
    || (a.ReadKnown? && a.key in s.table && s.table[a.key] == id)
    || (a.ReadNew? && a.id == id)
    || a == LoopForwards(id)
  }

  lemma ActivityStep(s: Udp, a: Action, s': Udp, id: nat)
    requires Next(s, a, s')
    ensures id in s.sessions ==> id in s'.sessions
    ensures Activity(s, a, id) ==> id in s'.sessions && s'.sessions[id].lastActive == s.now
    ensures !Activity(s, a, id) && id in s'.sessions ==>
              id in s.sessions && s'.sessions[id].lastActive == s.sessions[id].lastActive
  {
  }

  ghost predicate ActiveAt(ss: seq<Udp>, acts: seq<Action>, k: nat, id: nat)
    requires |acts| <= |ss|
  {
    k < |acts| && Activity(ss[k], acts[k], id)
  }

  // Some activity of the session, and the last, was at this time.
  ghost predicate LastActiveAt(ss: seq<Udp>, acts: seq<Action>, i: nat, id: nat, time: int)
    requires i <= |acts| <= |ss|
  {
    && (exists k :: 0 <= k < i && ActiveAt(ss, acts, k, id) && ss[k].now == time)
    && (forall k :: 0 <= k < i && ActiveAt(ss, acts, k, id) ==> ss[k].now <= time)
  }

  lemma LastActiveOne(ss: seq<Udp>, acts: seq<Action>, i: nat, id: nat, time: int)
    requires i < |acts| <= |ss|
    ensures !ActiveAt(ss, acts, i, id) && LastActiveAt(ss, acts, i, id, time) ==>
              LastActiveAt(ss, acts, i + 1, id, time)
    ensures ActiveAt(ss, acts, i, id)
            && (forall k :: 0 <= k < i && ActiveAt(ss, acts, k, id) ==> ss[k].now <= ss[i].now) ==>
              LastActiveAt(ss, acts, i + 1, id, ss[i].now)
  {
  }

  ghost predicate Known(s: Udp, id: nat) {
    id in s.sessions
  }

  function Noted(s: Udp, id: nat): int {
    if id in s.sessions then s.sessions[id].lastActive else 0
  }

  // What step k does to what is noted of the session.
  ghost predicate Notes(ss: seq<Udp>, acts: seq<Action>, k: nat, id: nat)
    requires k < |acts| < |ss|
  {
    && (Known(ss[k], id) ==> Noted(ss[k], id) <= ss[k].now)
    && if ActiveAt(ss, acts, k, id) then Known(ss[k + 1], id) && Noted(ss[k + 1], id) == ss[k].now
       else (Known(ss[k + 1], id) <==> Known(ss[k], id)) && Noted(ss[k + 1], id) == Noted(ss[k], id)
  }

  lemma NotesInRun(ss: seq<Udp>, acts: seq<Action>, k: nat, id: nat)
    requires IsRun(ss, acts) && k < |acts|
    ensures Notes(ss, acts, k, id)
  {
    InvRun(ss, acts, k);
    ActivityStep(ss[k], acts[k], ss[k + 1], id);
    if id in ss[k].sessions {
      assert SessionInv(ss[k], id);
    }
  }

  lemma {:induction false} LastNoted(ss: seq<Udp>, acts: seq<Action>, i: nat, id: nat)
    requires i <= |acts| < |ss| && !Known(ss[0], id)
    requires forall k :: 0 <= k < |acts| ==> Notes(ss, acts, k, id)
    ensures Known(ss[i], id) ==> LastActiveAt(ss, acts, i, id, Noted(ss[i], id))
    ensures !Known(ss[i], id) ==> forall k :: 0 <= k < i ==> !ActiveAt(ss, acts, k, id)
    decreases i
  {
    if i > 0 {
      LastNoted(ss, acts, i - 1, id);
      assert Notes(ss, acts, i - 1, id);
      LastActiveOne(ss, acts, i - 1, id, Noted(ss[i - 1], id));
    }
  }

  // What is noted of a session is the time of its last activity.
  lemma LastActivity(ss: seq<Udp>, acts: seq<Action>, i: nat, id: nat)
    requires IsRun(ss, acts) && i < |ss|
    ensures id in ss[i].sessions ==> LastActiveAt(ss, acts, i, id, ss[i].sessions[id].lastActive)
    ensures id !in ss[i].sessions ==> forall k :: 0 <= k < i ==> !ActiveAt(ss, acts, k, id)
  {
    forall k | 0 <= k < |acts| ensures Notes(ss, acts, k, id) {
      NotesInRun(ss, acts, k, id);
    }
    LastNoted(ss, acts, i, id);
  }

  // While the reaper is there, a session on the table has had a datagram one
  // way or the other within the last 150 s.
  lemma IdleBound(ss: seq<Udp>, acts: seq<Action>, i: nat, key: string)
    requires IsRun(ss, acts) && i < |ss| && !ss[i].reaper.Gone? && key in ss[i].table
    ensures exists k :: 0 <= k < i && ActiveAt(ss, acts, k, ss[i].table[key]) && ss[i].now <= ss[k].now + 150
  {
    InvRun(ss, acts, i);
    TimeInvRun(ss, acts, i);
    LastActivity(ss, acts, i, ss[i].table[key]);
  }

  // And a sweep takes off only a session that has had none for more than 120 s
  // at the moment it looks, not even during the sweep.
  lemma OnlyIdleReaped(ss: seq<Udp>, acts: seq<Action>, i: nat, key: string)
    requires IsRun(ss, acts) && i < |acts| && acts[i] == SweepLooks(key) && key !in ss[i + 1].table
    ensures key in ss[i].table
    ensures forall k :: 0 <= k < i && ActiveAt(ss, acts, k, ss[i].table[key]) ==> ss[k].now < ss[i].now - 120
  {
    TimeInvRun(ss, acts, i);
    assert Next(ss[i], acts[i], ss[i + 1]);
    LastActivity(ss, acts, i, ss[i].table[key]);
  }

  // ---- a session leaves the table on its own account only

  // Session id's own return loop, the reader after failing to write to it, or
  // a sweep that finds it idle.
  ghost predicate TakesOff(s: Udp, a: Action, id: nat) {
    || a == LoopEvicts(id)
    || (a == DropEntry && s.reader == WriteFailed(id))
    || (a.SweepLooks? && a.key in s.table && s.table[a.key] == id && id in s.sessions
        && s.sessions[id].lastActive < s.now - IDLE)
  }

  lemma StaysUnlessTakenOff(s: Udp, a: Action, s': Udp, key: string)
    requires TimeInv(s) && Next(s, a, s') && key in s.table && !TakesOff(s, a, s.table[key])
    ensures key in s'.table && s'.table[key] == s.table[key]
  {
  }

  ghost predicate EverTakenOff(ss: seq<Udp>, acts: seq<Action>, i: nat, j: nat, id: nat)
    requires j <= |acts| <= |ss|
  {
    exists k :: i <= k < j && TakesOff(ss[k], acts[k], id)
  }

  // At step k the session under this key stays or is taken off for its own sake.
  ghost predicate StaysAt(ss: seq<Udp>, acts: seq<Action>, k: nat, key: string)
    requires k < |acts| < |ss|
  {
    key in ss[k].table ==>
      || TakesOff(ss[k], acts[k], ss[k].table[key])
      || (key in ss[k + 1].table && ss[k + 1].table[key] == ss[k].table[key])
  }

  lemma StaysInRun(ss: seq<Udp>, acts: seq<Action>, k: nat, key: string)
    requires IsRun(ss, acts) && k < |acts|
    ensures StaysAt(ss, acts, k, key)
  {
    TimeInvRun(ss, acts, k);
    if key in ss[k].table && !TakesOff(ss[k], acts[k], ss[k].table[key]) {
      StaysUnlessTakenOff(ss[k], acts[k], ss[k + 1], key);
    }
  }

  lemma {:induction false} GoneIsTakenOff(ss: seq<Udp>, acts: seq<Action>, i: nat, j: nat, key: string)
    requires i <= j <= |acts| < |ss| && key in ss[i].table
    requires forall k :: 0 <= k < |acts| ==> StaysAt(ss, acts, k, key)
    requires key !in ss[j].table || ss[j].table[key] != ss[i].table[key]
    ensures EverTakenOff(ss, acts, i, j, ss[i].table[key])
    decreases j
  {
    assert StaysAt(ss, acts, j - 1, key);
    if key !in ss[j - 1].table || ss[j - 1].table[key] != ss[i].table[key] {
      GoneIsTakenOff(ss, acts, i, j - 1, key);
    }
  }

  // In every run a session that is no longer on the table was taken off for
  // its own sake: one finishing under the same key, however late, never evicts
  // a newer one.
  lemma OldNeverEvictsNew(ss: seq<Udp>, acts: seq<Action>, i: nat, j: nat, key: string)
    requires IsRun(ss, acts) && i <= j < |ss| && key in ss[i].table
    requires key !in ss[j].table || ss[j].table[key] != ss[i].table[key]
    ensures EverTakenOff(ss, acts, i, j, ss[i].table[key])
  {
    forall k | 0 <= k < |acts| ensures StaysAt(ss, acts, k, key) {
      StaysInRun(ss, acts, k, key);
    }
    GoneIsTakenOff(ss, acts, i, j, key);
  }
}
