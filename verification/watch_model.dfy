// The listen watcher as a state machine: scans publish one event at a time
// while holding the lock, subscribers take events whenever they like.
module WatchModel {
  import opened Listens
  import opened Stream

  // How many events a subscriber can lag behind.
  const CAPACITY := 256

  // A subscription: the set it was given, and the events it has been sent,
  // already taken or still queued. start is the position in the watcher's log
  // at which it began; the code keeps no such number.
  datatype Sub = Sub(snapshot: set<Listen>, start: nat, taken: seq<Event>, queue: seq<Event>, closed: bool) {
    function Sent(): seq<Event> {
      taken + queue
    }
  }

  // While a scan publishes, it holds the lock.
  datatype Scan = Idle | Publishing(todo: seq<Event>, next: set<Listen>)

  // log lists every event ever published.
  datatype Watch<Id> = Watch(current: set<Listen>, excluded: map<Listen, int>, subs: map<Id, Sub>, log: seq<Event>,
      scan: Scan)

  datatype Action<Id> =
    | BeginScan(raw: set<Listen>, batch: seq<Event>)
    | PublishNext
    | EndScan
    | Subscribe(id: Id)
    | Cancel(id: Id)
    | Take(id: Id)
    | Exclude(listen: Listen)
    | Unexclude(listen: Listen)

  // ---- what each operation does

  function Push(sub: Sub, e: Event): Sub {
    if sub.closed then sub
    else if |sub.queue| < CAPACITY then sub.(queue := sub.queue + [e])
    else sub.(closed := true)
  }

  function Publish<Id>(w: Watch<Id>, e: Event): Watch<Id> {
    w.(subs := map id | id in w.subs :: Push(w.subs[id], e), log := w.log + [e])
  }

  function PushAll(sub: Sub, evs: seq<Event>): Sub {
    if evs == [] then sub else Push(PushAll(sub, evs[..|evs| - 1]), evs[|evs| - 1])
  }

  function PublishAll<Id>(w: Watch<Id>, evs: seq<Event>): Watch<Id> {
    w.(subs := map id | id in w.subs :: PushAll(w.subs[id], evs), log := w.log + evs)
  }

  function Reported(raw: set<Listen>, excluded: map<Listen, int>): set<Listen> {
    set l | l in raw && Count(excluded, l) <= 0
  }

  // The events by which a scan moves from one set to another: adds of what is
  // new, then removes of what is gone, in any order within each.
  ghost predicate IsDiff(from: set<Listen>, to: set<Listen>, evs: seq<Event>) {
    && Exact(from, evs)
    && Replay(from, evs) == to
    && exists k :: 0 <= k <= |evs| && AllAdds(evs[..k], to - from) && AllRemoves(evs[k..], from - to)
  }

  predicate AllAdds(evs: seq<Event>, ls: set<Listen>) {
    forall e :: e in evs ==> e.Add? && e.listen in ls
  }

  predicate AllRemoves(evs: seq<Event>, ls: set<Listen>) {
    forall e :: e in evs ==> e.Remove? && e.listen in ls
  }

  // A scan's events are about nothing that it leaves as it was.
  lemma DiffAbout(from: set<Listen>, to: set<Listen>, evs: seq<Event>)
    requires IsDiff(from, to, evs)
    ensures forall e :: e in evs ==> (e.Add? && e.listen in to - from) || (e.Remove? && e.listen in from - to)
  {
    var k :| 0 <= k <= |evs| && AllAdds(evs[..k], to - from) && AllRemoves(evs[k..], from - to);
    forall e | e in evs ensures (e.Add? && e.listen in to - from) || (e.Remove? && e.listen in from - to) {
      var i :| 0 <= i < |evs| && evs[i] == e;
      if i < k {
        assert evs[..k][i] in evs[..k];
      } else {
        assert evs[k..][i - k] in evs[k..];
      }
    }
  }

  lemma DiffConcat(from: set<Listen>, to: set<Listen>, adds: seq<Event>, removes: seq<Event>)
    requires Exact(from, adds) && Replay(from, adds) == from + to && AllAdds(adds, to - from)
    requires Exact(from + to, removes) && Replay(from + to, removes) == to && AllRemoves(removes, from - to)
    ensures IsDiff(from, to, adds + removes)
  {
    var evs := adds + removes;
    ExactConcat(from, adds, removes);
    ReplayConcat(from, adds, removes);
    assert evs[..|adds|] == adds && evs[|adds|..] == removes;
  }

  function Subscribed<Id>(w: Watch<Id>, id: Id): Watch<Id> {
    w.(subs := w.subs[id := Sub(w.current, |w.log|, [], [], false)])
  }

  function Cancelled<Id>(w: Watch<Id>, id: Id): Watch<Id>
    requires id in w.subs
  {
    w.(subs := w.subs[id := w.subs[id].(closed := true)])
  }

  function Took<Id>(w: Watch<Id>, id: Id): Watch<Id>
    requires id in w.subs && w.subs[id].queue != []
  {
    var sub := w.subs[id];
    w.(subs := w.subs[id := sub.(taken := sub.taken + [sub.queue[0]], queue := sub.queue[1..])])
  }

  function Excluding(m: map<Listen, int>, l: Listen): map<Listen, int> {
    m[l := Count(m, l) + 1]
  }

  function Unexcluding(m: map<Listen, int>, l: Listen): map<Listen, int> {
    if Count(m, l) <= 1 then m - {l} else m[l := m[l] - 1]
  }

  ghost predicate Next<Id>(w: Watch<Id>, a: Action<Id>, w': Watch<Id>) {
    match a
    case BeginScan(raw, batch) =>
      var next := Reported(raw, w.excluded);
      w.scan.Idle? && IsDiff(w.current, next, batch) && w' == w.(scan := Publishing(batch, next))
    case PublishNext =>
      && w.scan.Publishing? && w.scan.todo != []
      && w' == Publish(w, w.scan.todo[0]).(scan := w.scan.(todo := w.scan.todo[1..]))
    case EndScan =>
      w.scan.Publishing? && w.scan.todo == [] && w' == w.(scan := Idle, current := w.scan.next)
    case Subscribe(id) =>
      w.scan.Idle? && id !in w.subs && w' == Subscribed(w, id)
    case Cancel(id) =>
      w.scan.Idle? && id in w.subs && w' == Cancelled(w, id)
    case Take(id) =>
      id in w.subs && w.subs[id].queue != [] && w' == Took(w, id)
    case Exclude(l) =>
      w.scan.Idle? && w' == w.(excluded := Excluding(w.excluded, l))
    case Unexclude(l) =>
      w.scan.Idle? && w' == w.(excluded := Unexcluding(w.excluded, l))
  }

  ghost predicate Init<Id>(w: Watch<Id>) {
    w == Watch({}, map[], map[], [], Idle)
  }

  ghost predicate IsRun<Id>(ws: seq<Watch<Id>>, acts: seq<Action<Id>>) {
    && |ws| == |acts| + 1
    && Init(ws[0])
    && forall i :: 0 <= i < |acts| ==> Next(ws[i], acts[i], ws[i + 1])
  }

  // ---- the invariant

  ghost predicate Tracks(sub: Sub, log: seq<Event>) {
    var n := |sub.taken| + |sub.queue|;
    && sub.start + n <= |log|
    && sub.snapshot == Replay({}, log[..sub.start])
    && sub.Sent() == log[sub.start..sub.start + n]
    && |sub.queue| <= CAPACITY
    && (!sub.closed ==> sub.start + n == |log|)
  }

  ghost predicate AllTrack<Id>(subs: map<Id, Sub>, log: seq<Event>) {
    forall id :: id in subs ==> Tracks(subs[id], log)
  }

  predicate AllPositive(m: map<Listen, int>) {
    forall l :: l in m ==> m[l] > 0
  }

  ghost predicate Inv<Id>(w: Watch<Id>) {
    && Exact({}, w.log)
    && AllTrack(w.subs, w.log)
    && AllPositive(w.excluded)
    && match w.scan
       case Idle => Replay({}, w.log) == w.current
       case Publishing(todo, next) =>
         && Exact({}, w.log + todo)
         && Replay({}, w.log + todo) == next
         && (forall l :: l in next ==> Count(w.excluded, l) == 0)
         && (forall e :: e in todo ==> e.Add? ==> e.listen in next)
  }

  lemma TracksPush(sub: Sub, log: seq<Event>, e: Event)
    requires Tracks(sub, log)
    ensures Tracks(Push(sub, e), log + [e])
  {
    var log' := log + [e];
    assert log'[..sub.start] == log[..sub.start];
    if !sub.closed && |sub.queue| < CAPACITY {
      assert Push(sub, e).Sent() == sub.Sent() + [e];
      assert log'[sub.start..|log'|] == log[sub.start..|log|] + [e];
    } else {
      var n := sub.start + |sub.Sent()|;
      assert log'[sub.start..n] == log[sub.start..n];
    }
  }

  lemma AllTrackPublish<Id>(w: Watch<Id>, e: Event)
    requires AllTrack(w.subs, w.log)
    ensures AllTrack(Publish(w, e).subs, Publish(w, e).log)
  {
    forall id | id in w.subs ensures Tracks(Push(w.subs[id], e), w.log + [e]) {
      TracksPush(w.subs[id], w.log, e);
    }
  }

  lemma InvBegin<Id>(w: Watch<Id>, raw: set<Listen>, batch: seq<Event>, w': Watch<Id>)
    requires Inv(w) && Next(w, BeginScan(raw, batch), w')
    ensures Inv(w')
  {
    ExactConcat({}, w.log, batch);
    ReplayConcat({}, w.log, batch);
    DiffAbout(w.current, Reported(raw, w.excluded), batch);
  }

  lemma InvPublish<Id>(w: Watch<Id>, w': Watch<Id>)
    requires Inv(w) && Next(w, PublishNext, w')
    ensures Inv(w')
  {
    var todo := w.scan.todo;
    AllTrackPublish(w, todo[0]);
    assert w.log + todo == (w.log + [todo[0]]) + todo[1..];
    ExactConcat({}, w.log + [todo[0]], todo[1..]);
  }

  lemma TracksNew(current: set<Listen>, log: seq<Event>)
    requires Replay({}, log) == current
    ensures Tracks(Sub(current, |log|, [], [], false), log)
  {
    assert log[..|log|] == log;
  }

  lemma TracksTake(sub: Sub, log: seq<Event>)
    requires Tracks(sub, log) && sub.queue != []
    ensures Tracks(sub.(taken := sub.taken + [sub.queue[0]], queue := sub.queue[1..]), log)
  {
    assert (sub.taken + [sub.queue[0]]) + sub.queue[1..] == sub.taken + sub.queue;
  }

  lemma AllTrackSubs<Id>(w: Watch<Id>, a: Action<Id>, w': Watch<Id>)
    requires AllTrack(w.subs, w.log) && (w.scan.Idle? ==> Replay({}, w.log) == w.current)
    requires Next(w, a, w') && (a.Subscribe? || a.Cancel? || a.Take?)
    ensures AllTrack(w'.subs, w'.log)
  {
    if a.Subscribe? {
      TracksNew(w.current, w.log);
    } else if a.Take? {
      TracksTake(w.subs[a.id], w.log);
    }
  }

  lemma InvStep<Id>(w: Watch<Id>, a: Action<Id>, w': Watch<Id>)
    requires Inv(w) && Next(w, a, w')
    ensures Inv(w')
  {
    if a.BeginScan? {
      InvBegin(w, a.raw, a.batch, w');
    } else if a.PublishNext? {
      InvPublish(w, w');
    } else if a.EndScan? {
      assert w.log + [] == w.log;
    } else if a.Subscribe? || a.Cancel? || a.Take? {
      AllTrackSubs(w, a, w');
    }
  }

  lemma {:induction false} InvRun<Id>(ws: seq<Watch<Id>>, acts: seq<Action<Id>>, i: nat)
    requires IsRun(ws, acts) && i < |ws|
    ensures Inv(ws[i])
  {
    if i > 0 {
      InvRun(ws, acts, i - 1);
      InvStep(ws[i - 1], acts[i - 1], ws[i]);
    }
  }

  // ---- subscriber replication

  // Live or dropped, a subscriber that has got through any k of the events it
  // was sent holds a set the watcher itself passed through; the events are
  // news to it, one by one; and a live subscriber that has got through all of
  // them holds exactly what the watcher reports once no scan is publishing.
  lemma Replication<Id>(ws: seq<Watch<Id>>, acts: seq<Action<Id>>, i: nat, id: Id, k: nat)
    requires IsRun(ws, acts) && i < |ws| && id in ws[i].subs && k <= |ws[i].subs[id].Sent()|
    ensures IsReplica(ws[i].subs[id], ws[i].log, k)
    ensures !ws[i].subs[id].closed && ws[i].scan.Idle? ==>
            Replay(ws[i].subs[id].snapshot, ws[i].subs[id].Sent()) == ws[i].current
  {
    InvRun(ws, acts, i);
    Replicates(ws[i], id, k);
  }

  ghost predicate IsReplica(sub: Sub, log: seq<Event>, k: nat)
    requires k <= |sub.Sent()|
  {
    && Exact(sub.snapshot, sub.Sent())
    && sub.start + k <= |log|
    && Replay(sub.snapshot, sub.Sent()[..k]) == Replay({}, log[..sub.start + k])
  }

  lemma Replicates<Id>(w: Watch<Id>, id: Id, k: nat)
    requires Inv(w) && id in w.subs && k <= |w.subs[id].Sent()|
    ensures IsReplica(w.subs[id], w.log, k)
    ensures !w.subs[id].closed && w.scan.Idle? ==> Replay(w.subs[id].snapshot, w.subs[id].Sent()) == w.current
  {
    LogIsExact(w);
    SubReplicates(w.subs[id], w.log, k);
    if !w.subs[id].closed {
      LiveSubReplays(w.subs[id], w.log);
    }
  }

  lemma LogIsExact<Id>(w: Watch<Id>)
    requires Inv(w)
    ensures Exact({}, w.log) && AllTrack(w.subs, w.log)
    ensures w.scan.Idle? ==> Replay({}, w.log) == w.current
  {
  }

  lemma SubReplicates(sub: Sub, log: seq<Event>, k: nat)
    requires Exact({}, log) && Tracks(sub, log) && k <= |sub.Sent()|
    ensures IsReplica(sub, log, k)
  {
    SubReplays(sub, log, k);
  }

  lemma LiveSubReplays(sub: Sub, log: seq<Event>)
    requires Exact({}, log) && Tracks(sub, log) && !sub.closed
    ensures Replay(sub.snapshot, sub.Sent()) == Replay({}, log)
  {
    var n := |sub.Sent()|;
    assert sub.Sent()[..n] == sub.Sent() && log[..sub.start + n] == log;
    SubReplays(sub, log, n);
  }

  lemma Segment<T>(s: seq<T>, start: nat, n: nat, k: nat)
    requires start + n <= |s| && k <= n
    ensures s == s[..start] + s[start..start + n] + s[start + n..]
    ensures s[..start + k] == s[..start] + s[start..start + n][..k]
  {
  }

  lemma SubReplays(sub: Sub, log: seq<Event>, k: nat)
    requires Exact({}, log) && Tracks(sub, log) && k <= |sub.Sent()|
    ensures Exact(sub.snapshot, sub.Sent())
    ensures Replay(sub.snapshot, sub.Sent()[..k]) == Replay({}, log[..sub.start + k])
  {
    var n := |sub.Sent()|;
    Segment(log, sub.start, n, k);
    MiddleReplays(log[..sub.start], log[sub.start..sub.start + n], log[sub.start + n..], k);
  }

  lemma MiddleReplays(before: seq<Event>, sent: seq<Event>, after: seq<Event>, k: nat)
    requires Exact({}, before + sent + after) && k <= |sent|
    ensures Exact(Replay({}, before), sent)
    ensures Replay(Replay({}, before), sent[..k]) == Replay({}, before + sent[..k])
  {
    ReplayConcat({}, before, sent[..k]);
    ExactConcat({}, before + sent, after);
    ExactConcat({}, before, sent);
  }

  // What closes a subscriber: its own cancel, or an event that finds its queue full.
  ghost predicate Closes<Id>(w: Watch<Id>, a: Action<Id>, id: Id) {
    a == Cancel(id) || (a.PublishNext? && id in w.subs && !w.subs[id].closed && |w.subs[id].queue| >= 256)
  }

  ghost predicate IsClosed<Id>(w: Watch<Id>, id: Id) {
    id in w.subs && w.subs[id].closed
  }

  lemma ClosedStep<Id>(w: Watch<Id>, a: Action<Id>, w': Watch<Id>, id: Id)
    requires Next(w, a, w')
    ensures IsClosed(w', id) <==> IsClosed(w, id) || Closes(w, a, id)
  {
  }

  lemma ClosedInRun<Id>(ws: seq<Watch<Id>>, acts: seq<Action<Id>>, id: Id)
    requires IsRun(ws, acts)
    ensures !IsClosed(ws[0], id)
    ensures forall k :: 0 <= k < |acts| ==>
            (IsClosed(ws[k + 1], id) <==> IsClosed(ws[k], id) || Closes(ws[k], acts[k], id))
  {
    forall k | 0 <= k < |acts| ensures IsClosed(ws[k + 1], id) <==> IsClosed(ws[k], id) || Closes(ws[k], acts[k], id) {
      ClosedStep(ws[k], acts[k], ws[k + 1], id);
    }
  }

  // In every run a subscriber is closed if and only if, at some point before,
  // it was cancelled or was as far behind as its queue is long.
  lemma DroppedOnlyWhenFull<Id>(ws: seq<Watch<Id>>, acts: seq<Action<Id>>, j: nat, id: Id)
    requires IsRun(ws, acts) && j < |ws|
    ensures IsClosed(ws[j], id) <==> exists k :: 0 <= k < j && Closes(ws[k], acts[k], id)
  {
    ClosedInRun(ws, acts, id);
    ClosedSince(ws, acts, j, id);
  }

  lemma {:induction false} ClosedSince<Id>(ws: seq<Watch<Id>>, acts: seq<Action<Id>>, j: nat, id: Id)
    requires |ws| == |acts| + 1 && j < |ws| && !IsClosed(ws[0], id)
    requires forall k :: 0 <= k < |acts| ==>
             (IsClosed(ws[k + 1], id) <==> IsClosed(ws[k], id) || Closes(ws[k], acts[k], id))
    ensures IsClosed(ws[j], id) <==> exists k :: 0 <= k < j && Closes(ws[k], acts[k], id)
    decreases j
  {
    if j > 0 {
      ClosedSince(ws, acts, j - 1, id);
      assert IsClosed(ws[j - 1 + 1], id) <==> IsClosed(ws[j - 1], id) || Closes(ws[j - 1], acts[j - 1], id);
    }
  }

  // ---- exclusion

  // l is excluded, and a scan has taken notice.
  ghost predicate Hidden<Id>(w: Watch<Id>, l: Listen) {
    && Count(w.excluded, l) > 0
    && l !in w.current
    && (w.scan.Publishing? ==> l !in w.scan.next && forall e :: e in w.scan.todo ==> !About(e, l))
  }

  lemma HiddenByScan<Id>(w: Watch<Id>, w': Watch<Id>, l: Listen)
    requires Inv(w) && Next(w, EndScan, w') && Count(w.excluded, l) > 0
    ensures Hidden(w', l)
  {
  }

  lemma HiddenKept<Id>(w: Watch<Id>, a: Action<Id>, w': Watch<Id>, l: Listen)
    requires Hidden(w, l) && Next(w, a, w') && Count(w'.excluded, l) > 0
    ensures Hidden(w', l)
  {
    if a.BeginScan? {
      DiffAbout(w.current, Reported(a.raw, w.excluded), a.batch);
    }
  }

  lemma HiddenStep<Id>(w: Watch<Id>, a: Action<Id>, w': Watch<Id>, l: Listen)
    requires Hidden(w, l) && Next(w, a, w')
    ensures SilentSince(w, w', l)
    ensures SubsKept(w, w')
  {
    if a.PublishNext? {
      var e := w.scan.todo[0];
      assert e in w.scan.todo;
      assert w'.log == w.log + [e];
    }
  }

  // No event about l has been published since w0, and no subscriber that came
  // since then has been given l.
  ghost predicate SilentSince<Id>(w0: Watch<Id>, w: Watch<Id>, l: Listen) {
    && w0.log <= w.log && (forall n :: |w0.log| <= n < |w.log| ==> !About(w.log[n], l))
    && w0.subs.Keys <= w.subs.Keys
    && (forall id :: id in w.subs && id !in w0.subs ==> w.subs[id].start >= |w0.log| && l !in w.subs[id].snapshot)
  }

  ghost predicate SubsKept<Id>(w: Watch<Id>, w': Watch<Id>) {
    forall id :: id in w.subs ==>
      id in w'.subs && w'.subs[id].snapshot == w.subs[id].snapshot && w'.subs[id].start == w.subs[id].start
  }

  lemma SilentTrans<Id>(w0: Watch<Id>, w1: Watch<Id>, w2: Watch<Id>, l: Listen)
    requires SilentSince(w0, w1, l) && SilentSince(w1, w2, l) && SubsKept(w1, w2)
    ensures SilentSince(w0, w2, l)
  {
    forall n | |w0.log| <= n < |w2.log| ensures !About(w2.log[n], l) {
      if n < |w1.log| {
        assert w2.log[n] == w1.log[n];
      }
    }
  }

  // So nothing a subscriber that came since then is ever sent is about l.
  lemma SilentToNewcomers<Id>(w0: Watch<Id>, w: Watch<Id>, id: Id, l: Listen)
    requires Inv(w) && SilentSince(w0, w, l) && id in w.subs && id !in w0.subs
    ensures forall e :: e in w.subs[id].Sent() ==> !About(e, l)
  {
    var sub := w.subs[id];
    forall e | e in sub.Sent() ensures !About(e, l) {
      var n :| 0 <= n < |sub.Sent()| && sub.Sent()[n] == e;
      assert w.log[sub.start + n] == e;
    }
  }

  ghost predicate ExcludedThroughout<Id>(ws: seq<Watch<Id>>, i: nat, j: nat, l: Listen)
    requires j < |ws|
  {
    forall k :: i <= k <= j ==> Count(ws[k].excluded, l) > 0
  }

  // Once hidden, l occurs in no event and in no new snapshot until every
  // exclusion has been taken back, whatever else happens.
  lemma {:induction false} SilentOnceHidden<Id>(ws: seq<Watch<Id>>, acts: seq<Action<Id>>, i: nat, j: nat, l: Listen)
    requires IsRun(ws, acts) && i <= j < |ws| && Hidden(ws[i], l) && ExcludedThroughout(ws, i, j, l)
    ensures Hidden(ws[j], l) && SilentSince(ws[i], ws[j], l)
    decreases j
  {
    if i < j {
      SilentOnceHidden(ws, acts, i, j - 1, l);
      assert Next(ws[j - 1], acts[j - 1], ws[j]);
      HiddenKept(ws[j - 1], acts[j - 1], ws[j], l);
      HiddenStep(ws[j - 1], acts[j - 1], ws[j], l);
      SilentTrans(ws[i], ws[j - 1], ws[j], l);
    }
  }

  // So it is from the end of the first scan that finds l excluded.
  lemma ExclusionOverRuns<Id>(ws: seq<Watch<Id>>, acts: seq<Action<Id>>, i: nat, j: nat, l: Listen)
    requires IsRun(ws, acts) && 0 < i <= j < |ws|
    requires acts[i - 1] == EndScan && ExcludedThroughout(ws, i - 1, j, l)
    ensures Hidden(ws[j], l) && SilentSince(ws[i], ws[j], l)
  {
    InvRun(ws, acts, i - 1);
    assert Next(ws[i - 1], acts[i - 1], ws[i]);
    HiddenByScan(ws[i - 1], ws[i], l);
    SilentOnceHidden(ws, acts, i, j, l);
  }

  // ---- from the exclude on

  lemma ExcludeHidesIff<Id>(w: Watch<Id>, l: Listen, w': Watch<Id>)
    requires Inv(w) && Next(w, Exclude(l), w')
    ensures Hidden(w', l) <==> l !in w.current
  {
  }

  lemma StepGrows<Id>(w: Watch<Id>, a: Action<Id>, w': Watch<Id>)
    requires Next(w, a, w')
    ensures w.log <= w'.log && SubsKept(w, w')
    ensures a != EndScan ==> w'.current == w.current
  {
  }

  lemma {:induction false} RunGrows<Id>(ws: seq<Watch<Id>>, acts: seq<Action<Id>>, i: nat, j: nat)
    requires IsRun(ws, acts) && i <= j < |ws|
    ensures ws[i].log <= ws[j].log && SubsKept(ws[i], ws[j])
    ensures (forall k :: i <= k < j ==> acts[k] != EndScan) ==> ws[j].current == ws[i].current
    decreases j
  {
    if i < j {
      RunGrows(ws, acts, i, j - 1);
      StepGrows(ws[j - 1], acts[j - 1], ws[j]);
    }
  }

  // A listen that leaves the watcher's set leaves it with an event.
  lemma GoneIsAnnounced<Id>(w0: Watch<Id>, w1: Watch<Id>, w: Watch<Id>, l: Listen)
    requires Replay({}, w0.log) == w0.current && Replay({}, w1.log) == w1.current
    requires l in w0.current && l !in w1.current && w0.log <= w1.log <= w.log
    ensures !SilentSince(w0, w, l)
  {
    if SilentSince(w0, w, l) {
      var n := |w0.log|;
      var more := w1.log[n..];
      assert w1.log == w0.log + more;
      forall e | e in more ensures !About(e, l) {
        var k :| 0 <= k < |more| && more[k] == e;
        assert w.log[n + k] == e;
      }
      ReplayConcat({}, w0.log, more);
      ReplayFrame(w0.current, more, l);
    }
  }

  lemma HeldIsAnnounced<Id>(ws: seq<Watch<Id>>, acts: seq<Action<Id>>, i: nat, k: nat, j: nat, l: Listen)
    requires IsRun(ws, acts) && i < k < j < |ws|
    requires acts[i] == Exclude(l) && l in ws[i].current && ExcludedThroughout(ws, i + 1, j, l) && acts[k] == EndScan
    ensures !SilentSince(ws[i + 1], ws[j], l)
  {
    assert Next(ws[i], acts[i], ws[i + 1]) && Next(ws[k], acts[k], ws[k + 1]);
    InvRun(ws, acts, i + 1);
    InvRun(ws, acts, k);
    InvRun(ws, acts, k + 1);
    HiddenByScan(ws[k], ws[k + 1], l);
    RunGrows(ws, acts, i + 1, k + 1);
    RunGrows(ws, acts, k + 1, j);
    GoneIsAnnounced(ws[i + 1], ws[k + 1], ws[j], l);
  }

  lemma HeldIsGiven<Id>(ws: seq<Watch<Id>>, acts: seq<Action<Id>>, i: nat, k: nat, j: nat, l: Listen)
    requires IsRun(ws, acts) && i < k < j < |ws|
    requires acts[i] == Exclude(l) && l in ws[i].current
    requires acts[k].Subscribe? && forall m :: i < m < k ==> acts[m] != EndScan
    ensures !SilentSince(ws[i + 1], ws[j], l)
  {
    assert Next(ws[i], acts[i], ws[i + 1]) && Next(ws[k], acts[k], ws[k + 1]);
    RunGrows(ws, acts, i + 1, k);
    RunGrows(ws, acts, k + 1, j);
    assert l in ws[k + 1].subs[acts[k].id].snapshot;
  }

  // The comment on Exclude, over every run: from the exclude on, while it or
  // another exclusion of l stands, l is in no event and no new snapshot if the
  // watcher did not hold it at the exclude; and only if, as soon as anybody has
  // subscribed or a scan has ended.
  lemma ExcludeSilentIff<Id>(ws: seq<Watch<Id>>, acts: seq<Action<Id>>, i: nat, j: nat, l: Listen)
    requires IsRun(ws, acts) && i < j < |ws|
    requires acts[i] == Exclude(l) && ExcludedThroughout(ws, i + 1, j, l)
    ensures l !in ws[i].current ==> SilentSince(ws[i + 1], ws[j], l)
    ensures (exists k :: i < k < j && (acts[k].Subscribe? || acts[k] == EndScan)) ==>
              (SilentSince(ws[i + 1], ws[j], l) <==> l !in ws[i].current)
  {
    InvRun(ws, acts, i);
    assert Next(ws[i], acts[i], ws[i + 1]);
    ExcludeHidesIff(ws[i], l, ws[i + 1]);
    if l !in ws[i].current {
      SilentOnceHidden(ws, acts, i + 1, j, l);
    } else if k :| i < k < j && acts[k] == EndScan {
      HeldIsAnnounced(ws, acts, i, k, j, l);
    } else if k :| i < k < j && acts[k].Subscribe? {
      HeldIsGiven(ws, acts, i, k, j, l);
    }
  }

  // Exclusions are counted: taking one back undoes exactly one, whether or
  // not the same listen is excluded on another's behalf.
  lemma UnexcludeUndoesExclude(m: map<Listen, int>, l: Listen)
    requires AllPositive(m)
    ensures Unexcluding(Excluding(m, l), l) == m
    ensures forall x :: Count(Excluding(m, l), x) == Count(m, x) + if x == l then 1 else 0
    ensures forall x :: Count(Unexcluding(m, l), x) == if x == l && l in m then m[l] - 1 else Count(m, x)
    ensures AllPositive(Excluding(m, l)) && AllPositive(Unexcluding(m, l))
  {
  }

  // ---- a scan run to its end without a break

  lemma {:induction false} TracksPushAll(sub: Sub, log: seq<Event>, evs: seq<Event>)
    requires Tracks(sub, log)
    ensures Tracks(PushAll(sub, evs), log + evs)
    decreases |evs|
  {
    if evs == [] {
      assert log + evs == log;
    } else {
      var n := |evs| - 1;
      TracksPushAll(sub, log, evs[..n]);
      TracksPush(PushAll(sub, evs[..n]), log + evs[..n], evs[n]);
      assert log + evs == log + evs[..n] + [evs[n]];
    }
  }

  lemma TracksClosed(sub: Sub, log: seq<Event>)
    requires Tracks(sub, log)
    ensures Tracks(sub.(closed := true), log)
  {
  }

  lemma {:induction false} PushAllConcat(sub: Sub, a: seq<Event>, b: seq<Event>)
    ensures PushAll(sub, a + b) == PushAll(PushAll(sub, a), b)
    decreases |b|
  {
    if b == [] {
      assert a + b == a;
    } else {
      assert (a + b)[..|a + b| - 1] == a + b[..|b| - 1];
      PushAllConcat(sub, a, b[..|b| - 1]);
    }
  }

  lemma PublishAllOne<Id>(w: Watch<Id>, evs: seq<Event>, e: Event)
    ensures PublishAll(w, evs + [e]) == Publish(PublishAll(w, evs), e)
  {
    assert (evs + [e])[..|evs|] == evs;
    assert w.log + (evs + [e]) == w.log + evs + [e];
  }

  function Scanned<Id>(w: Watch<Id>, raw: set<Listen>, batch: seq<Event>): Watch<Id> {
    PublishAll(w, batch).(current := Reported(raw, w.excluded))
  }

  lemma ScannedInv<Id>(w: Watch<Id>, raw: set<Listen>, batch: seq<Event>)
    requires Inv(w) && w.scan.Idle? && IsDiff(w.current, Reported(raw, w.excluded), batch)
    ensures Inv(Scanned(w, raw, batch))
  {
    ExactConcat({}, w.log, batch);
    ReplayConcat({}, w.log, batch);
    forall id | id in w.subs ensures Tracks(PushAll(w.subs[id], batch), w.log + batch) {
      TracksPushAll(w.subs[id], w.log, batch);
    }
  }

  ghost predicate Steps<Id>(ws: seq<Watch<Id>>, acts: seq<Action<Id>>) {
    |ws| == |acts| + 1 && forall i :: 0 <= i < |acts| ==> Next(ws[i], acts[i], ws[i + 1])
  }

  // The machine can run such a scan: begin, publish each event, end.
  lemma ScanIsARun<Id>(w: Watch<Id>, raw: set<Listen>, batch: seq<Event>)
    returns (ws: seq<Watch<Id>>, acts: seq<Action<Id>>)
    requires w.scan.Idle? && IsDiff(w.current, Reported(raw, w.excluded), batch)
    ensures Steps(ws, acts) && ws[0] == w && ws[|acts|] == Scanned(w, raw, batch)
  {
    var begun := w.(scan := Publishing(batch, Reported(raw, w.excluded)));
    ws, acts := PublishingSteps(begun, batch);
    ws, acts := OneBefore(w, BeginScan(raw, batch), ws, acts);
    ws, acts := OneAfter(ws, acts, EndScan, Scanned(w, raw, batch));
  }

  lemma OneBefore<Id>(first: Watch<Id>, a: Action<Id>, ws: seq<Watch<Id>>, acts: seq<Action<Id>>)
    returns (ws': seq<Watch<Id>>, acts': seq<Action<Id>>)
    requires Steps(ws, acts) && Next(first, a, ws[0])
    ensures Steps(ws', acts') && ws'[0] == first && ws'[|acts'|] == ws[|acts|]
  {
    ws', acts' := [first] + ws, [a] + acts;
    forall i | 0 < i < |acts'| ensures Next(ws'[i], acts'[i], ws'[i + 1]) {
      assert ws'[i] == ws[i - 1] && acts'[i] == acts[i - 1] && ws'[i + 1] == ws[i];
    }
  }

  lemma OneAfter<Id>(ws: seq<Watch<Id>>, acts: seq<Action<Id>>, a: Action<Id>, last: Watch<Id>)
    returns (ws': seq<Watch<Id>>, acts': seq<Action<Id>>)
    requires Steps(ws, acts) && Next(ws[|acts|], a, last)
    ensures Steps(ws', acts') && ws'[0] == ws[0] && ws'[|acts'|] == last
  {
    ws', acts' := ws + [last], acts + [a];
    forall i | 0 <= i < |acts| ensures Next(ws'[i], acts'[i], ws'[i + 1]) {
      assert ws'[i] == ws[i] && acts'[i] == acts[i] && ws'[i + 1] == ws[i + 1];
    }
  }

  lemma {:induction false} PublishingSteps<Id>(w: Watch<Id>, batch: seq<Event>)
    returns (ws: seq<Watch<Id>>, acts: seq<Action<Id>>)
    requires w.scan.Publishing? && batch <= w.scan.todo
    ensures Steps(ws, acts) && ws[0] == w
    ensures ws[|acts|] == PublishAll(w, batch).(scan := w.scan.(todo := w.scan.todo[|batch|..]))
    decreases |batch|
  {
    if batch == [] {
      ws, acts := [w], [];
      assert w.log + batch == w.log;
    } else {
      var n := |batch| - 1;
      ws, acts := PublishingSteps(w, batch[..n]);
      var last := ws[|acts|];
      assert last.scan.todo[0] == batch[n] && last.scan.todo[1..] == w.scan.todo[|batch|..];
      PublishAllOne(w, batch[..n], batch[n]);
      assert batch == batch[..n] + [batch[n]];
      ws := ws + [Publish(last, batch[n]).(scan := w.scan.(todo := w.scan.todo[|batch|..]))];
      acts := acts + [PublishNext];
    }
  }
}
