// The listen watcher and its subscribers' channels, as the program keeps
// them, against the operations of WatchModel.
module Watching {
  import opened Listens
  import Seqs
  import opened Stream
  import opened WatchModel
  import opened Wrappers

  // A subscriber's channel of CAPACITY events. The ghost fields remember what
  // the subscriber was given and has received.
  class EventChannel {
    var buffer: seq<Event>
    var closed: bool
    ghost var snapshot: set<Listen>
    ghost var start: nat
    ghost var taken: seq<Event>

    ghost function View(): Sub
      reads this
    {
      Sub(snapshot, start, taken, buffer, closed)
    }

    constructor (ghost snapshot: set<Listen>, ghost start: nat)
      ensures View() == Sub(snapshot, start, [], [], false)
    {
      buffer, closed := [], false;
      this.snapshot, this.start, taken := snapshot, start, [];
    }

    // A send that never blocks: it reports whether there was room.
    method TrySend(e: Event) returns (ok: bool)
      modifies this
      ensures ok == (|old(buffer)| < CAPACITY)
      ensures View() == if ok then old(View()).(queue := old(buffer) + [e]) else old(View())
    {
      ok := |buffer| < CAPACITY;
      if ok {
        buffer := buffer + [e];
      }
    }

    method Close()
      modifies this
      ensures View() == old(View()).(closed := true)
    {
      closed := true;
    }

    // The reader's side. None means that nothing is there to be taken; on a
    // closed channel it never will be.
    method Receive() returns (e: Option<Event>)
      modifies this
      ensures old(buffer) == [] ==> e == None && View() == old(View())
      ensures old(buffer) != [] ==>
                && e == Some(old(buffer)[0])
                && View() == old(View()).(taken := old(taken) + [old(buffer)[0]], queue := old(buffer)[1..])
    {
      if buffer == [] {
        return None;
      }
      e := Some(buffer[0]);
      taken := taken + [buffer[0]];
      buffer := buffer[1..];
    }
  }

  class Watcher {
    var current: set<Listen>
    var excluded: map<Listen, int>
    var subs: set<EventChannel>
    ghost var log: seq<Event>
    ghost var known: set<EventChannel> // every channel handed out, dropped ones included

    ghost function SubViews(): map<EventChannel, Sub>
      reads this, known
    {
      map ch | ch in known :: ch.View()
    }

    ghost function View(): Watch<EventChannel>
      reads this, known
    {
      Watch(current, excluded, SubViews(), log, Idle)
    }

    // subs holds just the channels that are still open.
    ghost predicate OpenOnly()
      reads this`subs, this`known, known
    {
      subs <= known && forall ch :: ch in known ==> (ch in subs <==> !ch.closed)
    }

    ghost predicate Valid()
      reads this`current, this`subs, this`log, this`known, known
    {
      && OpenOnly()
      && Exact({}, log) && Replay({}, log) == current
      && forall ch :: ch in known ==> Tracks(ch.View(), log)
    }

    // Exclude and Unexclude keep AllPositive on their own.
    lemma ValidIsInv()
      requires Valid() && AllPositive(excluded)
      ensures Inv(View())
    {
    }

    lemma ViewIs(w: Watch<EventChannel>)
      requires w.current == current && w.excluded == excluded && w.log == log && w.scan == Idle
      requires w.subs.Keys == known && forall ch :: ch in known ==> ch.View() == w.subs[ch]
      ensures View() == w
    {
    }

    constructor ()
      ensures Valid() && Init(View())
    {
      current, excluded, subs := {}, map[], {};
      log, known := [], {};
    }

    method Publish(e: Event)
      requires OpenOnly()
      modifies this`subs, this`log, subs
      ensures OpenOnly() && log == old(log) + [e]
      ensures forall ch :: ch in known ==> ch.View() == Push(old(ch.View()), e)
    {
      var todo := subs;
      while todo != {}
        invariant todo <= subs <= old(subs) && log == old(log)
        invariant forall ch :: ch in known ==>
                  ch.View() == if ch in old(subs) && ch !in todo then Push(old(ch.View()), e) else old(ch.View())
        invariant forall ch :: ch in known ==> (ch in subs <==> !ch.closed)
      {
        var ch :| ch in todo;
        todo := todo - {ch};
        var ok := ch.TrySend(e);
        if !ok {
          ch.Close();
          subs := subs - {ch};
        }
      }
      log := log + [e];
    }

    // raw is what reading /proc/net gave, None if that failed.
    method ScanOnce(raw: Option<set<Listen>>) returns (ghost batch: seq<Event>)
      requires Valid()
      modifies this`current, this`subs, this`log, known
      ensures Valid()
      ensures raw == None ==> View() == old(View()) && batch == []
      ensures raw.Some? ==>
                && IsDiff(old(current), Reported(raw.value, excluded), batch)
                && View() == Scanned(old(View()), raw.value, batch)
    {
      batch := [];
      if raw == None {
        return;
      }
      var next, todo := {}, raw.value;
      while todo != {}
        invariant todo <= raw.value
        invariant next == Reported(raw.value - todo, excluded)
      {
        var l :| l in todo;
        todo := todo - {l};
        if Count(excluded, l) <= 0 {
          next := next + {l};
        }
      }
      batch := PublishDiff(next);
      ExactConcat({}, old(log), batch);
      ReplayConcat({}, old(log), batch);
      forall ch | ch in known ensures Tracks(ch.View(), log) {
        TracksPushAll(old(ch.View()), old(log), batch);
      }
      current := next;
      ViewIs(Scanned(old(View()), raw.value, batch));
    }

    method PublishDiff(next: set<Listen>) returns (ghost batch: seq<Event>)
      requires OpenOnly()
      modifies this`subs, this`log, known
      ensures OpenOnly() && Sent(old(log), old(SubViews()), batch)
      ensures IsDiff(current, next, batch)
    {
      ghost var log0, subs0 := log, SubViews();
      ghost var adds := PublishAdds(next);
      ghost var log1, subs1 := log, SubViews();
      ghost var removes := PublishRemoves(next);
      batch := adds + removes;
      SentTwice(log0, subs0, adds, log1, subs1, removes);
      DiffConcat(current, next, adds, removes);
    }

    lemma SentTwice(log0: seq<Event>, subs0: map<EventChannel, Sub>, a: seq<Event>, log1: seq<Event>,
        subs1: map<EventChannel, Sub>, b: seq<Event>)
      requires log1 == log0 + a && subs0.Keys == subs1.Keys
      requires forall ch :: ch in subs0 ==> subs1[ch] == PushAll(subs0[ch], a)
      requires Sent(log1, subs1, b)
      ensures Sent(log0, subs0, a + b)
    {
      Seqs.Assoc(log0, a, b);
      forall ch | ch in known ensures ch.View() == PushAll(subs0[ch], a + b) {
        PushAllConcat(subs0[ch], a, b);
      }
    }

    method PublishAdds(next: set<Listen>) returns (ghost adds: seq<Event>)
      requires OpenOnly()
      modifies this`subs, this`log, known
      ensures OpenOnly() && Sent(old(log), old(SubViews()), adds)
      ensures Exact(current, adds) && Replay(current, adds) == current + next && AllAdds(adds, next - current)
    {
      adds := [];
      ghost var log0, subs0 := log, SubViews();
      var todo := next;
      while todo != {}
        invariant todo <= next
        invariant OpenOnly() && Sent(log0, subs0, adds)
        invariant Exact(current, adds) && Replay(current, adds) == current + (next - todo)
                  && AllAdds(adds, next - current)
      {
        var l :| l in todo;
        ghost var todo0 := todo;
        todo := todo - {l};
        assert todo0 == todo + {l};
        AddsOne(current, next, todo, adds, l);
        if l !in current {
          adds := PublishNew(current, log0, subs0, adds, Add(l));
        }
      }
    }

    lemma AddsOne(from: set<Listen>, to: set<Listen>, todo: set<Listen>, adds: seq<Event>, l: Listen)
      requires l in to && l !in todo && todo <= to && AllAdds(adds, to - from)
      ensures l !in from ==> AllAdds(adds + [Event.Add(l)], to - from)
      ensures from + (to - (todo + {l})) + {l} == from + (to - todo)
      ensures l in from ==> from + (to - (todo + {l})) == from + (to - todo)
      ensures l !in from ==> l !in from + (to - (todo + {l}))
    {
    }

    lemma RemovesOne(from: set<Listen>, to: set<Listen>, todo: set<Listen>, removes: seq<Event>, l: Listen)
      requires l in from && l !in todo && AllRemoves(removes, from - to)
      ensures l !in to ==> AllRemoves(removes + [Event.Remove(l)], from - to)
      ensures l !in to ==> to + (todo + {l}) - {l} == to + todo
      ensures l in to ==> to + (todo + {l}) == to + todo
    {
    }

    method PublishRemoves(next: set<Listen>) returns (ghost removes: seq<Event>)
      requires OpenOnly()
      modifies this`subs, this`log, known
      ensures OpenOnly() && Sent(old(log), old(SubViews()), removes)
      ensures Exact(current + next, removes) && Replay(current + next, removes) == next
              && AllRemoves(removes, current - next)
    {
      removes := [];
      ghost var log0, subs0 := log, SubViews();
      var todo := current;
      while todo != {}
        invariant todo <= current
        invariant OpenOnly() && Sent(log0, subs0, removes)
        invariant Exact(current + next, removes) && Replay(current + next, removes) == next + todo
                  && AllRemoves(removes, current - next)
      {
        var l :| l in todo;
        ghost var todo0 := todo;
        todo := todo - {l};
        assert todo0 == todo + {l};
        RemovesOne(current, next, todo, removes, l);
        if l !in next {
          removes := PublishNew(current + next, log0, subs0, removes, Remove(l));
        }
      }
    }

    // Since the log and the channels were as given, just batch has been published.
    ghost predicate Sent(log0: seq<Event>, subs0: map<EventChannel, Sub>, batch: seq<Event>)
      reads this`log, this`known, known
    {
      log == log0 + batch && subs0.Keys == known && forall ch :: ch in known ==> ch.View() == PushAll(subs0[ch], batch)
    }

    method PublishNew(ghost from: set<Listen>, ghost log0: seq<Event>, ghost subs0: map<EventChannel, Sub>,
        ghost batch: seq<Event>, e: Event)
      returns (ghost batch': seq<Event>)
      requires OpenOnly() && Sent(log0, subs0, batch)
      requires Exact(from, batch) && News(Replay(from, batch), e)
      modifies this`subs, this`log, known
      ensures batch' == batch + [e] && OpenOnly() && Sent(log0, subs0, batch')
      ensures Exact(from, batch') && Replay(from, batch') == Apply(Replay(from, batch), e)
    {
      Publish(e);
      batch' := batch + [e];
      ExactOne(from, batch, e);
      ReplayOne(from, batch, e);
      Seqs.Assoc(log0, batch, [e]);
      Seqs.Front(batch, e);
    }

    method Subscribe() returns (ch: EventChannel, snapshot: seq<Listen>)
      requires Valid()
      modifies this`subs, this`known
      ensures Valid() && fresh(ch)
      ensures View() == Subscribed(old(View()), ch)
      ensures Lists(snapshot, current)
    {
      snapshot := Listing();
      ch := new EventChannel(current, |log|);
      subs, known := subs + {ch}, known + {ch};
      TracksNew(current, log);
      ViewIs(Subscribed(old(View()), ch));
    }

    method Listing() returns (snapshot: seq<Listen>)
      ensures Lists(snapshot, current)
    {
      snapshot := [];
      var todo := current;
      while todo != {}
        invariant todo <= current && Lists(snapshot, current - todo)
      {
        var l :| l in todo;
        todo := todo - {l};
        snapshot := snapshot + [l];
      }
    }

    // The cancel function a subscriber is handed.
    method Cancel(ch: EventChannel)
      requires Valid() && ch in known
      modifies this`subs, ch
      ensures Valid()
      ensures View() == Cancelled(old(View()), ch)
    {
      ghost var view0 := View();
      TracksClosed(ch.View(), log);
      if ch in subs {
        subs := subs - {ch};
        ch.Close();
      }
      ViewIs(Cancelled(view0, ch));
    }

    method Exclude(l: Listen)
      modifies this`excluded
      ensures excluded == Excluding(old(excluded), l)
      ensures old(AllPositive(excluded)) ==> AllPositive(excluded)
    {
      excluded := excluded[l := Count(excluded, l) + 1];
    }

    method Unexclude(l: Listen)
      modifies this`excluded
      ensures excluded == Unexcluding(old(excluded), l)
      ensures old(AllPositive(excluded)) ==> AllPositive(excluded)
    {
      if Count(excluded, l) <= 1 {
        excluded := excluded - {l};
        return;
      }
      excluded := excluded[l := excluded[l] - 1];
    }
  }
}
