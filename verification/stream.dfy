// What a sequence of add and remove events does to a set of listens.
module Stream {
  import opened Listens

  function Apply(s: set<Listen>, e: Event): set<Listen> {
    match e
    case Add(l) => s + {l}
    case Remove(l) => s - {l}
    case _ => s
  }

  function Replay(s: set<Listen>, evs: seq<Event>): set<Listen> {
    if evs == [] then s else Apply(Replay(s, evs[..|evs| - 1]), evs[|evs| - 1])
  }

  // An event that is news to a holder of s: an add of something absent or a
  // remove of something present.
  predicate News(s: set<Listen>, e: Event) {
    match e
    case Add(l) => l !in s
    case Remove(l) => l in s
    case _ => false
  }

  // Every event is news at the point where it comes.
  ghost predicate Exact(s: set<Listen>, evs: seq<Event>) {
    forall i :: 0 <= i < |evs| ==> News(Replay(s, evs[..i]), evs[i])
  }

  predicate About(e: Event, l: Listen) {
    e == Add(l) || e == Remove(l)
  }

  function Adds(ls: seq<Listen>): (evs: seq<Event>)
    ensures |evs| == |ls| && forall i :: 0 <= i < |ls| ==> evs[i] == Add(ls[i])
  {
    seq(|ls|, i requires 0 <= i < |ls| => Add(ls[i]))
  }

  function Elems(ls: seq<Listen>): set<Listen> {
    set l | l in ls
  }

  // order is a listing of s without repetitions, as sorting a snapshot gives.
  ghost predicate Lists<T(!new)>(order: seq<T>, s: set<T>) {
    && (forall x :: x in order <==> x in s)
    && (forall i, j :: 0 <= i < j < |order| ==> order[i] != order[j])
  }

  // ---- laws of replaying

  lemma {:induction false} ReplayConcat(s: set<Listen>, a: seq<Event>, b: seq<Event>)
    ensures Replay(s, a + b) == Replay(Replay(s, a), b)
    decreases |b|
  {
    if b == [] {
      assert a + b == a;
    } else {
      var n := |b| - 1;
      assert (a + b)[..|a + b| - 1] == a + b[..n];
      ReplayConcat(s, a, b[..n]);
    }
  }

  lemma ReplayOne(s: set<Listen>, a: seq<Event>, e: Event)
    ensures Replay(s, a + [e]) == Apply(Replay(s, a), e)
  {
    assert (a + [e])[..|a|] == a;
  }

  lemma ExactOne(s: set<Listen>, a: seq<Event>, e: Event)
    ensures Exact(s, a + [e]) <==> Exact(s, a) && News(Replay(s, a), e)
  {
    var ae := a + [e];
    assert forall i :: 0 <= i <= |a| ==> ae[..i] == a[..i];
    assert a[..|a|] == a;
    if Exact(s, ae) {
      assert News(Replay(s, ae[..|a|]), ae[|a|]);
      forall i | 0 <= i < |a| ensures News(Replay(s, a[..i]), a[i]) {
        assert News(Replay(s, ae[..i]), ae[i]);
      }
    }
  }

  lemma {:induction false} ExactConcat(s: set<Listen>, a: seq<Event>, b: seq<Event>)
    ensures Exact(s, a + b) <==> Exact(s, a) && Exact(Replay(s, a), b)
    decreases |b|
  {
    if b == [] {
      assert a + b == a;
    } else {
      var n := |b| - 1;
      assert a + b == (a + b[..n]) + [b[n]];
      assert b == b[..n] + [b[n]];
      ExactConcat(s, a, b[..n]);
      ReplayConcat(s, a, b[..n]);
      ExactOne(s, a + b[..n], b[n]);
      ExactOne(Replay(s, a), b[..n], b[n]);
    }
  }

  // Events about other listens leave l's membership alone.
  lemma {:induction false} ReplayFrame(s: set<Listen>, evs: seq<Event>, l: Listen)
    requires forall e :: e in evs ==> !About(e, l)
    ensures l in Replay(s, evs) <==> l in s
    decreases |evs|
  {
    if evs != [] {
      assert evs[|evs| - 1] in evs;
      ReplayFrame(s, evs[..|evs| - 1], l);
    }
  }

  // In an exact stream adds and removes of one listen strictly alternate: two
  // neighbouring events about it are never of the same kind.
  lemma {:induction false} StrictAlternation(s: set<Listen>, evs: seq<Event>, l: Listen, i: nat, j: nat)
    requires Exact(s, evs) && i < j < |evs|
    requires About(evs[i], l) && About(evs[j], l)
    requires forall k :: i < k < j ==> !About(evs[k], l)
    ensures evs[i].Add? <==> evs[j].Remove?
  {
    assert evs[..i + 1] == evs[..i] + [evs[i]];
    ReplayOne(s, evs[..i], evs[i]);
    var mid := evs[i + 1..j];
    assert evs[..j] == evs[..i + 1] + mid;
    ReplayConcat(s, evs[..i + 1], mid);
    forall e | e in mid ensures !About(e, l) {
      var k :| 0 <= k < |mid| && mid[k] == e;
      assert evs[i + 1 + k] == e;
    }
    ReplayFrame(Replay(s, evs[..i + 1]), mid, l);
    assert News(Replay(s, evs[..j]), evs[j]);
  }

  // A listing of adds builds the set it lists.
  lemma {:induction false} ReplayAdds(s: set<Listen>, ls: seq<Listen>)
    ensures Replay(s, Adds(ls)) == s + Elems(ls)
    decreases |ls|
  {
    if ls != [] {
      var n := |ls| - 1;
      assert Adds(ls)[..n] == Adds(ls[..n]);
      ReplayAdds(s, ls[..n]);
      assert ls == ls[..n] + [ls[n]];
    }
  }

  // The replica of what a server sends: its snapshot, the sync marker, then events.
  lemma ReplicaOfServed(order: seq<Listen>, s: set<Listen>, evs: seq<Event>, n: nat)
    requires Lists(order, s) && n <= |evs|
    ensures Replay({}, Adds(order) + [Sync] + evs[..n]) == Replay(s, evs[..n])
  {
    ReplayAdds({}, order);
    assert {} + Elems(order) == s;
    ReplayOne({}, Adds(order), Sync);
    ReplayConcat({}, Adds(order) + [Sync], evs[..n]);
  }
}
