// What a peer manager proxies, as a function of the lines it reads.
module Peers {
  import opened Listens
  import opened Stream

  datatype Peer = Peer(proxies: set<Listen>, seen: set<Listen>, synced: bool)

  // bound says whether binding the local listener works, should it be tried.
  function Starts(l: Listen, bound: bool): bool {
    bound && !l.proto.UnknownProto?
  }

  function OnLine(p: Peer, e: Event, bound: bool): Peer {
    match e
    case Add(l) =>
      p.(seen := if p.synced then p.seen else p.seen + {l},
         proxies := if l !in p.proxies && Starts(l, bound) then p.proxies + {l} else p.proxies)
    case Remove(l) => p.(proxies := p.proxies - {l})
    case Sync => p.(proxies := p.proxies * p.seen, synced := true)
    case Skipped => p
  }

  function OnLines(p: Peer, evs: seq<Event>, bound: seq<bool>): Peer
    requires |evs| <= |bound|
  {
    if evs == [] then p else OnLine(OnLines(p, evs[..|evs| - 1], bound), evs[|evs| - 1], bound[|evs| - 1])
  }

  // A connection starts from the proxies kept from the one before.
  function Begin(proxies: set<Listen>): Peer {
    Peer(proxies, {}, false)
  }

  // The last that was heard of l is an add on which starting a proxy was tried
  // and failed.
  ghost predicate LastTryFailed(p: Peer, evs: seq<Event>, bound: seq<bool>, l: Listen)
    requires |evs| <= |bound|
  {
    exists i :: FailedAt(p, evs, bound, l, i)
  }

  ghost predicate FailedAt(p: Peer, evs: seq<Event>, bound: seq<bool>, l: Listen, i: int)
    requires |evs| <= |bound|
  {
    && 0 <= i < |evs|
    && evs[i] == Add(l) && !Starts(l, bound[i]) && l !in OnLines(p, evs[..i], bound).proxies
    && forall j :: i < j < |evs| ==> !About(evs[j], l)
  }

  // On one line: either it is about l, and decides the matter, or nothing changes.
  lemma LastTryOne(p: Peer, evs: seq<Event>, bound: seq<bool>, l: Listen, e: Event)
    requires |evs| < |bound|
    ensures !About(e, l) ==> (LastTryFailed(p, evs + [e], bound, l) <==> LastTryFailed(p, evs, bound, l))
    ensures About(e, l) ==> (LastTryFailed(p, evs + [e], bound, l) <==>
                             e == Add(l) && !Starts(l, bound[|evs|]) && l !in OnLines(p, evs, bound).proxies)
  {
    var all, n := evs + [e], |evs|;
    assert forall i :: 0 <= i <= n ==> all[..i] == evs[..i];
    assert evs[..n] == evs;
    if About(e, l) {
      assert all[n] == e;
      if e == Add(l) && !Starts(l, bound[n]) && l !in OnLines(p, evs, bound).proxies {
        assert FailedAt(p, all, bound, l, n);
      }
    } else {
      if i :| FailedAt(p, all, bound, l, i) {
        assert i < n && forall j :: i < j < n ==> !About(all[j], l);
        assert FailedAt(p, evs, bound, l, i);
      }
      if i :| FailedAt(p, evs, bound, l, i) {
        assert FailedAt(p, all, bound, l, i);
      }
    }
  }

  // What a server sends: adds, the sync marker, then anything but another sync.
  ghost predicate Served(order: seq<Listen>, evs: seq<Event>, stream: seq<Event>) {
    && stream <= Adds(order) + [Sync] + evs
    && forall e :: e in evs ==> !e.Sync?
  }

  // Among the listens the peer now has, exactly those are not proxied whose
  // last start failed; and past the sync marker nothing else is proxied.
  ghost predicate Tracking(p0: Peer, stream: seq<Event>, bound: seq<bool>)
    requires |stream| <= |bound|
  {
    var p, now := OnLines(p0, stream, bound), Replay({}, stream);
    && (forall l :: l in now ==> (l in p.proxies <==> !LastTryFailed(p0, stream, bound, l)))
    && (if p.synced then p.proxies <= now else p.seen == now)
  }

  lemma TrackingOne(p0: Peer, stream: seq<Event>, bound: seq<bool>, e: Event)
    requires |stream| < |bound| && Tracking(p0, stream, bound)
    requires var p := OnLines(p0, stream, bound); if p.synced then !e.Sync? else e.Add? || e.Sync?
    ensures Tracking(p0, stream + [e], bound)
  {
    assert (stream + [e])[..|stream|] == stream;
    ReplayOne({}, stream, e);
    var now := Replay({}, stream + [e]);
    forall l | l in now
      ensures l in OnLines(p0, stream + [e], bound).proxies <==> !LastTryFailed(p0, stream + [e], bound, l)
    {
      LastTryOne(p0, stream, bound, l, e);
    }
  }

  lemma {:induction false} StreamTracks(proxies: set<Listen>, order: seq<Listen>, evs: seq<Event>, stream: seq<Event>,
      bound: seq<bool>)
    requires Served(order, evs, stream) && |stream| <= |bound|
    ensures Tracking(Begin(proxies), stream, bound)
    ensures OnLines(Begin(proxies), stream, bound).synced <==> |stream| > |order|
    decreases |stream|
  {
    if stream != [] {
      var n := |stream| - 1;
      var all := Adds(order) + [Sync] + evs;
      assert stream == stream[..n] + [stream[n]] && stream[n] == all[n];
      StreamTracks(proxies, order, evs, stream[..n], bound);
      assert n > |order| ==> stream[n] == evs[n - |order| - 1];
      TrackingOne(Begin(proxies), stream[..n], bound, stream[n]);
    }
  }

  // Whatever was proxied before the reconnect: from the sync marker on, what
  // is proxied is exactly what the peer is listening on, minus those whose
  // last start failed.
  lemma Convergence(proxies: set<Listen>, order: seq<Listen>, s: set<Listen>, evs: seq<Event>, n: nat, bound: seq<bool>)
    requires Lists(order, s) && n <= |evs| && (forall e :: e in evs ==> !e.Sync?)
    requires |order| + 1 + n <= |bound|
    ensures var stream := Adds(order) + [Sync] + evs[..n];
            OnLines(Begin(proxies), stream, bound).proxies ==
            set l | l in Replay(s, evs[..n]) && !LastTryFailed(Begin(proxies), stream, bound, l)
  {
    var stream := Adds(order) + [Sync] + evs[..n];
    assert stream <= Adds(order) + [Sync] + evs;
    StreamTracks(proxies, order, evs, stream, bound);
    ReplicaOfServed(order, s, evs, n);
  }

  // In particular all of it, when every start works.
  lemma FullConvergence(proxies: set<Listen>, order: seq<Listen>, s: set<Listen>, evs: seq<Event>, n: nat,
      bound: seq<bool>)
    requires Lists(order, s) && n <= |evs| && (forall e :: e in evs ==> !e.Sync?)
    requires |order| + 1 + n <= |bound| && forall b :: b in bound ==> b
    requires forall e :: (e in Adds(order) || e in evs) && e.Add? ==> !e.listen.proto.UnknownProto?
    ensures OnLines(Begin(proxies), Adds(order) + [Sync] + evs[..n], bound).proxies == Replay(s, evs[..n])
  {
    Convergence(proxies, order, s, evs, n, bound);
    var stream := Adds(order) + [Sync] + evs[..n];
    forall l ensures !LastTryFailed(Begin(proxies), stream, bound, l) {
      forall i ensures !FailedAt(Begin(proxies), stream, bound, l, i) {
        if 0 <= i < |stream| {
          assert bound[i] in bound && stream[i] in stream;
        }
      }
    }
  }
}
