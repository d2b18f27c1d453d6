// A peer manager and the proxies it runs, with the exclusions they hold.
module PeerManaging {
  import opened Listens
  import opened WatchModel
  import opened Watching
  import opened Peers
  import opened Wrappers

  // A proxy excludes its listen from the watcher for as long as it is open.
  class Proxy {
    const watcher: Watcher
    const listen: Listen
    var open: bool

    constructor (watcher: Watcher, listen: Listen)
      ensures this.watcher == watcher && this.listen == listen && open
    {
      this.watcher, this.listen, open := watcher, listen, true;
    }

    method Close()
      modifies this, watcher`excluded
      ensures !open && watcher.excluded == Unexcluding(old(watcher.excluded), listen)
      ensures old(AllPositive(watcher.excluded)) ==> AllPositive(watcher.excluded)
    {
      open := false;
      watcher.Unexclude(listen);
    }
  }

  // The listen is excluded before anything is bound, and no longer if nothing is.
  method StartProxy(watcher: Watcher, l: Listen, bound: bool) returns (proxy: Option<Proxy>)
    requires AllPositive(watcher.excluded)
    modifies watcher`excluded
    ensures AllPositive(watcher.excluded)
    // No listener, or a protocol not known: no proxy.
    ensures proxy.Some? <==> bound && (l.proto == TCP || l.proto == UDP)
    ensures proxy.Some? <==> Starts(l, bound)
    ensures proxy.Some? ==> fresh(proxy.value) && proxy.value.open
    ensures proxy.Some? ==> proxy.value.watcher == watcher && proxy.value.listen == l
    ensures watcher.excluded == if proxy.Some? then Excluding(old(watcher.excluded), l) else old(watcher.excluded)
  {
    watcher.Exclude(l);
    if !Starts(l, bound) {
      UnexcludeUndoesExclude(old(watcher.excluded), l);
      watcher.Unexclude(l);
      return None;
    }
    var p := new Proxy(watcher, l);
    return Some(p);
  }

  function Held(ls: set<Listen>, l: Listen): int {
    if l in ls then 1 else 0
  }

  // The exclusions others hold: all of them, less one for each listen in ls.
  ghost function Others(excluded: map<Listen, int>, ls: set<Listen>, l: Listen): int {
    Count(excluded, l) - Held(ls, l)
  }

  class PeerManager {
    const watcher: Watcher
    var proxies: map<Listen, Proxy>

    ghost predicate Valid()
      reads this, proxies.Values, watcher`excluded
    {
      && AllPositive(watcher.excluded)
      && (forall l :: l in proxies ==> proxies[l].watcher == watcher && proxies[l].listen == l && proxies[l].open)
      && (forall l :: l in proxies ==> Count(watcher.excluded, l) > 0)
    }

    // Whatever this manager does, the exclusions held by others stay as they are.
    twostate predicate OthersKept()
      reads this, watcher`excluded
    {
      forall l :: Others(watcher.excluded, proxies.Keys, l) == old(Others(watcher.excluded, proxies.Keys, l))
    }

    constructor (watcher: Watcher)
      requires AllPositive(watcher.excluded)
      ensures Valid() && proxies == map[] && this.watcher == watcher
    {
      this.watcher, proxies := watcher, map[];
    }

    method Add(l: Listen, bound: bool)
      requires Valid()
      modifies this`proxies, watcher`excluded
      ensures Valid() && OthersKept()
      ensures proxies.Keys == if Starts(l, bound) then old(proxies.Keys) + {l} else old(proxies.Keys)
      ensures forall k :: k in old(proxies) ==> proxies[k] == old(proxies)[k]
      ensures fresh(proxies.Values - old(proxies.Values))
    {
      if l in proxies {
        return;
      }
      var proxy := StartProxy(watcher, l, bound);
      if proxy == None {
        return;
      }
      proxies := proxies[l := proxy.value];
    }

    method Remove(l: Listen)
      requires Valid()
      modifies this`proxies, watcher`excluded, proxies.Values
      ensures Valid() && OthersKept()
      ensures proxies == old(proxies) - {l} && proxies.Values <= old(proxies.Values)
      ensures l in old(proxies) ==> !old(proxies)[l].open
      ensures forall p :: p in old(proxies.Values) && !old(p.open) ==> !p.open
    {
      if l in proxies {
        var proxy := proxies[l];
        proxies := proxies - {l};
        proxy.Close();
      }
    }

    method Reconcile(seen: set<Listen>)
      requires Valid()
      modifies this`proxies, watcher`excluded, proxies.Values
      ensures Valid() && OthersKept()
      ensures proxies == old(proxies) - (old(proxies.Keys) - seen) && proxies.Values <= old(proxies.Values)
      ensures forall l :: l in old(proxies) && l !in seen ==> !old(proxies)[l].open
    {
      var stale := set l | l in proxies && l !in seen;
      while stale != {}
        invariant Valid() && OthersKept()
        invariant forall l :: l in stale ==> l in proxies && l !in seen
        invariant forall l :: l in proxies <==> l in old(proxies) && (l in seen || l in stale)
        invariant forall l :: l in proxies ==> proxies[l] == old(proxies)[l]
        invariant forall l :: l in old(proxies) && l !in proxies ==> !old(proxies)[l].open
        invariant proxies.Values <= old(proxies.Values)
      {
        var l :| l in stale;
        stale := stale - {l};
        Remove(l);
      }
    }

    method StopAll()
      requires Valid()
      modifies this`proxies, watcher`excluded, proxies.Values
      ensures Valid() && OthersKept() && proxies == map[]
      ensures forall l :: l in old(proxies) ==> !old(proxies)[l].open
    {
      var stopping := proxies;
      proxies := map[];
      var todo := stopping.Keys;
      while todo != {}
        invariant todo <= stopping.Keys && proxies == map[] && AllPositive(watcher.excluded)
        invariant forall l :: l in stopping ==> stopping[l].watcher == watcher && stopping[l].listen == l
        invariant forall l :: Others(watcher.excluded, todo, l) == old(Others(watcher.excluded, proxies.Keys, l))
        invariant forall l :: l in todo ==> Count(watcher.excluded, l) > 0
        invariant forall l :: l in stopping && l !in todo ==> !stopping[l].open
      {
        var l :| l in todo;
        todo := todo - {l};
        stopping[l].Close();
      }
    }

    // One connection: it delivers evs and ends. bound tells, line by line,
    // whether a listener could be bound there.
    method WatchOnce(evs: seq<Event>, bound: seq<bool>)
      requires Valid() && |evs| <= |bound|
      modifies this`proxies, watcher`excluded, proxies.Values
      ensures Valid() && OthersKept()
      ensures proxies.Keys == OnLines(Begin(old(proxies.Keys)), evs, bound).proxies
      ensures fresh(proxies.Values - old(proxies.Values))
    {
      ghost var p0 := Begin(proxies.Keys);
      var seen: set<Listen>, synced := {}, false;
      for i := 0 to |evs|
        invariant Valid() && OthersKept()
        invariant Peer(proxies.Keys, seen, synced) == OnLines(p0, evs[..i], bound)
        invariant fresh(proxies.Values - old(proxies.Values))
      {
        assert evs[..i + 1][..i] == evs[..i];
        seen, synced := HandleLine(evs[i], bound[i], seen, synced);
      }
      assert evs[..|evs|] == evs;
    }

    // The body of the loop over the stream's lines.
    method HandleLine(e: Event, bound: bool, seen0: set<Listen>, synced0: bool)
      returns (seen: set<Listen>, synced: bool)
      requires Valid()
      modifies this`proxies, watcher`excluded, proxies.Values
      ensures Valid() && OthersKept()
      ensures Peer(proxies.Keys, seen, synced) == OnLine(Peer(old(proxies.Keys), seen0, synced0), e, bound)
      ensures fresh(proxies.Values - old(proxies.Values))
    {
      seen, synced := seen0, synced0;
      match e
      case Sync =>
        Reconcile(seen);
        synced := true;
      case Add(l) =>
        if !synced {
          seen := seen + {l};
        }
        Add(l, bound);
      case Remove(l) =>
        Remove(l);
      case Skipped =>
    }

    // Connection after connection; on the way out every proxy is stopped.
    method Run(conns: seq<(seq<Event>, seq<bool>)>)
      requires Valid() && forall c :: c in conns ==> |c.0| <= |c.1|
      modifies this`proxies, watcher`excluded, proxies.Values
      ensures Valid() && OthersKept() && proxies == map[]
    {
      for i := 0 to |conns|
        invariant Valid() && OthersKept()
        invariant fresh(proxies.Values - old(proxies.Values))
      {
        assert conns[i] in conns;
        WatchOnce(conns[i].0, conns[i].1);
      }
      StopAll();
    }
  }
}
