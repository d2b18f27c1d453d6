// Keeping one running peer manager for each peer socket in a directory.
module Discovering {
  import opened Wrappers

  datatype DirEntry = DirEntry(name: string, dir: bool)

  // The names that count as peers in a listing.
  function Sockets(entries: seq<DirEntry>, self: string): (s: set<string>)
    ensures forall name :: name in s <==> name != self && DirEntry(name, false) in entries
  {
    if entries == [] then {}
    else
      var init, e := Sockets(entries[..|entries| - 1], self), entries[|entries| - 1];
      assert entries == entries[..|entries| - 1] + [e];
      if e.dir || e.name == self then init else init + {e.name}
  }

  ghost function Managers(peers: map<string, nat>, names: set<string>): set<nat> {
    set a | a in names && a in peers :: peers[a]
  }

  lemma OneMoreStopped(peers: map<string, nat>, stopped: set<string>, name: string)
    requires name in peers
    ensures Managers(peers, stopped + {name}) == Managers(peers, stopped) + {peers[name]}
    ensures peers - (stopped + {name}) == peers - stopped - {name}
  {
  }

  lemma ManagersLeft(peers: map<string, nat>, name: string)
    requires name in peers
    ensures forall m :: m in peers.Values && m != peers[name] ==> m in (peers - {name}).Values
  {
    forall m | m in peers.Values && m != peers[name] ensures m in (peers - {name}).Values {
      var a :| a in peers && peers[a] == m;
      assert (peers - {name})[a] == m;
    }
  }

  // Managers are numbered in the order they are started. A name's peer and
  // its cancel function belong to the same manager.
  class Discovery {
    const self: string
    var peers: map<string, nat>
    var cancels: map<string, nat>
    var started: nat
    var cancelled: set<nat>

    // Every manager ever started is in the table under one name, or was
    // cancelled, and not both.
    ghost predicate Valid()
      reads this
    {
      && peers == cancels
      && (forall a, b :: a in peers && b in peers && peers[a] == peers[b] ==> a == b)
      && (forall a :: a in peers ==> peers[a] < started && peers[a] !in cancelled)
      && (forall m :: 0 <= m < started ==> m in cancelled || m in peers.Values)
      && (forall m :: m in cancelled ==> m < started)
    }

    constructor (self: string)
      ensures Valid() && this.self == self
      ensures peers == map[] && started == 0
    {
      this.self := self;
      peers, cancels, started, cancelled := map[], map[], 0, {};
    }

    // None: the directory could not be listed.
    method Scan(listing: Option<seq<DirEntry>>)
      requires Valid()
      modifies this
      ensures Valid()
      ensures listing.None? ==> peers == old(peers) && started == old(started) && cancelled == old(cancelled)
      ensures listing.Some? ==> peers.Keys == Sockets(listing.value, self)
      // A socket still there keeps its manager, a new one gets a new manager,
      // and exactly the managers of sockets that are gone are cancelled.
      ensures forall a :: a in peers && a in old(peers) ==> peers[a] == old(peers)[a]
      ensures forall a :: a in peers && a !in old(peers) ==> old(started) <= peers[a]
      ensures listing.Some? ==> cancelled == old(cancelled) + Managers(old(peers), old(peers).Keys - peers.Keys)
    {
      if listing.None? {
        return;
      }
      var seen := StartNew(listing.value);
      ghost var grown := peers;
      CloseGone(seen);
      assert grown.Keys - seen == old(peers).Keys - peers.Keys;
    }

    // The first loop: a manager for every socket not known yet.
    method StartNew(entries: seq<DirEntry>) returns (seen: set<string>)
      requires Valid()
      modifies this
      ensures Valid() && cancelled == old(cancelled)
      ensures seen == Sockets(entries, self) && peers.Keys == old(peers).Keys + seen
      ensures forall a :: a in old(peers) ==> peers[a] == old(peers)[a]
      ensures forall a :: a in peers && a !in old(peers) ==> old(started) <= peers[a]
    {
      seen := {};
      for n := 0 to |entries|
        invariant Valid() && cancelled == old(cancelled) && old(started) <= started
        invariant seen == Sockets(entries[..n], self) && peers.Keys == old(peers).Keys + seen
        invariant forall a :: a in old(peers) ==> peers[a] == old(peers)[a]
        invariant forall a :: a in peers && a !in old(peers) ==> old(started) <= peers[a]
      {
        var e := entries[n];
        assert entries[..n + 1][..n] == entries[..n];
        if e.dir || e.name == self {
          continue;
        }
        seen := seen + {e.name};
        if e.name !in peers {
          Start(e.name);
        }
      }
      assert entries[..|entries|] == entries;
    }

    // The second loop: cancels the managers of sockets not seen.
    method CloseGone(seen: set<string>)
      requires Valid()
      modifies this
      ensures Valid() && started == old(started)
      ensures peers == old(peers) - (old(peers).Keys - seen)
      ensures cancelled == old(cancelled) + Managers(old(peers), old(peers).Keys - seen)
    {
      ghost var was, stopped := peers, {};
      var names := cancels.Keys;
      while names != {}
        invariant Valid() && started == old(started)
        invariant names <= was.Keys
        invariant forall a :: a in stopped <==> a in was && a !in names && a !in seen
        invariant peers == was - stopped
        invariant cancelled == old(cancelled) + Managers(was, stopped)
        decreases names
      {
        var name :| name in names;
        names := names - {name};
        if name in seen {
          continue;
        }
        OneMoreStopped(was, stopped, name);
        stopped := stopped + {name};
        Stop(name);
      }
    }

    method Start(name: string)
      requires Valid() && name !in peers
      modifies this
      ensures Valid()
      ensures peers == old(peers)[name := old(started)] && started == old(started) + 1
      ensures cancelled == old(cancelled)
    {
      ghost var was := peers;
      peers, cancels, started := peers[name := started], cancels[name := started], started + 1;
      assert peers[name] in peers.Values;
      forall m | 0 <= m < started ensures m in cancelled || m in peers.Values {
        if m != started - 1 && m !in cancelled {
          var a :| a in was && was[a] == m;
          assert peers[a] == m;
        }
      }
    }

    method Stop(name: string)
      requires Valid() && name in peers
      modifies this
      ensures Valid()
      ensures peers == old(peers) - {name} && started == old(started)
      ensures cancelled == old(cancelled) + {old(peers)[name]}
    {
      ManagersLeft(peers, name);
      cancelled := cancelled + {cancels[name]};
      cancels, peers := cancels - {name}, peers - {name};
    }

    // The loop's end: afterwards every manager ever started is cancelled.
    method Finish()
      requires Valid()
      modifies this
      ensures peers == old(peers) && cancels == old(cancels) && started == old(started)
      ensures forall m :: 0 <= m < started <==> m in cancelled
    {
      var names := cancels.Keys;
      while names != {}
        invariant peers == old(peers) && cancels == old(cancels) && started == old(started)
        invariant names <= cancels.Keys
        invariant forall m :: m in old(cancelled) ==> m in cancelled
        invariant forall m :: m in cancelled ==> m < started
        invariant forall a :: a in cancels && a !in names ==> cancels[a] in cancelled
        decreases names
      {
        var name :| name in names;
        cancelled, names := cancelled + {cancels[name]}, names - {name};
      }
    }
  }
}
