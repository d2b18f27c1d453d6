// A run of the ports client in which the startup deadline fires before a
// container has answered, and its ports never show up.
module DeadlineRun {
  import opened Listens
  import opened Stream
  import opened WatchModel
  import opened Ports
  import opened Link
  import opened ClientRun

  const WEB: Listen := Listen(V4, TCP, "127.0.0.1", 8080)

  // The container's watcher before, during and after its first scan, and with
  // the client subscribed.
  const W0: Watch<nat> := Watch({}, map[], map[], [], Idle)
  const W1: Watch<nat> := W0.(scan := Publishing([Add(WEB)], {WEB}))
  const W2: Watch<nat> := W1.(log := [Add(WEB)], scan := Publishing([], {WEB}))
  const W3: Watch<nat> := W2.(current := {WEB}, scan := Idle)
  const W4: Watch<nat> := W3.(subs := map[0 := Sub({WEB}, 1, [], [], false)])

  lemma FirstScan()
    ensures Next(W0, BeginScan({WEB}, [Add(WEB)]), W1)
    ensures Next(W1, PublishNext, W2)
    ensures Next(W2, EndScan, W3)
    ensures Next(W3, Subscribe(0), W4)
  {
    var adds := [Add(WEB)];
    assert Reported({WEB}, map[]) == {WEB};
    assert adds[..0] == [] && adds[0..] == adds && adds[..1] == adds && adds[1..] == [];
    assert IsDiff({}, {WEB}, adds) by {
      assert Exact({}, adds) && Replay({}, adds) == {WEB};
      assert AllAdds(adds[..1], {WEB} - {}) && AllRemoves(adds[1..], {} - {WEB});
    }
    assert Publish(W1, Add(WEB)).subs == map[];
    assert [] + adds == adds;
  }

  const C0: Cw := Cw(W0, Down(map[]), true, false, {}, [])
  const C3: Cw := C0.(srv := W3)
  const FRESH: Conn := Fresh(map[])
  const C4: Cw := C3.(srv := W4, link := Up(0, [WEB], [], FRESH))
  const C5: Cw := C4.(link := Up(0, [], [], FRESH.(incoming := {WEB})))
  const DONE: Conn := Conn(CountMap({WEB}), {WEB}, true, true)
  const C6: Cw := C5.(link := Up(0, [], [], DONE), replica := {WEB}, outs := [Startup(Image({WEB}))])

  lemma Answers()
    ensures CwNext(C3, Connect(0, [WEB]), C4)
    ensures CwNext(C4, ReadAdd, C5)
    ensures CwNext(C5, ReadSync, C6)
    ensures Drained(C6)
  {
    FirstScan();
    assert Lists([WEB], {WEB});
    assert {} + {WEB} == {WEB};
    assert [WEB][1..] == [];
    var none: seq<Out> := [];
    assert none + [] == none && none + [Startup(Image({WEB}))] == [Startup(Image({WEB}))];
    assert CountMap({WEB}).Keys == Image({WEB});
  }

  const S0: Client := Client(map[0 := C0], {0}, [], [], true, 1, map[], [], [])
  const S3: Client := S0.(cws := map[0 := C3])
  const S4: Client := S3.(remaining := 0)
  const S5: Client := S4.(collecting := false, changes := [First(map[])])
  const S6: Client := S5.(cws := map[0 := C4])
  const S7: Client := S6.(cws := map[0 := C5])
  const S8: Client := S7.(cws := map[0 := C6], startupCh := [(0, Image({WEB}))])

  function Scanning(w: Watch<nat>): Client {
    S0.(cws := map[0 := C0.(srv := w)])
  }

  lemma ServerStep(w: Watch<nat>, a: Action<nat>, w': Watch<nat>)
    requires Next(w, a, w')
    ensures ClientNext(Scanning(w), Watcher(0, Server(a)), Scanning(w'))
  {
    assert CwNext(C0.(srv := w), Server(a), C0.(srv := w'));
    assert Scanning(w').cws == Scanning(w).cws[0 := C0.(srv := w')];
  }

  lemma LateSteps()
    ensures ClientNext(S3, Deadline, S4)
    ensures ClientNext(S4, SendSnapshot, S5)
    ensures ClientNext(S5, Watcher(0, Connect(0, [WEB])), S6)
    ensures ClientNext(S6, Watcher(0, ReadAdd), S7)
    ensures ClientNext(S7, Watcher(0, ReadSync), S8)
  {
    Answers();
    var none: seq<Item> := [];
    assert none + [First(map[])] == [First(map[])];
  }

  // The container listens, has said so, and everything has been delivered;
  // yet the consumer has been sent an empty snapshot and nothing else.
  lemma DeadlineLosesPorts() returns (ss: seq<Client>, acts: seq<ClientAction>)
    ensures IsClientRun(ss, acts)
    ensures var s := ss[|acts|];
            && s.changes == [First(map[])] && s.pending == s.outCh == []
            && 0 in s.cws && Drained(s.cws[0]) && s.cws[0].srv.current == {WEB}
            && Lost(s, 0) && OpenAfter(Share(s.changes, 0)) == {}
  {
    FirstScan();
    ServerStep(W0, BeginScan({WEB}, [Add(WEB)]), W1);
    ServerStep(W1, PublishNext, W2);
    ServerStep(W2, EndScan, W3);
    LateSteps();
    LastState();
    ss := [S0, Scanning(W1), Scanning(W2), S3, S4, S5, S6, S7, S8];
    acts := [Watcher(0, Server(BeginScan({WEB}, [Add(WEB)]))), Watcher(0, Server(PublishNext)),
             Watcher(0, Server(EndScan)),
             Deadline, SendSnapshot, Watcher(0, Connect(0, [WEB])), Watcher(0, ReadAdd), Watcher(0, ReadSync)];
  }

  lemma LastState()
    ensures Drained(C6) && Lost(S8, 0) && OpenAfter(Share(S8.changes, 0)) == {}
  {
    Answers();
    assert Key(WEB) in Image({WEB});
    ShareFirst(map[], [], 0);
    assert [First(map[])] + [] == [First(map[])];
    UnreceivedFirst((0, Image({WEB})), [], 0);
    assert [(0, Image({WEB}))] + [] == S8.startupCh;
  }
}
