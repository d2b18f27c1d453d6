// A run of three containers in which a proxied listen is passed on after all,
// because a proxy is released between reading /proc and the diff.
module PhantomRun {
  import opened Listens
  import opened Containers
  import opened Wrappers

  const WEB: Listen := Listen(V4, TCP, "127.0.0.1", 8080)
  const NEW: Box := Box({}, {}, {}, {}, None, map[], map[], map[])

  // The owner: opens, reads /proc, announces.
  const A1: Box := NEW.(own := {WEB}, everOwn := {WEB})
  const A2: Box := A1.(reading := Some(Reading({WEB}, {WEB})))
  const A3: Box := A1.(current := {WEB}, advertised := {WEB})

  // The middle one: proxies it, reads /proc, stops proxying, then diffs.
  const B1: Box := NEW.(managers := map[0 := Manager(0, Live)])
  const B2: Box := B1.(excluded := map[WEB := 1], proxies := map[0 := Proxy(0, WEB, Starting)])
  const B3: Box := B2.(proxies := map[0 := Proxy(0, WEB, Running)])
  const B4: Box := B3.(reading := Some(Reading({WEB}, {})))
  const B5: Box := B4.(proxies := map[0 := Proxy(0, WEB, Closing)])
  const B6: Box := B1.(reading := Some(Reading({WEB}, {})))
  const B7: Box := B1.(current := {WEB}, advertised := {WEB})
  const B8: Box := B7.(reading := Some(Reading({}, {})))
  const B9: Box := B7.(current := {})

  // The third: proxies it for the middle one.
  const C1: Box := NEW.(managers := map[0 := Manager(1, Live)])
  const C2: Box := C1.(excluded := map[WEB := 1], proxies := map[0 := Proxy(0, WEB, Starting)])

  function Sys(a: Box, b: Box, c: Box, raced: bool): System {
    System(map[0 := a, 1 := b, 2 := c], raced)
  }

  lemma StepA(a: Box, b: Box, c: Box, act: BoxAction, a': Box)
    requires BoxNext(a, act, a', Heard(Sys(a, b, c, false))) && (act.Diff? ==> a.reading.Some? && CleanDiff(a))
    ensures SysNext(Sys(a, b, c, false), 0, act, Sys(a', b, c, false))
  {
    assert Sys(a, b, c, false).boxes[0] == a;
    assert Sys(a', b, c, false).boxes == Sys(a, b, c, false).boxes[0 := a'];
  }

  lemma StepB(a: Box, b: Box, c: Box, act: BoxAction, b': Box, raced: bool)
    requires BoxNext(b, act, b', Heard(Sys(a, b, c, raced)))
    ensures SysNext(Sys(a, b, c, raced), 1, act, Sys(a, b', c, raced || (act.Diff? && !CleanDiff(b))))
  {
    assert Sys(a, b', c, raced).boxes == Sys(a, b, c, raced).boxes[1 := b'];
  }

  lemma StepC(a: Box, b: Box, c: Box, act: BoxAction, c': Box)
    requires BoxNext(c, act, c', Heard(Sys(a, b, c, true))) && !act.Diff?
    ensures SysNext(Sys(a, b, c, true), 2, act, Sys(a, b, c', true))
  {
    assert Sys(a, b, c', true).boxes == Sys(a, b, c, true).boxes[2 := c'];
  }

  lemma OwnerSteps()
    ensures SysNext(Sys(NEW, NEW, NEW, false), 0, OpenOwn(WEB), Sys(A1, NEW, NEW, false))
    ensures SysNext(Sys(A1, NEW, NEW, false), 0, ReadProc, Sys(A2, NEW, NEW, false))
    ensures SysNext(Sys(A2, NEW, NEW, false), 0, Diff, Sys(A3, NEW, NEW, false))
  {
    assert Bound(A1) == {};
    assert {} + {WEB} == {WEB} && {WEB} + {} == {WEB};
    assert NextSet(A2) == {WEB};
    StepA(NEW, NEW, NEW, OpenOwn(WEB), A1);
    StepA(A1, NEW, NEW, ReadProc, A2);
    StepA(A2, NEW, NEW, Diff, A3);
  }

  lemma StartSteps()
    ensures SysNext(Sys(A3, NEW, NEW, false), 1, Discover(0, 0), Sys(A3, B1, NEW, false))
    ensures SysNext(Sys(A3, B1, NEW, false), 1, Start(0, 0, WEB), Sys(A3, B2, NEW, false))
  {
    var heard := Heard(Sys(A3, B1, NEW, false));
    assert heard(0) == {WEB};
    StepB(A3, NEW, NEW, Discover(0, 0), B1, false);
    StepB(A3, B1, NEW, Start(0, 0, WEB), B2, false);
  }

  lemma BindSteps()
    ensures SysNext(Sys(A3, B2, NEW, false), 1, Bind(0), Sys(A3, B3, NEW, false))
    ensures SysNext(Sys(A3, B3, NEW, false), 1, ReadProc, Sys(A3, B4, NEW, false))
  {
    StepB(A3, B2, NEW, Bind(0), B3, false);
    assert 0 in B3.proxies && B3.proxies[0].phase.Running?;
    assert Bound(B3) == {WEB} && {} + {WEB} == {WEB};
    StepB(A3, B3, NEW, ReadProc, B4, false);
  }

  lemma RaceSteps()
    ensures SysNext(Sys(A3, B4, NEW, false), 1, CloseSocket(0), Sys(A3, B5, NEW, false))
    ensures SysNext(Sys(A3, B5, NEW, false), 1, Release(0), Sys(A3, B6, NEW, false))
    ensures SysNext(Sys(A3, B6, NEW, false), 1, Diff, Sys(A3, B7, NEW, true))
  {
    StepB(A3, B4, NEW, CloseSocket(0), B5, false);
    assert B5.proxies - {0} == map[] && B5.excluded - {WEB} == map[];
    StepB(A3, B5, NEW, Release(0), B6, false);
    assert NextSet(B6) == {WEB} && WEB !in B6.reading.value.own;
    assert {} + {WEB} == {WEB};
    StepB(A3, B6, NEW, Diff, B7, false);
  }

  lemma PassedOnSteps()
    ensures SysNext(Sys(A3, B7, NEW, true), 2, Discover(0, 1), Sys(A3, B7, C1, true))
    ensures SysNext(Sys(A3, B7, C1, true), 2, Start(0, 0, WEB), Sys(A3, B7, C2, true))
    ensures SysNext(Sys(A3, B7, C2, true), 1, ReadProc, Sys(A3, B8, C2, true))
    ensures SysNext(Sys(A3, B8, C2, true), 1, Diff, Sys(A3, B9, C2, true))
  {
    var heard := Heard(Sys(A3, B7, C1, true));
    assert heard(1) == {WEB};
    StepC(A3, B7, NEW, Discover(0, 1), C1);
    StepC(A3, B7, C1, Start(0, 0, WEB), C2);
    assert Bound(B7) == {} && {} + Bound(B7) == {};
    StepB(A3, B7, C2, ReadProc, B8, true);
    assert NextSet(B8) == {} && B8.advertised + {} == B8.advertised;
    StepB(A3, B8, C2, Diff, B9, true);
  }

  ghost predicate PassedOn(s: System) {
    && s.boxes.Keys == {0, 1, 2}
    && s.boxes[1].current == {WEB} && s.boxes[1].everOwn == {}
    && 0 in s.boxes[2].proxies && !FromOwner(s, s.boxes[2], 0)
  }

  ghost predicate Healed(s: System) {
    1 in s.boxes && s.boxes[1].current == {}
  }

  lemma LastStates()
    ensures PassedOn(Sys(A3, B7, C2, true)) && Healed(Sys(A3, B9, C2, true))
  {
  }

  lemma UpToAnnounced() returns (ss: seq<System>, who: seq<nat>, acts: seq<BoxAction>)
    ensures IsSysRun(ss, who, acts) && |ss| == 4 && ss[3] == Sys(A3, NEW, NEW, false)
  {
    OwnerSteps();
    ss := [Sys(NEW, NEW, NEW, false), Sys(A1, NEW, NEW, false), Sys(A2, NEW, NEW, false), Sys(A3, NEW, NEW, false)];
    who, acts := [0, 0, 0], [OpenOwn(WEB), ReadProc, Diff];
  }

  lemma UpToRead() returns (ss: seq<System>, who: seq<nat>, acts: seq<BoxAction>)
    ensures IsSysRun(ss, who, acts) && |ss| == 8 && ss[7] == Sys(A3, B4, NEW, false)
  {
    ss, who, acts := UpToAnnounced();
    StartSteps();
    BindSteps();
    ss, who, acts := Extended(ss, who, acts, 1, Discover(0, 0), Sys(A3, B1, NEW, false));
    ss, who, acts := Extended(ss, who, acts, 1, Start(0, 0, WEB), Sys(A3, B2, NEW, false));
    ss, who, acts := Extended(ss, who, acts, 1, Bind(0), Sys(A3, B3, NEW, false));
    ss, who, acts := Extended(ss, who, acts, 1, ReadProc, Sys(A3, B4, NEW, false));
  }

  lemma UpToPhantom() returns (ss: seq<System>, who: seq<nat>, acts: seq<BoxAction>)
    ensures IsSysRun(ss, who, acts) && |ss| == 11 && ss[10] == Sys(A3, B7, NEW, true)
  {
    ss, who, acts := UpToRead();
    RaceSteps();
    ss, who, acts := Extended(ss, who, acts, 1, CloseSocket(0), Sys(A3, B5, NEW, false));
    ss, who, acts := Extended(ss, who, acts, 1, Release(0), Sys(A3, B6, NEW, false));
    ss, who, acts := Extended(ss, who, acts, 1, Diff, Sys(A3, B7, NEW, true));
  }

  lemma Extended(ss: seq<System>, who: seq<nat>, acts: seq<BoxAction>, c: nat, a: BoxAction, s': System)
    returns (ss': seq<System>, who': seq<nat>, acts': seq<BoxAction>)
    requires IsSysRun(ss, who, acts) && SysNext(ss[|acts|], c, a, s')
    ensures ss' == ss + [s'] && who' == who + [c] && acts' == acts + [a]
    ensures IsSysRun(ss', who', acts')
  {
    ss', who', acts' := ss + [s'], who + [c], acts + [a];
  }

  // Read and diff in one step is an assumption the code does not enforce. In
  // this run the middle container announces a listen it never opened, a third
  // starts proxying it on its behalf, and the next full scan puts the middle
  // container's set right again.
  lemma ProxiedListenPassedOn() returns (ss: seq<System>, who: seq<nat>, acts: seq<BoxAction>)
    ensures IsSysRun(ss, who, acts) && |ss| == 15
    ensures PassedOn(ss[12]) && Healed(ss[14])
  {
    ss, who, acts := UpToPhantom();
    PassedOnSteps();
    ss, who, acts := Extended(ss, who, acts, 2, Discover(0, 1), Sys(A3, B7, C1, true));
    ss, who, acts := Extended(ss, who, acts, 2, Start(0, 0, WEB), Sys(A3, B7, C2, true));
    ss, who, acts := Extended(ss, who, acts, 1, ReadProc, Sys(A3, B8, C2, true));
    ss, who, acts := Extended(ss, who, acts, 1, Diff, Sys(A3, B9, C2, true));
    LastStates();
  }
}
