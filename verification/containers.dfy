// Containers sharing their listeners: own sockets, proxies on behalf of peers
// in every stage of their life, exclusions, and what each advertises.
module Containers {
  import opened Listens
  import opened WatchModel
  import opened Wrappers

  // Excluded but not yet bound; bound; socket closed but still excluded.
  datatype Phase = Starting | Running | Closing

  datatype Proxy = Proxy(manager: nat, listen: Listen, phase: Phase)

  datatype Stage = Live | Cancelled | Ended

  datatype Manager = Manager(peer: nat, stage: Stage)

  // What /proc/net said when it was last read, and which sockets of it were
  // the container's own.
  datatype Reading = Reading(raw: set<Listen>, own: set<Listen>)

  // everOwn and advertised only grow: the listens the container's own
  // processes ever opened, and those its watcher ever announced.
  datatype Box = Box(
    own: set<Listen>, everOwn: set<Listen>,
    current: set<Listen>, advertised: set<Listen>, reading: Option<Reading>,
    excluded: map<Listen, int>, proxies: map<nat, Proxy>, managers: map<nat, Manager>)

  // raced: some scan has taken a proxy's socket for the container's own.
  datatype System = System(boxes: map<nat, Box>, raced: bool)

  datatype BoxAction =
    | OpenOwn(listen: Listen)
    | CloseOwn(listen: Listen)
    | ReadProc
    | Diff
    | Discover(manager: nat, peer: nat)
    | Cancel(manager: nat)
    | Start(manager: nat, id: nat, listen: Listen)
    | Bind(id: nat)
    | BindFails(id: nat)
    | CloseSocket(id: nat)
    | Release(id: nat)
    | End(manager: nat)

  function Bound(b: Box): set<Listen> {
    set i | i in b.proxies && b.proxies[i].phase.Running? :: b.proxies[i].listen
  }

  function ProxiesFor(b: Box, l: Listen): set<nat> {
    set i | i in b.proxies && b.proxies[i].listen == l
  }

  function Without(b: Box, id: nat): Box
    requires id in b.proxies
  {
    b.(proxies := b.proxies - {id}, excluded := Unexcluding(b.excluded, b.proxies[id].listen))
  }

  function InPhase(b: Box, id: nat, phase: Phase): Box
    requires id in b.proxies
  {
    b.(proxies := b.proxies[id := b.proxies[id].(phase := phase)])
  }

  // What the scan that this reading is for will take the watcher's set to be.
  function NextSet(b: Box): set<Listen>
    requires b.reading.Some?
  {
    Reported(b.reading.value.raw, b.excluded)
  }

  // A step of one container; heard is what its peers have ever announced.
  ghost predicate BoxNext(b: Box, a: BoxAction, b': Box, heard: nat -> set<Listen>) {
    match a
    case OpenOwn(l) => b' == b.(own := b.own + {l}, everOwn := b.everOwn + {l})
    case CloseOwn(l) => b' == b.(own := b.own - {l})
    case ReadProc => b' == b.(reading := Some(Reading(b.own + Bound(b), b.own)))
    case Diff =>
      && b.reading.Some?
      && b' == b.(reading := None, current := NextSet(b), advertised := b.advertised + NextSet(b))
    case Discover(m, peer) => m !in b.managers && b' == b.(managers := b.managers[m := Manager(peer, Live)])
    case Cancel(m) =>
      && m in b.managers && b.managers[m].stage.Live?
      && b' == b.(managers := b.managers[m := b.managers[m].(stage := Cancelled)])
    case Start(m, id, l) =>
      && m in b.managers && !b.managers[m].stage.Ended? && l in heard(b.managers[m].peer)
      && id !in b.proxies && (forall i :: i in b.proxies && b.proxies[i].manager == m ==> b.proxies[i].listen != l)
      && b' == b.(excluded := Excluding(b.excluded, l), proxies := b.proxies[id := Proxy(m, l, Starting)])
    case Bind(id) => id in b.proxies && b.proxies[id].phase.Starting? && b' == InPhase(b, id, Running)
    case BindFails(id) => id in b.proxies && b.proxies[id].phase.Starting? && b' == Without(b, id)
    case CloseSocket(id) => id in b.proxies && b.proxies[id].phase.Running? && b' == InPhase(b, id, Closing)
    case Release(id) => id in b.proxies && b.proxies[id].phase.Closing? && b' == Without(b, id)
    case End(m) =>
      && m in b.managers && b.managers[m].stage.Cancelled? && (forall i :: i in b.proxies ==> b.proxies[i].manager != m)
      && b' == b.(managers := b.managers[m := b.managers[m].(stage := Ended)])
  }

  function Advertised(s: System, c: nat): set<Listen> {
    if c in s.boxes then s.boxes[c].advertised else {}
  }

  function EverOwn(s: System, c: nat): set<Listen> {
    if c in s.boxes then s.boxes[c].everOwn else {}
  }

  function Heard(s: System): nat -> set<Listen> {
    (d: nat) => Advertised(s, d)
  }

  // A scan that finds nothing but the container's own sockets.
  predicate CleanDiff(b: Box)
    requires b.reading.Some?
  {
    NextSet(b) <= b.reading.value.own
  }

  ghost predicate SysNext(s: System, c: nat, a: BoxAction, s': System) {
    && c in s.boxes && c in s'.boxes
    && BoxNext(s.boxes[c], a, s'.boxes[c], Heard(s))
    && s' == System(s.boxes[c := s'.boxes[c]], s.raced || (a.Diff? && !CleanDiff(s.boxes[c])))
  }

  predicate Empty(b: Box) {
    b == Box({}, {}, {}, {}, None, map[], map[], map[])
  }

  ghost predicate SysInit(s: System) {
    !s.raced && forall c :: c in s.boxes ==> Empty(s.boxes[c])
  }

  ghost predicate IsSysRun(ss: seq<System>, who: seq<nat>, acts: seq<BoxAction>) {
    && |ss| == |acts| + 1 == |who| + 1
    && SysInit(ss[0])
    && forall i :: 0 <= i < |acts| ==> SysNext(ss[i], who[i], acts[i], ss[i + 1])
  }

  // ---- exclusions are conserved

  ghost predicate Conserved(b: Box) {
    forall l :: Count(b.excluded, l) == |ProxiesFor(b, l)|
  }

  ghost predicate BoxInv(b: Box) {
    && AllPositive(b.excluded)
    && Conserved(b)
    && b.own <= b.everOwn
    && b.current <= b.advertised
    && (b.reading.Some? ==> b.reading.value.own <= b.everOwn)
    && (forall i :: i in b.proxies ==>
          b.proxies[i].manager in b.managers && !b.managers[b.proxies[i].manager].stage.Ended?)
  }

  lemma ProxiesForAdded(b: Box, b': Box, id: nat, l: Listen)
    requires id !in b.proxies && id in b'.proxies && b'.proxies == b.proxies[id := b'.proxies[id]]
    ensures |ProxiesFor(b', l)| == |ProxiesFor(b, l)| + if b'.proxies[id].listen == l then 1 else 0
  {
    if b'.proxies[id].listen == l {
      assert ProxiesFor(b', l) == ProxiesFor(b, l) + {id};
    } else {
      assert ProxiesFor(b', l) == ProxiesFor(b, l);
    }
  }

  lemma ConservedStart(b: Box, m: nat, id: nat, l: Listen, b': Box)
    requires Conserved(b) && id !in b.proxies && AllPositive(b.excluded)
    requires b' == b.(excluded := Excluding(b.excluded, l), proxies := b.proxies[id := Proxy(m, l, Starting)])
    ensures Conserved(b') && AllPositive(b'.excluded)
  {
    forall x ensures Count(b'.excluded, x) == |ProxiesFor(b', x)| {
      ProxiesForAdded(b, b', id, x);
    }
  }

  // Taking back an exclusion never takes one that is somebody else's.
  lemma ConservedWithout(b: Box, id: nat)
    requires Conserved(b) && id in b.proxies && AllPositive(b.excluded)
    ensures Conserved(Without(b, id)) && AllPositive(Without(b, id).excluded)
  {
    var b', l := Without(b, id), b.proxies[id].listen;
    assert id in ProxiesFor(b, l);
    forall x ensures Count(b'.excluded, x) == |ProxiesFor(b', x)| {
      ProxiesForAdded(b', b, id, x);
      assert Count(b.excluded, x) == |ProxiesFor(b, x)|;
    }
  }

  lemma ConservedPhase(b: Box, id: nat, phase: Phase)
    requires Conserved(b) && id in b.proxies
    ensures Conserved(InPhase(b, id, phase))
  {
    forall x ensures ProxiesFor(InPhase(b, id, phase), x) == ProxiesFor(b, x) {
    }
  }

  lemma BoxInvStep(b: Box, a: BoxAction, b': Box, heard: nat -> set<Listen>)
    requires BoxInv(b) && BoxNext(b, a, b', heard)
    ensures BoxInv(b')
  {
    match a
    case Start(m, id, l) => ConservedStart(b, m, id, l, b');
    case BindFails(id) => ConservedWithout(b, id);
    case Release(id) => ConservedWithout(b, id);
    case Bind(id) => ConservedPhase(b, id, Running);
    case CloseSocket(id) => ConservedPhase(b, id, Closing);
    case _ => assert forall l :: ProxiesFor(b', l) == ProxiesFor(b, l);
  }

  // Once every manager has ended, nothing is excluded.
  lemma AllEndedNothingExcluded(b: Box)
    requires BoxInv(b) && forall m :: m in b.managers ==> b.managers[m].stage.Ended?
    ensures b.excluded == map[] && b.proxies == map[]
  {
    forall l ensures l !in b.excluded {
      assert ProxiesFor(b, l) == {};
      assert Count(b.excluded, l) == 0;
    }
  }

  // ---- what a scan finds

  // A scan takes up a listen that only a proxy had a socket for if and only if
  // its exclusion was taken back after /proc was read.
  lemma PhantomIff(b: Box, b': Box, heard: nat -> set<Listen>)
    requires BoxInv(b) && BoxNext(b, Diff, b', heard)
    ensures b'.current <= b.reading.value.own <==>
            forall l :: l in b.reading.value.raw - b.reading.value.own ==> ProxiesFor(b, l) != {}
  {
  }

  // Every socket seen at the last reading that was not the container's own is
  // still some proxy's, which has not let go of its exclusion.
  ghost predicate Covered(b: Box) {
    b.reading.Some? ==> forall l :: l in b.reading.value.raw - b.reading.value.own ==> StillHeld(b, l)
  }

  ghost predicate StillHeld(b: Box, l: Listen) {
    exists i :: HeldBy(b, l, i)
  }

  predicate HeldBy(b: Box, l: Listen, i: nat) {
    i in b.proxies && b.proxies[i].listen == l && !b.proxies[i].phase.Starting?
  }

  lemma CoveredRead(b: Box, b': Box, heard: nat -> set<Listen>)
    requires BoxNext(b, ReadProc, b', heard)
    ensures Covered(b')
  {
    forall l | l in b'.reading.value.raw - b'.reading.value.own ensures StillHeld(b', l) {
      assert l in Bound(b);
      var i :| i in b.proxies && b.proxies[i].phase.Running? && b.proxies[i].listen == l;
      assert HeldBy(b', l, i);
    }
  }

  lemma CoveredStep(b: Box, a: BoxAction, b': Box, heard: nat -> set<Listen>)
    requires Covered(b) && BoxNext(b, a, b', heard) && !a.Release?
    ensures Covered(b')
  {
    if a.ReadProc? {
      CoveredRead(b, b', heard);
    } else if b'.reading.Some? {
      forall l | l in b'.reading.value.raw - b'.reading.value.own ensures StillHeld(b', l) {
        assert StillHeld(b, l);
        var i :| HeldBy(b, l, i);
        assert HeldBy(b', l, i);
      }
    }
  }

  lemma HeldIsExcluded(b: Box, l: Listen)
    requires Conserved(b) && StillHeld(b, l)
    ensures Count(b.excluded, l) > 0
  {
    var i :| HeldBy(b, l, i);
    assert i in ProxiesFor(b, l);
    assert Count(b.excluded, l) == |ProxiesFor(b, l)|;
  }

  lemma CoveredIsClean(b: Box)
    requires BoxInv(b) && Covered(b) && b.reading.Some?
    ensures CleanDiff(b)
  {
    forall l | l in b.reading.value.raw - b.reading.value.own ensures l !in NextSet(b) {
      HeldIsExcluded(b, l);
    }
  }

  // ---- nothing is advertised second-hand

  ghost predicate FirstHand(s: System) {
    forall c :: c in s.boxes ==>
      && s.boxes[c].advertised <= s.boxes[c].everOwn
      && forall i :: i in s.boxes[c].proxies ==> FromOwner(s, s.boxes[c], i)
  }

  // The peer a proxy forwards to has itself opened the listen.
  ghost predicate FromOwner(s: System, b: Box, i: nat)
    requires i in b.proxies
  {
    b.proxies[i].manager in b.managers && b.proxies[i].listen in EverOwn(s, b.managers[b.proxies[i].manager].peer)
  }

  ghost predicate SysInv(s: System) {
    && (forall c :: c in s.boxes ==> BoxInv(s.boxes[c]))
    && (!s.raced ==> FirstHand(s))
  }

  // Only what was proxied before, or was just started, is proxied after; and
  // managers keep their peers.
  lemma ProxiesComeFrom(b: Box, a: BoxAction, b': Box, heard: nat -> set<Listen>, i: nat)
    requires BoxInv(b) && BoxNext(b, a, b', heard) && i in b'.proxies
    ensures b'.everOwn >= b.everOwn
    ensures b'.proxies[i].manager in b'.managers
    ensures if i in b.proxies && !(a.Start? && a.id == i) then
              && b.proxies[i].manager == b'.proxies[i].manager && b.proxies[i].listen == b'.proxies[i].listen
              && b.managers[b.proxies[i].manager].peer == b'.managers[b'.proxies[i].manager].peer
            else b'.proxies[i].listen in heard(b'.managers[b'.proxies[i].manager].peer)
  {
  }

  lemma FirstHandStep(s: System, c: nat, a: BoxAction, s': System)
    requires (forall d :: d in s.boxes ==> BoxInv(s.boxes[d])) && FirstHand(s) && SysNext(s, c, a, s') && !s'.raced
    ensures FirstHand(s')
  {
    var b, b' := s.boxes[c], s'.boxes[c];
    var heard := Heard(s);
    forall d ensures EverOwn(s, d) <= EverOwn(s', d) && Advertised(s, d) <= EverOwn(s, d) {
    }
    forall i | i in b'.proxies ensures FromOwner(s', b', i) {
      ProxiesComeFrom(b, a, b', heard, i);
      if i in b.proxies {
        assert FromOwner(s, b, i);
      }
    }
    forall d, i | d in s.boxes && d != c && i in s.boxes[d].proxies ensures FromOwner(s', s'.boxes[d], i) {
      assert FromOwner(s, s.boxes[d], i);
    }
  }

  lemma SysInvStep(s: System, c: nat, a: BoxAction, s': System)
    requires SysInv(s) && SysNext(s, c, a, s')
    ensures SysInv(s')
  {
    BoxInvStep(s.boxes[c], a, s'.boxes[c], Heard(s));
    if !s'.raced {
      FirstHandStep(s, c, a, s');
    }
  }

  lemma {:induction false} SysInvRun(ss: seq<System>, who: seq<nat>, acts: seq<BoxAction>, i: nat)
    requires IsSysRun(ss, who, acts) && i < |ss|
    ensures SysInv(ss[i])
  {
    if i == 0 {
      forall c | c in ss[0].boxes ensures BoxInv(ss[0].boxes[c]) {
        assert Empty(ss[0].boxes[c]);
      }
    } else {
      SysInvRun(ss, who, acts, i - 1);
      SysInvStep(ss[i - 1], who[i - 1], acts[i - 1], ss[i]);
    }
  }

  // Exclusion conservation, over every run: at every moment a listen is
  // excluded as many times as there are proxies for it that are starting,
  // running or not yet fully closed, of whatever manager; and a container all
  // of whose managers have ended excludes nothing.
  lemma ExclusionConservation(ss: seq<System>, who: seq<nat>, acts: seq<BoxAction>, i: nat, c: nat, l: Listen)
    requires IsSysRun(ss, who, acts) && i < |ss| && c in ss[i].boxes
    ensures Count(ss[i].boxes[c].excluded, l) == |ProxiesFor(ss[i].boxes[c], l)|
    ensures (forall m :: m in ss[i].boxes[c].managers ==> ss[i].boxes[c].managers[m].stage.Ended?) ==>
            ss[i].boxes[c].excluded == map[]
  {
    SysInvRun(ss, who, acts, i);
    if forall m :: m in ss[i].boxes[c].managers ==> ss[i].boxes[c].managers[m].stage.Ended? {
      AllEndedNothingExcluded(ss[i].boxes[c]);
    }
  }

  predicate ChangesExclusions(a: BoxAction) {
    a.Start? || a.BindFails? || a.Release?
  }

  // The exclusions, and which proxies there are for what.
  ghost predicate SameHolders(b: Box, b': Box) {
    && b'.excluded == b.excluded && b'.proxies.Keys == b.proxies.Keys
    && forall id :: id in b.proxies ==> b'.proxies[id].listen == b.proxies[id].listen
  }

  lemma QuietStep(b: Box, a: BoxAction, b': Box, heard: nat -> set<Listen>)
    requires BoxNext(b, a, b', heard) && !ChangesExclusions(a)
    ensures SameHolders(b, b')
  {
  }

  lemma {:induction false} QuietKeeps(ss: seq<System>, who: seq<nat>, acts: seq<BoxAction>, i: nat, j: nat, c: nat)
    requires IsSysRun(ss, who, acts) && i <= j < |ss| && c in ss[i].boxes
    requires forall k :: i <= k < j && who[k] == c ==> !ChangesExclusions(acts[k])
    ensures c in ss[j].boxes && SameHolders(ss[i].boxes[c], ss[j].boxes[c])
    decreases j
  {
    if i < j {
      var s := ss[j - 1];
      QuietKeeps(ss, who, acts, i, j - 1, c);
      assert SysNext(s, who[j - 1], acts[j - 1], ss[j]);
      if who[j - 1] == c {
        QuietStep(s.boxes[c], acts[j - 1], ss[j].boxes[c], Heard(s));
      }
    }
  }

  lemma StartThenFail(b: Box, m: nat, id: nat, l: Listen, b1: Box, b2: Box, b3: Box, heard: nat -> set<Listen>,
      heard': nat -> set<Listen>)
    requires BoxInv(b) && BoxNext(b, Start(m, id, l), b1, heard)
    requires SameHolders(b1, b2) && BoxNext(b2, BindFails(id), b3, heard')
    ensures SameHolders(b, b3)
  {
    UnexcludeUndoesExclude(b.excluded, l);
  }

  // A bind that fails, whatever has happened since the start, leaves excluded
  // just what the other proxies hold.
  lemma FailedBindReleases(ss: seq<System>, who: seq<nat>, acts: seq<BoxAction>, j: nat, l: Listen)
    requires IsSysRun(ss, who, acts) && j < |acts| && acts[j].BindFails?
    ensures who[j] in ss[j].boxes && who[j] in ss[j + 1].boxes
    ensures Count(ss[j + 1].boxes[who[j]].excluded, l) == |ProxiesFor(ss[j].boxes[who[j]], l) - {acts[j].id}|
  {
    var c := who[j];
    assert SysNext(ss[j], c, acts[j], ss[j + 1]);
    ExclusionConservation(ss, who, acts, j + 1, c, l);
    assert ProxiesFor(ss[j + 1].boxes[c], l) == ProxiesFor(ss[j].boxes[c], l) - {acts[j].id};
  }

  // And just what was excluded before the start, if no other proxy of the
  // container has come or gone since.
  lemma FailedBindUndone(ss: seq<System>, who: seq<nat>, acts: seq<BoxAction>, i: nat, j: nat)
    requires IsSysRun(ss, who, acts) && i < j < |acts| && who[i] == who[j]
    requires acts[i].Start? && acts[j] == BindFails(acts[i].id)
    requires forall k :: i < k < j && who[k] == who[i] ==> !ChangesExclusions(acts[k])
    ensures who[i] in ss[i].boxes && who[i] in ss[j + 1].boxes
    ensures SameHolders(ss[i].boxes[who[i]], ss[j + 1].boxes[who[i]])
  {
    var c, a := who[i], acts[i];
    assert SysNext(ss[i], c, a, ss[i + 1]) && SysNext(ss[j], c, acts[j], ss[j + 1]);
    SysInvRun(ss, who, acts, i);
    QuietKeeps(ss, who, acts, i + 1, j, c);
    StartThenFail(ss[i].boxes[c], a.manager, a.id, a.listen, ss[i + 1].boxes[c],
                  ss[j].boxes[c], ss[j + 1].boxes[c], Heard(ss[i]), Heard(ss[j]));
  }

  // ---- a whole scan, in any run

  lemma {:induction false} CoveredSince(ss: seq<System>, who: seq<nat>, acts: seq<BoxAction>, i: nat, j: nat, c: nat)
    requires IsSysRun(ss, who, acts) && i < j < |ss| && who[i] == c && acts[i] == ReadProc
    requires forall k :: i < k < j && who[k] == c ==> !acts[k].Release?
    ensures c in ss[j].boxes && Covered(ss[j].boxes[c])
    decreases j
  {
    var s, a, s' := ss[j - 1], acts[j - 1], ss[j];
    assert SysNext(s, who[j - 1], a, s');
    if i == j - 1 {
      CoveredRead(s.boxes[c], s'.boxes[c], Heard(s));
    } else {
      CoveredSince(ss, who, acts, i, j - 1, c);
      if who[j - 1] == c {
        CoveredStep(s.boxes[c], a, s'.boxes[c], Heard(s));
      }
    }
  }

  // In any run, whatever races it has seen: a container's scan during which it
  // releases no proxy leaves its set with nothing but its own sockets. So a
  // proxied listen taken up by mistake is out again after the next such scan.
  lemma FullScanIsClean(ss: seq<System>, who: seq<nat>, acts: seq<BoxAction>, i: nat, j: nat, c: nat)
    requires IsSysRun(ss, who, acts) && i < j < |acts| && who[i] == who[j] == c
    requires acts[i] == ReadProc && acts[j] == Diff
    requires forall k :: i < k < j && who[k] == c ==> !acts[k].Release?
    ensures c in ss[j].boxes && c in ss[j + 1].boxes && ss[j].boxes[c].reading.Some?
    ensures ss[j + 1].boxes[c].current <= ss[j].boxes[c].reading.value.own
  {
    CoveredSince(ss, who, acts, i, j, c);
    SysInvRun(ss, who, acts, j);
    assert SysNext(ss[j], who[j], acts[j], ss[j + 1]);
    CoveredIsClean(ss[j].boxes[c]);
  }

  lemma {:induction false} ReadingStays(ss: seq<System>, who: seq<nat>, acts: seq<BoxAction>, i: nat, j: nat, c: nat)
    requires IsSysRun(ss, who, acts) && i < j < |ss| && who[i] == c && acts[i] == ReadProc
    requires forall k :: i < k < j && who[k] == c ==> !acts[k].ReadProc?
    ensures c in ss[i].boxes && c in ss[j].boxes
    ensures ss[j].boxes[c].reading.Some? ==>
              ss[j].boxes[c].reading.value == Reading(ss[i].boxes[c].own + Bound(ss[i].boxes[c]), ss[i].boxes[c].own)
    decreases j
  {
    assert SysNext(ss[j - 1], who[j - 1], acts[j - 1], ss[j]);
    if i < j - 1 {
      ReadingStays(ss, who, acts, i, j - 1, c);
    }
  }

  // And nothing is left out: after such a scan the set is exactly the
  // container's own sockets of the time of the reading, less those for which it
  // had a proxy at the time of the diff.
  lemma FullScanIsExact(ss: seq<System>, who: seq<nat>, acts: seq<BoxAction>, i: nat, j: nat, c: nat)
    requires IsSysRun(ss, who, acts) && i < j < |acts| && who[i] == who[j] == c
    requires acts[i] == ReadProc && acts[j] == Diff
    requires forall k :: i < k < j && who[k] == c ==> !acts[k].Release? && !acts[k].ReadProc?
    ensures c in ss[i].boxes && c in ss[j].boxes && c in ss[j + 1].boxes
    ensures ss[j + 1].boxes[c].current == set l | l in ss[i].boxes[c].own && ProxiesFor(ss[j].boxes[c], l) == {}
  {
    FullScanIsClean(ss, who, acts, i, j, c);
    ReadingStays(ss, who, acts, i, j, c);
    SysInvRun(ss, who, acts, j);
    assert SysNext(ss[j], who[j], acts[j], ss[j + 1]);
    ScanReports(ss[j].boxes[c], ss[j + 1].boxes[c], Heard(ss[j]));
  }

  // Of what was read, a scan reports all that no proxy holds, and nothing else.
  lemma ScanReports(b: Box, b': Box, heard: nat -> set<Listen>)
    requires BoxInv(b) && BoxNext(b, Diff, b', heard)
    ensures b'.current == set l | l in b.reading.value.raw && ProxiesFor(b, l) == {}
  {
    forall l ensures Count(b.excluded, l) <= 0 <==> ProxiesFor(b, l) == {} {
      assert Count(b.excluded, l) == |ProxiesFor(b, l)|;
    }
  }

  // ---- no re-advertising, over runs

  // No proxy is released between a container's reading of /proc and the diff
  // that uses it; reading and diff in one step is the plainest case.
  ghost predicate NoReleaseInScan(ss: seq<System>, who: seq<nat>, acts: seq<BoxAction>)
    requires IsSysRun(ss, who, acts)
  {
    forall i :: 0 <= i < |acts| && acts[i].Release? && who[i] in ss[i].boxes ==> ss[i].boxes[who[i]].reading == None
  }

  lemma {:induction false} CoveredRun(ss: seq<System>, who: seq<nat>, acts: seq<BoxAction>, i: nat)
    requires IsSysRun(ss, who, acts) && NoReleaseInScan(ss, who, acts) && i < |ss|
    ensures !ss[i].raced && forall c :: c in ss[i].boxes ==> Covered(ss[i].boxes[c])
  {
    if i == 0 {
      assert forall c :: c in ss[0].boxes ==> Empty(ss[0].boxes[c]);
    } else {
      var s, c, a, s' := ss[i - 1], who[i - 1], acts[i - 1], ss[i];
      CoveredRun(ss, who, acts, i - 1);
      SysInvRun(ss, who, acts, i - 1);
      assert SysNext(s, c, a, s');
      if !a.Release? {
        CoveredStep(s.boxes[c], a, s'.boxes[c], Heard(s));
      }
      if a.Diff? {
        CoveredIsClean(s.boxes[c]);
      }
    }
  }

  // No re-advertising: in every run without a release inside a scan, whatever
  // the containers do and in whatever order, a container only ever announces
  // listens its own processes have opened, and every proxy anywhere is for a
  // listen that the very peer it forwards to has opened: nothing proxied is
  // passed on to a third container.
  lemma NoReadvertising(ss: seq<System>, who: seq<nat>, acts: seq<BoxAction>, i: nat)
    requires IsSysRun(ss, who, acts) && NoReleaseInScan(ss, who, acts) && i < |ss|
    ensures FirstHand(ss[i])
    ensures i < |acts| && acts[i].Diff? ==> ss[i + 1].boxes[who[i]].current <= ss[i].boxes[who[i]].reading.value.own
  {
    CoveredRun(ss, who, acts, i);
    SysInvRun(ss, who, acts, i);
    if i < |acts| && acts[i].Diff? {
      assert SysNext(ss[i], who[i], acts[i], ss[i + 1]);
      CoveredIsClean(ss[i].boxes[who[i]]);
    }
  }
}
