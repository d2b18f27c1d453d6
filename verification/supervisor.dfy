// PID 1: reaping children and deciding, once, how the container ends.
module Supervisor {

  // Room in the signal channel; a signal that finds it full is dropped.
  const QUEUE := 64

  datatype Signal = Chld | Int | Term | Pwr | RtMin3

  datatype Cmd = PowerOff | Restart

  // Where the loop is: waiting for a signal; in the reapAll of SIGCHLD, which
  // notes whether it saw the entrypoint; in the reapAll that ends every round
  // of a shutdown; past the loop, where reboot is called.
  datatype Pc = Waiting | Reaping(sawMain: bool) | Draining | Rebooting

  // pending: signals raised and not yet delivered, at most one of a kind, as
  // the kernel and the runtime keep them. terms counts broadcasts of SIGTERM;
  // triggers lists every call of beginShutdown; mainReaped that the
  // entrypoint's exit status has been collected.
  datatype Sup = Sup(
    main: nat, alive: set<nat>, zombies: set<nat>,
    pending: set<Signal>, queue: seq<Signal>,
    pc: Pc, shuttingDown: bool, cmd: Cmd,
    terms: nat, triggers: seq<Cmd>, mainReaped: bool)

  datatype Action =
    | Exit(pid: nat)
    | Adopt(pids: set<nat>)
    | Raise(signal: Signal)
    | Deliver(signal: Signal)
    | Receive
    | Reap(pid: nat)
    | ReapEnds

  function BeginShutdown(s: Sup, cmd: Cmd): Sup {
    var s' := s.(triggers := s.triggers + [cmd]);
    if s.shuttingDown then s' else s'.(shuttingDown := true, cmd := cmd, terms := s.terms + 1)
  }

  // From a signal to the reapAll it leads to.
  function Dispatch(s: Sup, signal: Signal): Sup {
    match signal
    case Chld => s.(pc := Reaping(false))
    case Int => BeginShutdown(s, Restart).(pc := Draining)
    case _ => BeginShutdown(s, PowerOff).(pc := Draining)
  }

  function Reaped(s: Sup, pid: nat): Sup {
    s.(zombies := s.zombies - {pid},
       mainReaped := s.mainReaped || pid == s.main,
       pc := match s.pc case Reaping(saw) => Reaping(saw || pid == s.main) case pc => pc)
  }

  // reapAll returns: empty if there is no child left at all.
  function AfterReap(s: Sup): Sup {
    var empty := s.alive == {};
    match s.pc
    case Reaping(saw) =>
      var s' := if saw && !s.shuttingDown then BeginShutdown(s, PowerOff) else s;
      s'.(pc := if s'.shuttingDown then (if empty then Rebooting else Draining) else Waiting)
    case _ => s.(pc := if empty then Rebooting else Waiting)
  }

  predicate InReap(pc: Pc) {
    pc.Reaping? || pc.Draining?
  }

  ghost predicate Next(s: Sup, a: Action, s': Sup) {
    && !s.pc.Rebooting?
    && match a
       case Exit(pid) =>
         && pid in s.alive
         && s' == s.(alive := s.alive - {pid}, zombies := s.zombies + {pid}, pending := s.pending + {Chld})
       // Orphans come from what is alive; a pid is free only once reaped.
       case Adopt(pids) =>
         s.alive != {} && pids !! s.alive + s.zombies && s' == s.(alive := s.alive + pids)
       case Raise(signal) => s' == s.(pending := s.pending + {signal})
       case Deliver(signal) =>
         && signal in s.pending
         && s' == s.(pending := s.pending - {signal},
                     queue := if |s.queue| < QUEUE then s.queue + [signal] else s.queue)
       case Receive =>
         s.pc.Waiting? && s.queue != [] && s' == Dispatch(s.(queue := s.queue[1..]), s.queue[0])
       case Reap(pid) => InReap(s.pc) && pid in s.zombies && s' == Reaped(s, pid)
       case ReapEnds => InReap(s.pc) && s.zombies == {} && s' == AfterReap(s)
  }

  ghost predicate Init(s: Sup) {
    s == Sup(s.main, {s.main}, {}, {}, [], Waiting, false, PowerOff, 0, [], false)
  }

  ghost predicate IsRun(ss: seq<Sup>, acts: seq<Action>) {
    && |ss| == |acts| + 1 && Init(ss[0])
    && forall i :: 0 <= i < |acts| ==> Next(ss[i], acts[i], ss[i + 1])
  }

  // An exited child nobody has collected yet means that a signal is on its way
  // or that reapAll has yet to find nothing more.
  ghost predicate NoLostWakeup(s: Sup) {
    s.zombies != {} ==> InReap(s.pc) || s.queue != [] || Chld in s.pending
  }

  // While the loop waits there is a child, running or exited.
  ghost predicate SomeChild(s: Sup) {
    s.pc.Waiting? ==> s.alive + s.zombies != {}
  }

  ghost predicate MainAccounted(s: Sup) {
    && (!s.shuttingDown ==> s.main in s.alive + s.zombies || s.pc == Reaping(true))
    && (s.mainReaped ==> s.shuttingDown || s.pc == Reaping(true))
    && (s.pc.Draining? ==> s.shuttingDown)
  }

  // The first trigger decides, and SIGTERM goes out once.
  ghost predicate DecidedOnce(s: Sup) {
    && (s.shuttingDown <==> s.triggers != [])
    && s.terms == (if s.shuttingDown then 1 else 0)
    && (s.shuttingDown ==> s.cmd == s.triggers[0])
    && (s.pc.Rebooting? ==> s.shuttingDown && s.alive == {} && s.zombies == {})
  }

  ghost predicate Inv(s: Sup) {
    NoLostWakeup(s) && SomeChild(s) && MainAccounted(s) && DecidedOnce(s) && |s.queue| <= 64
  }

  lemma InvStep(s: Sup, a: Action, s': Sup)
    requires Inv(s) && Next(s, a, s')
    ensures Inv(s')
    ensures s.triggers <= s'.triggers && (s.shuttingDown ==> s'.shuttingDown && s'.cmd == s.cmd)
  {
  }

  lemma {:induction false} InvRun(ss: seq<Sup>, acts: seq<Action>, i: nat)
    requires IsRun(ss, acts) && i < |ss|
    ensures Inv(ss[i])
  {
    if i > 0 {
      InvRun(ss, acts, i - 1);
      InvStep(ss[i - 1], acts[i - 1], ss[i]);
    }
  }

  // No wakeup is lost, though signals are: whenever the loop waits with no
  // signal queued or pending, every exited child has been collected and some
  // child is still running, so that more is to come.
  lemma NeverBlockedForever(ss: seq<Sup>, acts: seq<Action>, i: nat)
    requires IsRun(ss, acts) && i < |ss| && ss[i].pc.Waiting?
    ensures ss[i].zombies != {} ==> ss[i].queue != [] || Chld in ss[i].pending
    ensures ss[i].queue == [] && ss[i].pending == {} ==> ss[i].zombies == {} && ss[i].alive != {}
  {
    InvRun(ss, acts, i);
  }

  // Shutdown is decided once, over any run: one SIGTERM at most, the command of
  // whoever asked first, begun by the time the entrypoint's exit has been
  // dealt with; and reboot comes only after it, with no child left.
  lemma ShutdownDecidedOnce(ss: seq<Sup>, acts: seq<Action>, i: nat, j: nat)
    requires IsRun(ss, acts) && i <= j < |ss|
    ensures ss[j].terms <= 1
    ensures ss[i].shuttingDown ==> ss[j].shuttingDown && ss[j].cmd == ss[i].cmd && [ss[i].cmd] <= ss[j].triggers
    ensures ss[j].mainReaped && ss[j].pc.Waiting? ==> ss[j].shuttingDown
    ensures ss[j].pc.Rebooting? ==> ss[j].shuttingDown && ss[j].alive == {} && ss[j].zombies == {} && j == |acts|
  {
    InvRun(ss, acts, j);
    if j < |acts| {
      assert Next(ss[j], acts[j], ss[j + 1]);
    }
    if ss[i].shuttingDown {
      DecisionStands(ss, acts, i, j);
    }
  }

  lemma {:induction false} DecisionStands(ss: seq<Sup>, acts: seq<Action>, i: nat, j: nat)
    requires IsRun(ss, acts) && i <= j < |ss| && ss[i].shuttingDown
    ensures ss[j].shuttingDown && ss[j].cmd == ss[i].cmd && [ss[i].cmd] <= ss[j].triggers
    decreases j
  {
    InvRun(ss, acts, j);
    if i < j {
      DecisionStands(ss, acts, i, j - 1);
      InvRun(ss, acts, j - 1);
      InvStep(ss[j - 1], acts[j - 1], ss[j]);
    }
  }

  // A shutdown begins when SIGINT, SIGTERM, SIGPWR or SIGRTMIN+3 is received, or
  // at the end of the reapAll that has seen the entrypoint, and not otherwise.
  lemma BeginsIff(s: Sup, a: Action, s': Sup)
    requires Inv(s) && Next(s, a, s') && !s.shuttingDown
    ensures s'.shuttingDown <==>
            || (a.Receive? && s.queue[0] in {Int, Term, Pwr, RtMin3})
            || (a.ReapEnds? && s.pc == Reaping(true))
    ensures s'.shuttingDown ==> (s'.cmd == Restart <==> a.Receive? && s.queue[0] == Int)
  {
  }

  // Over any run: the container is restarted if and only if the shutdown began
  // with SIGINT, and powered off if it began in any other way.
  lemma RestartIffInt(ss: seq<Sup>, acts: seq<Action>, k: nat, i: nat)
    requires IsRun(ss, acts) && k < i < |ss| && !ss[k].shuttingDown && ss[k + 1].shuttingDown
    ensures ss[i].cmd == Restart <==> acts[k].Receive? && ss[k].queue[0] == Int
    ensures (acts[k].Receive? && ss[k].queue[0] != Chld) || (acts[k].ReapEnds? && ss[k].pc == Reaping(true))
  {
    InvRun(ss, acts, k);
    assert Next(ss[k], acts[k], ss[k + 1]);
    BeginsIff(ss[k], acts[k], ss[k + 1]);
    DecisionStands(ss, acts, k + 1, i);
  }

  // And there is such a beginning.
  lemma {:induction false} BegunSometime(ss: seq<Sup>, acts: seq<Action>, i: nat) returns (k: nat)
    requires IsRun(ss, acts) && i < |ss| && ss[i].shuttingDown
    ensures k < i && !ss[k].shuttingDown && ss[k + 1].shuttingDown
  {
    if i > 0 && ss[i - 1].shuttingDown {
      k := BegunSometime(ss, acts, i - 1);
    } else {
      k := i - 1;
    }
  }

  // ---- a round of the loop undisturbed, and the code that runs it

  function ReapedAll(s: Sup): Sup {
    var saw := s.main in s.zombies;
    s.(zombies := {}, mainReaped := s.mainReaped || saw,
       pc := match s.pc case Reaping(b) => Reaping(b || saw) case pc => pc)
  }

  // What one signal comes to if nothing happens in the meantime.
  function Handled(s: Sup, signal: Signal): Sup {
    var s1 := AfterReap(ReapedAll(Dispatch(s, signal)));
    if s1.pc.Draining? then AfterReap(ReapedAll(s1)) else s1
  }

  ghost predicate Path(ss: seq<Sup>, acts: seq<Action>, from: Sup, to: Sup) {
    && |ss| == |acts| + 1 && ss[0] == from && ss[|acts|] == to
    && forall i :: 0 <= i < |acts| ==> Next(ss[i], acts[i], ss[i + 1])
  }

  lemma Join(ss: seq<Sup>, acts: seq<Action>, tt: seq<Sup>, bcts: seq<Action>, from: Sup, mid: Sup, to: Sup)
    requires Path(ss, acts, from, mid) && Path(tt, bcts, mid, to)
    ensures Path(ss[..|acts|] + tt, acts + bcts, from, to)
  {
    var all, abs := ss[..|acts|] + tt, acts + bcts;
    forall i | 0 <= i < |abs| ensures Next(all[i], abs[i], all[i + 1]) {
      if i < |acts| {
        assert Next(ss[i], acts[i], ss[i + 1]);
      } else {
        assert Next(tt[i - |acts|], bcts[i - |acts|], tt[i - |acts| + 1]);
      }
    }
  }

  lemma {:induction false} ReapPath(s: Sup) returns (ss: seq<Sup>, acts: seq<Action>)
    requires InReap(s.pc)
    ensures Path(ss, acts, s, AfterReap(ReapedAll(s)))
    decreases s.zombies
  {
    if s.zombies == {} {
      ss, acts := [s, AfterReap(s)], [ReapEnds];
      assert ReapedAll(s) == s;
    } else {
      var pid :| pid in s.zombies;
      ss, acts := ReapPath(Reaped(s, pid));
      Join([s, Reaped(s, pid)], [Reap(pid)], ss, acts, s, Reaped(s, pid), AfterReap(ReapedAll(Reaped(s, pid))));
      assert ReapedAll(Reaped(s, pid)) == ReapedAll(s);
      ss, acts := [s, Reaped(s, pid)][..1] + ss, [Reap(pid)] + acts;
    }
  }

  // The machine can take the round as a whole.
  lemma HandledIsAPath(s: Sup, signal: Signal, rest: seq<Signal>) returns (ss: seq<Sup>, acts: seq<Action>)
    requires s.pc.Waiting? && s.queue == [signal] + rest
    ensures Path(ss, acts, s, Handled(s.(queue := rest), signal))
  {
    assert s.queue[1..] == rest;
    var s0 := Dispatch(s.(queue := rest), signal);
    var s1 := AfterReap(ReapedAll(s0));
    ss, acts := ReapPath(s0);
    Join([s, s0], [Receive], ss, acts, s, s0, s1);
    ss, acts := [s, s0][..1] + ss, [Receive] + acts;
    if s1.pc.Draining? {
      var tt, bcts := ReapPath(s1);
      Join(ss, acts, tt, bcts, s, s1, AfterReap(ReapedAll(s1)));
      ss, acts := ss[..|acts|] + tt, acts + bcts;
    }
  }

  class Pid1 {
    const main: nat
    var alive: set<nat>
    var zombies: set<nat>
    var shuttingDown: bool
    var rebootCmd: Cmd
    ghost var terms: nat
    ghost var triggers: seq<Cmd>
    ghost var mainReaped: bool

    ghost function At(pc: Pc): Sup
      reads this
    {
      Sup(main, alive, zombies, {}, [], pc, shuttingDown, rebootCmd, terms, triggers, mainReaped)
    }

    constructor (main: nat)
      ensures Init(At(Waiting)) && this.main == main
    {
      this.main := main;
      alive, zombies, shuttingDown, rebootCmd := {main}, {}, false, PowerOff;
      terms, triggers, mainReaped := 0, [], false;
    }

    method Shutdown(cmd: Cmd)
      modifies this`shuttingDown, this`rebootCmd, this`terms, this`triggers
      ensures forall pc :: At(pc) == BeginShutdown(old(At(pc)), cmd)
    {
      triggers := triggers + [cmd];
      if shuttingDown {
        return;
      }
      shuttingDown := true;
      rebootCmd := cmd;
      terms := terms + 1;
    }

    // Collects every exited child without blocking.
    method ReapAll() returns (sawMain: bool, empty: bool)
      modifies this`zombies, this`mainReaped
      ensures At(Draining) == ReapedAll(old(At(Draining)))
      ensures sawMain == (main in old(zombies)) && empty == (alive == {})
    {
      sawMain := false;
      while zombies != {}
        invariant zombies <= old(zombies)
        invariant sawMain == (main in old(zombies) - zombies)
        invariant mainReaped == (old(mainReaped) || sawMain)
      {
        var pid :| pid in zombies;
        zombies := zombies - {pid};
        mainReaped := mainReaped || pid == main;
        if pid == main {
          sawMain := true;
        }
      }
      empty := alive == {};
    }

    // The body of the loop; done means that reboot is next.
    method Handle(signal: Signal) returns (done: bool)
      modifies this
      ensures At(if done then Rebooting else Waiting) == Handled(old(At(Waiting)), signal)
      ensures shuttingDown <==> old(shuttingDown) || signal != Chld || main in old(zombies)
      ensures rebootCmd == if old(shuttingDown) || !shuttingDown then old(rebootCmd)
                           else if signal == Int then Restart else PowerOff
      ensures zombies == {} && alive == old(alive)
      ensures done <==> shuttingDown && alive == {}
    {
      match signal {
      case Chld =>
        var sawMain, empty := ReapAll();
        if sawMain && !shuttingDown {
          Shutdown(PowerOff);
        }
        if shuttingDown && empty {
          return true;
        }
      case Int => Shutdown(Restart);
      case _ => Shutdown(PowerOff);
      }
      if shuttingDown {
        var _, empty := ReapAll();
        if empty {
          return true;
        }
      }
      return false;
    }
  }
}
