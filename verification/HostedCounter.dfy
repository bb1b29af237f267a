/** The counter program on the kernel. */
module HostedCounter {
  import opened Common
  import opened Semaphores
  import opened Scheduler
  import opened SchedulerInvariant
  import opened CallLaws
  import opened KernelHost
  import C = SharedCounter

  const MUTEX: Key := 0xdeadbeef

  function View(p: C.Program): Group {
    Group(map[MUTEX := p.mutex],
          seq(|p.workers|, i requires 0 <= i < |p.workers| => p.workers[i].blocked),
          seq(|p.workers|, i requires 0 <= i < |p.workers| => p.workers[i].pc.Gone?))
  }

  function ActOf(p: C.Program, i: nat): Act {
    if i >= |p.workers| then Private
    else
      match p.workers[i].pc
      case Lock => WaitOn(MUTEX)
      case Unlock => SignalOn(MUTEX)
      case _ => Private
  }

  function StepOf(p: C.Program, i: nat): C.Program {
    if C.CanStep(p, i) then C.Step(p, i) else p
  }

  const CODE := Code(View, ActOf, StepOf)

  const GOOD: C.Program -> bool := _ => true

  lemma IsCode()
    ensures Implements(CODE, GOOD)
  {
    forall p: C.Program, i: nat | CanRun(CODE, p, i)
      ensures ActOf(p, i).Private? || ActOf(p, i).key in View(p).sems
      ensures var g' := View(StepOf(p, i)); i < |g'.gone| && g' == GroupStep(View(p), i, ActOf(p, i), g'.gone[i])
    {
      StepIsGroupStep(p, i);
    }
  }

  lemma StepIsGroupStep(p: C.Program, i: nat)
    requires C.CanStep(p, i)
    ensures ActOf(p, i).Private? || ActOf(p, i).key in View(p).sems
    ensures var g' := View(C.Step(p, i)); i < |g'.gone| && g' == GroupStep(View(p), i, ActOf(p, i), g'.gone[i])
  {
    var g', g2 := View(C.Step(p, i)), GroupStep(View(p), i, ActOf(p, i), View(C.Step(p, i)).gone[i]);
    assert g'.sems == g2.sems;
    assert g'.blocked == g2.blocked;
    assert g'.gone == g2.gone;
  }

  lemma {:induction false} IsSchedule(p: C.Program, who: seq<nat>)
    requires IsInterleaving(CODE, p, who)
    ensures C.IsSchedule(p, who) && C.Run(p, who) == Interleave(CODE, p, who)
    decreases |who|
  {
    if who != [] {
      assert C.CanStep(p, who[0]);
      IsSchedule(C.Step(p, who[0]), who[1..]);
    }
  }

  lemma Fits(k: Kernel, d: nat, workers: nat, rounds: nat)
    requires Inv(k) && d in k.sems && MUTEX in k.sems[d] && k.sems[d][MUTEX] == Sem(1, [])
    ensures Sound(CODE, System(k, Host(seq(workers, _ => None), d), C.Start(workers, rounds)))
  {
    var p := C.Start(workers, rounds);
    NobodyYet(k, View(p), d);
  }

  /** On any kernel in order, a process that makes the mutex has put the program on it, ready for its
      forks. */
  lemma Starts(k: Kernel, t: SemTable, workers: nat, rounds: nat)
    requires Inv(k) && IsTable(k, t) && Unused(t, 0xdeadbeef)
    ensures var k' := Do(k, SemNew(0xdeadbeef, 1));
            && k'.current == k.current && k.current in k'.procs
            && Sound(CODE, System(k', Host(seq(workers, _ => None), k'.procs[k.current].data),
                                  C.Start(workers, rounds)))
  {
    SemNewKeepsOrder(k, t, MUTEX, 1);
    Fits(Do(k, SemNew(MUTEX, 1)), k.procs[k.current].data, workers, rounds);
  }

  /** However the kernel schedules the workers, and whatever else it does meanwhile: they do at most
      4 * workers * rounds statements, and when all have exited, the counter is workers * rounds; until
      then some worker is yet to be forked, has the processor, or is Ready in the queue. */
  lemma NoLostUpdate(s: System<C.Program>, moves: seq<Move>, workers: nat, rounds: nat)
    requires Sound(CODE, s) && s.program == C.Start(workers, rounds) && AllEnabled(CODE, s, moves)
    ensures var end := Finish(CODE, s, moves);
            && |Schedule(CODE, s, moves)| <= 4 * workers * rounds
            && (C.AllExited(end.program) ==> end.program.counter == workers * rounds)
            && (!C.AllExited(end.program) ==> exists i, at :: GoesOn(CODE, end, i, at))
  {
    hide Implements;
    hide Sound;
    hide AllEnabled;
    hide C.Run;
    hide IsInterleaving;
    IsCode();
    RunIsInterleaving(CODE, GOOD, s, moves);
    var who, end := Schedule(CODE, s, moves), Finish(CODE, s, moves);
    IsSchedule(s.program, who);
    C.NoLostUpdate(workers, rounds, who);
    if !C.AllExited(end.program) {
      var i :| C.CanStep(end.program, i);
      var at := CanRunGoesOn(CODE, end, i);
    }
  }
}
