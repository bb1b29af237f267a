/** The coffee shop on the kernel. */
module HostedShop {
  import opened Common
  import opened Semaphores
  import opened Scheduler
  import opened SchedulerInvariant
  import opened CallLaws
  import opened KernelHost
  import C = CoffeeShop

  const SLOTS: Key := 0x1000
  const READY: Key := 0x2000
  const LOCK: Key := 0x6666

  function View(p: C.Shop): Group {
    Group(map[SLOTS := p.slots, READY := p.ready, LOCK := p.lock],
          seq(|p.threads|, i requires 0 <= i < |p.threads| => p.threads[i].blocked),
          seq(|p.threads|, i requires 0 <= i < |p.threads| => p.threads[i].pc.Gone?))
  }

  function ActOf(p: C.Shop, i: nat): Act {
    if i >= |p.threads| then Private
    else
      var t := p.threads[i];
      match t.pc
      case TakeToken => WaitOn(if t.maker then SLOTS else READY)
      case TakeLock => WaitOn(LOCK)
      case FreeLock => SignalOn(LOCK)
      case GiveToken => SignalOn(if t.maker then READY else SLOTS)
      case _ => Private
  }

  function StepOf(p: C.Shop, i: nat): C.Shop {
    if C.CanStep(p, i) then C.Step(p, i) else p
  }

  const CODE := Code(View, ActOf, StepOf)

  const GOOD: C.Shop -> bool := _ => true

  lemma IsCode()
    ensures Implements(CODE, GOOD)
  {
    forall p: C.Shop, i: nat | CanRun(CODE, p, i)
      ensures ActOf(p, i).Private? || ActOf(p, i).key in View(p).sems
      ensures var g' := View(StepOf(p, i)); i < |g'.gone| && g' == GroupStep(View(p), i, ActOf(p, i), g'.gone[i])
    {
      StepIsGroupStep(p, i);
    }
  }

  lemma StepIsGroupStep(p: C.Shop, i: nat)
    requires C.CanStep(p, i)
    ensures ActOf(p, i).Private? || ActOf(p, i).key in View(p).sems
    ensures var g' := View(C.Step(p, i)); i < |g'.gone| && g' == GroupStep(View(p), i, ActOf(p, i), g'.gone[i])
  {
    var g', g2 := View(C.Step(p, i)), GroupStep(View(p), i, ActOf(p, i), View(C.Step(p, i)).gone[i]);
    assert g'.sems == g2.sems;
    assert g'.blocked == g2.blocked;
    assert g'.gone == g2.gone;
  }

  lemma {:induction false} IsSchedule(p: C.Shop, who: seq<nat>)
    requires IsInterleaving(CODE, p, who)
    ensures C.IsSchedule(p, who) && C.Run(p, who) == Interleave(CODE, p, who)
    decreases |who|
  {
    if who != [] {
      assert C.CanStep(p, who[0]);
      IsSchedule(C.Step(p, who[0]), who[1..]);
    }
  }

  lemma Fits(k: Kernel, d: nat, capacity: nat, customers: nat, cupsEach: nat)
    requires Inv(k) && d in k.sems && SLOTS in k.sems[d] && READY in k.sems[d] && LOCK in k.sems[d]
    requires k.sems[d][SLOTS] == Sem(capacity, []) && k.sems[d][READY] == Sem(0, []) && k.sems[d][LOCK] == Sem(1, [])
    ensures Sound(CODE, System(k, Host(seq(1 + customers, _ => None), d), C.Open(capacity, customers, cupsEach)))
  {
    NobodyYet(k, View(C.Open(capacity, customers, cupsEach)), d);
  }

  /** The calls with which the parent makes the semaphores. */
  function Setup(capacity: nat): seq<Call> {
    [SemNew(0x2000, 0), SemNew(0x1000, capacity), SemNew(0x6666, 1)]
  }

  /** On any kernel in order, a process that has made the three semaphores has put the shop on it,
      ready for its forks. */
  lemma Starts(k: Kernel, t: SemTable, capacity: nat, customers: nat, cupsEach: nat)
    requires Inv(k) && IsTable(k, t) && Unused(t, 0x1000) && Unused(t, 0x2000) && Unused(t, 0x6666)
    ensures var k' := After(k, Setup(capacity));
            && k'.current == k.current && k.current in k'.procs
            && Sound(CODE, System(k', Host(seq(1 + customers, _ => None), k'.procs[k.current].data),
                                  C.Open(capacity, customers, cupsEach)))
  {
    hide Inv;
    hide Do;
    hide Sound;
    var t1 := t[READY := Sem(0, [])];
    var t2 := t1[SLOTS := Sem(capacity, [])];
    SemNewKeepsOrder(k, t, READY, 0);
    var k1 := Do(k, SemNew(READY, 0));
    SemNewKeepsOrder(k1, t1, SLOTS, capacity);
    var k2 := Do(k1, SemNew(SLOTS, capacity));
    SemNewKeepsOrder(k2, t2, LOCK, 1);
    var calls := Setup(capacity);
    assert calls[1..] == [SemNew(SLOTS, capacity), SemNew(LOCK, 1)];
    assert calls[1..][1..] == [SemNew(LOCK, 1)] && [SemNew(LOCK, 1)][1..] == [];
    assert After(k, calls) == After(k1, calls[1..]) == After(k2, calls[1..][1..]) == Do(k2, SemNew(LOCK, 1));
    Fits(After(k, calls), k.procs[k.current].data, capacity, customers, cupsEach);
  }

  /** However the kernel schedules the threads, and whatever else it does meanwhile: there are never
      more cups than the rack holds nor fewer than none, the threads do at most
      12 * customers * cupsEach statements, and when all are gone the rack is empty; until then some
      thread is yet to be forked, has the processor, or is Ready in the queue. */
  lemma EveryRunEndsEmpty(s: System<C.Shop>, moves: seq<Move>, capacity: nat, customers: nat, cupsEach: nat)
    requires capacity >= 1 && Sound(CODE, s) && s.program == C.Open(capacity, customers, cupsEach)
    requires AllEnabled(CODE, s, moves)
    ensures var end, total := Finish(CODE, s, moves), 12 * customers * cupsEach;
            && 0 <= end.program.cups <= capacity
            && |Schedule(CODE, s, moves)| <= total
            && (C.Finished(end.program) ==> end.program.cups == 0)
            && (!C.Finished(end.program) ==> exists i, at :: GoesOn(CODE, end, i, at))
  {
    hide Implements;
    hide Sound;
    hide AllEnabled;
    hide C.Run;
    hide IsInterleaving;
    IsCode();
    RunIsInterleaving(CODE, GOOD, s, moves);
    var who, end := Schedule(CODE, s, moves), Finish(CODE, s, moves);
    IsSchedule(s.program, who);
    C.EveryRunEndsEmpty(capacity, customers, cupsEach, who);
    C.RackNeverBreaks(capacity, customers, cupsEach, who);
    if !C.Finished(end.program) {
      var i :| C.CanStep(end.program, i);
      var at := CanRunGoesOn(CODE, end, i);
    }
  }
}
