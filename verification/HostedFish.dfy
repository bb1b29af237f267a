/** The fish on the kernel. */
module HostedFish {
  import opened Common
  import opened Semaphores
  import opened Scheduler
  import opened SchedulerInvariant
  import opened CallLaws
  import opened KernelHost
  import C = FishTank

  /** The semaphores of the three turns, and the mutex. */
  const TURN: seq<Key> := [0x3001, 0x3002, 0x3003]
  const MUTEX: Key := 0x3004

  function View(p: C.Tank): Group {
    Group(if |p.turn| == 3 then
            map[TURN[0] := p.turn[0], TURN[1] := p.turn[1], TURN[2] := p.turn[2], MUTEX := p.mutex]
          else map[],
          seq(|p.fish|, i requires 0 <= i < |p.fish| => p.fish[i].blocked),
          seq(|p.fish|, i requires 0 <= i < |p.fish| => p.fish[i].pc.Gone?))
  }

  function ActOf(p: C.Tank, i: nat): Act {
    if i >= |p.fish| || i >= 3 then Private
    else
      match p.fish[i].pc
      case TakeTurn => WaitOn(TURN[i])
      case TakeMutex => WaitOn(MUTEX)
      case PassNext(j) => SignalOn(TURN[j])
      case FreeMutex => SignalOn(MUTEX)
      case WakeGt => SignalOn(TURN[C.GT])
      case WakeLt => SignalOn(TURN[C.LT])
      case WakeUs => SignalOn(TURN[C.US])
      case LastFree => SignalOn(MUTEX)
      case _ => Private
  }

  function StepOf(p: C.Tank, i: nat): C.Tank {
    if C.CanStep(p, i) then C.Step(p, i) else p
  }

  const CODE := Code(View, ActOf, StepOf)

  const GOOD: C.Tank -> bool := p => C.Inv(p)

  lemma IsCode()
    ensures Implements(CODE, GOOD)
  {
    forall p: C.Tank, i: nat | C.Inv(p) && CanRun(CODE, p, i)
      ensures C.Inv(StepOf(p, i)) && (ActOf(p, i).Private? || ActOf(p, i).key in View(p).sems)
      ensures var g' := View(StepOf(p, i)); i < |g'.gone| && g' == GroupStep(View(p), i, ActOf(p, i), g'.gone[i])
    {
      Runs(p, i);
      C.StepKeepsInv(p, i);
      hide C.Inv;
      StepIsGroupStep(p, i);
    }
  }

  lemma Runs(p: C.Tank, i: nat)
    requires C.Inv(p) && CanRun(CODE, p, i)
    ensures C.CanStep(p, i)
  {
  }

  lemma StepIsGroupStep(p: C.Tank, i: nat)
    requires C.CanStep(p, i)
    ensures ActOf(p, i).Private? || ActOf(p, i).key in View(p).sems
    ensures var g' := View(C.Step(p, i)); i < |g'.gone| && g' == GroupStep(View(p), i, ActOf(p, i), g'.gone[i])
  {
    match ActOf(p, i)
    case Private => PrivateStep(p, i);
    case WaitOn(_) => WaitStep(p, i);
    case SignalOn(key) => if key == MUTEX { MutexStep(p, i); } else { SignalStep(p, i); }
  }

  lemma PrivateStep(p: C.Tank, i: nat)
    requires C.CanStep(p, i) && ActOf(p, i).Private?
    ensures var g' := View(C.Step(p, i)); i < |g'.gone| && g' == GroupStep(View(p), i, ActOf(p, i), g'.gone[i])
  {
    var g', g2 := View(C.Step(p, i)), GroupStep(View(p), i, ActOf(p, i), View(C.Step(p, i)).gone[i]);
    assert g'.sems == g2.sems;
    assert g'.blocked == g2.blocked;
    assert g'.gone == g2.gone;
  }

  lemma WaitStep(p: C.Tank, i: nat)
    requires C.CanStep(p, i) && ActOf(p, i).WaitOn?
    ensures ActOf(p, i).Private? || ActOf(p, i).key in View(p).sems
    ensures var g' := View(C.Step(p, i)); i < |g'.gone| && g' == GroupStep(View(p), i, ActOf(p, i), g'.gone[i])
  {
    var g', g2 := View(C.Step(p, i)), GroupStep(View(p), i, ActOf(p, i), View(C.Step(p, i)).gone[i]);
    assert g'.sems == g2.sems;
    assert g'.blocked == g2.blocked;
    assert g'.gone == g2.gone;
  }

  lemma MutexStep(p: C.Tank, i: nat)
    requires C.CanStep(p, i) && ActOf(p, i) == SignalOn(MUTEX)
    ensures ActOf(p, i).Private? || ActOf(p, i).key in View(p).sems
    ensures var g' := View(C.Step(p, i)); i < |g'.gone| && g' == GroupStep(View(p), i, ActOf(p, i), g'.gone[i])
  {
    var g', g2 := View(C.Step(p, i)), GroupStep(View(p), i, ActOf(p, i), View(C.Step(p, i)).gone[i]);
    assert g'.sems == g2.sems;
    assert g'.blocked == g2.blocked;
    assert g'.gone == g2.gone;
  }

  /** Going to another place changes at most whether the fish has gone. */
  lemma GotoView(p: C.Tank, i: nat, next: C.Place)
    requires C.Shaped(p) && i < 3
    ensures C.Shaped(C.Goto(p, i, next)) && C.Goto(p, i, next).turn == p.turn
    ensures View(C.Goto(p, i, next)) == View(p).(gone := View(p).gone[i := next.Gone?])
  {
    assert View(C.Goto(p, i, next)).gone == View(p).gone[i := next.Gone?];
    assert View(C.Goto(p, i, next)).blocked == View(p).blocked;
  }

  lemma SignalTurnView(p: C.Tank, j: nat)
    requires C.Shaped(p) && j < 3
    ensures TURN[j] in View(p).sems && View(p).sems[TURN[j]] == p.turn[j]
    ensures View(C.SignalTurn(p, j)) == View(p).(
              sems := View(p).sems[TURN[j] := AfterSignal(p.turn[j])],
              blocked := Unblocked(View(p), SignalResult(p.turn[j])))
  {
    var g', g := View(C.SignalTurn(p, j)), View(p);
    assert g'.sems == g.sems[TURN[j] := AfterSignal(p.turn[j])];
    assert g'.blocked == Unblocked(g, SignalResult(p.turn[j]));
    assert g'.gone == g.gone;
  }

  lemma SignalStep(p: C.Tank, i: nat)
    requires C.CanStep(p, i) && ActOf(p, i).SignalOn? && ActOf(p, i).key != MUTEX
    ensures ActOf(p, i).key in View(p).sems
    ensures var g' := View(C.Step(p, i)); i < |g'.gone| && g' == GroupStep(View(p), i, ActOf(p, i), g'.gone[i])
  {
    hide View;
    var (j, next) := match p.fish[i].pc
      case PassNext(j) => (j as nat, C.FreeMutex)
      case WakeGt => (C.GT, C.WakeLt)
      case WakeLt => (C.LT, C.WakeUs)
      case _ => (C.US, C.LastFree);
    Places(p);
    GotoView(p, i, next);
    SignalTurnView(p, j);
    SignalTurnView(C.Goto(p, i, next), j);
    IsSignal(p, i, j, next);
    hide C.Step;
    hide C.Goto;
    hide C.SignalTurn;
    hide C.NextSem;
  }

  lemma IsSignal(p: C.Tank, i: nat, j: nat, next: C.Place)
    requires C.CanStep(p, i) && j < 3 && ActOf(p, i) == SignalOn(TURN[j]) && TURN[j] != MUTEX
    requires next == match p.fish[i].pc
                     case PassNext(_) => C.FreeMutex
                     case WakeGt => C.WakeLt
                     case WakeLt => C.WakeUs
                     case _ => C.LastFree
    ensures C.Step(p, i) == C.SignalTurn(C.Goto(p, i, next), j)
  {
  }

  lemma Places(p: C.Tank)
    requires C.Shaped(p)
    ensures |View(p).gone| == |View(p).blocked| == 3
  {
  }

  lemma {:induction false} IsSchedule(p: C.Tank, who: seq<nat>)
    requires C.Inv(p) && IsInterleaving(CODE, p, who)
    ensures C.IsSchedule(p, who) && C.Run(p, who) == Interleave(CODE, p, who)
    decreases |who|
  {
    if who != [] {
      Runs(p, who[0]);
      C.StepKeepsInv(p, who[0]);
      hide C.Inv;
      IsSchedule(C.Step(p, who[0]), who[1..]);
    }
  }

  lemma Fits(k: Kernel, d: nat, total: nat)
    requires Inv(k) && d in k.sems && MUTEX in k.sems[d] && (forall j :: 0 <= j < 3 ==> TURN[j] in k.sems[d])
    requires k.sems[d][MUTEX] == Sem(1, [])
    requires forall j :: 0 <= j < 3 ==> k.sems[d][TURN[j]] == Sem(if j == C.LT then 1 else 0, [])
    ensures Sound(CODE, System(k, Host(seq(3, _ => None), d), C.Start(total)))
  {
    NobodyYet(k, View(C.Start(total)), d);
  }

  /** The calls with which the parent makes the semaphores and gives the first turn. */
  const SETUP: seq<Call> :=
    [SemNew(0x3001, 0), SemNew(0x3002, 0), SemNew(0x3003, 0), SemNew(0x3004, 1), SemSignal(0x3002)]

  /** On any kernel in order, a process that has made the four semaphores and has signalled the one for
      `<` has put the program on it, ready for its forks. */
  lemma Starts(k: Kernel, t: SemTable, total: nat)
    requires Inv(k) && IsTable(k, t)
    requires Unused(t, 0x3001) && Unused(t, 0x3002) && Unused(t, 0x3003) && Unused(t, 0x3004)
    ensures var k' := After(k, SETUP);
            && k'.current == k.current && k.current in k'.procs
            && Sound(CODE, System(k', Host(seq(3, _ => None), k'.procs[k.current].data), C.Start(total)))
  {
    hide Inv;
    hide Do;
    hide Sound;
    var t1 := t[0x3001 := Sem(0, [])];
    var t2 := t1[0x3002 := Sem(0, [])];
    var t3 := t2[0x3003 := Sem(0, [])];
    var t4 := t3[0x3004 := Sem(1, [])];
    SemNewKeepsOrder(k, t, 0x3001, 0);
    var k1 := Do(k, SemNew(0x3001, 0));
    SemNewKeepsOrder(k1, t1, 0x3002, 0);
    var k2 := Do(k1, SemNew(0x3002, 0));
    SemNewKeepsOrder(k2, t2, 0x3003, 0);
    var k3 := Do(k2, SemNew(0x3003, 0));
    SemNewKeepsOrder(k3, t3, 0x3004, 1);
    var k4 := Do(k3, SemNew(0x3004, 1));
    FirstTurn(k4, t4);
    assert SETUP[1..][1..][1..][1..] == [SemSignal(0x3002)] && [SemSignal(0x3002)][1..] == [];
    assert After(k, SETUP) == After(k1, SETUP[1..]) == After(k2, SETUP[1..][1..])
        == After(k3, SETUP[1..][1..][1..]) == After(k4, [SemSignal(0x3002)]) == Do(k4, SemSignal(0x3002));
    Fits(After(k, SETUP), k.procs[k.current].data, total);
  }

  lemma FirstTurn(k: Kernel, t: SemTable)
    requires Inv(k) && IsTable(k, t) && 0x3002 in t && t[0x3002] == Sem(0, [])
    ensures var k' := Do(k, SemSignal(0x3002));
            && Inv(k') && IsTable(k', t[0x3002 := Sem(1, [])])
            && k'.current == k.current && k'.procs == k.procs
  {
    hide Placed;
    CallInv(k, SemSignal(0x3002));
  }

  /** However the kernel schedules the fish, and whatever else it does meanwhile: what has been printed
      is a beginning of the repeated block, and all of it when all have gone, after at most
      16 * total + 24 statements; until then some fish is yet to be forked, has the processor, or is
      Ready in the queue. */
  lemma TheSong(s: System<C.Tank>, moves: seq<Move>, total: nat)
    requires Sound(CODE, s) && s.program == C.Start(total) && AllEnabled(CODE, s, moves)
    ensures var end := Finish(CODE, s, moves);
            && end.program.output == C.Song(|end.program.output|)
            && |Schedule(CODE, s, moves)| <= 16 * total + 24
            && (C.AllGone(end.program) ==> end.program.output == C.Song(total))
            && (!C.AllGone(end.program) ==> exists i, at :: GoesOn(CODE, end, i, at))
  {
    hide Implements;
    hide Sound;
    hide AllEnabled;
    hide C.Run;
    hide C.Inv;
    hide IsInterleaving;
    IsCode();
    C.StartInv(total);
    RunIsInterleaving(CODE, GOOD, s, moves);
    var who, end := Schedule(CODE, s, moves), Finish(CODE, s, moves);
    IsSchedule(s.program, who);
    C.TheSong(total, who);
    if !C.AllGone(end.program) {
      var i :| C.CanStep(end.program, i);
      var at := CanRunGoesOn(CODE, end, i);
    }
  }
}
