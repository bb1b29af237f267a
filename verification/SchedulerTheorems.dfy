/** What the processes can rely on: registers survive, nobody starves, every join is answered. */
module SchedulerTheorems {
  import opened Common
  import opened Semaphores
  import opened Scheduler
  import opened SchedulerInvariant

  // ---------------------------------------------------------------------
  // What switching and waking do to each process
  // ---------------------------------------------------------------------

  lemma {:induction false} SwitchFacts(k: Kernel)
    ensures var k' := SwitchNext(k);
            && k'.procs.Keys == k.procs.Keys && k'.waiters == k.waiters && k'.sems == k.sems
            && k'.nextPid == k.nextPid
            && (k'.current == k.current ==> k' == k.(ready := k'.ready))
            && (k'.current != k.current ==>
                  IsReady(k, k'.current) && k'.cpu == k.procs[k'.current].context
                  && k'.procs == SetStatus(k, k'.current, Running).procs)
    decreases |k.ready|
  {
    if k.ready != [] && !IsReady(k, k.ready[0]) {
      SwitchFacts(k.(ready := k.ready[1..]));
    }
  }

  /** The first Ready entry is taken; those behind it move up. */
  lemma {:induction false} SwitchTakes(k: Kernel, i: nat) returns (m: nat)
    requires i < |k.ready| && IsReady(k, k.ready[i])
    ensures m <= i && IsReady(k, k.ready[m]) && SwitchNext(k).current == k.ready[m]
    ensures SwitchNext(k).ready == k.ready[m + 1..]
    decreases |k.ready|
  {
    if IsReady(k, k.ready[0]) {
      m := 0;
    } else {
      var n := SwitchTakes(k.(ready := k.ready[1..]), i - 1);
      m := n + 1;
    }
  }

  lemma {:induction false} WokenOrNot(k: Kernel, ps: seq<Pid>, ret: int, p: Pid)
    requires p in k.procs && forall q :: q in ps ==> q in k.procs
    ensures var k' := WakeAll(k, ps, ret);
            && p in k'.procs && k.ready <= k'.ready
            && (p !in ps ==> k'.procs[p] == k.procs[p])
            && (p in ps ==> k'.procs[p] == k.procs[p].(
                              context := k.procs[p].context.(rax := Word(ret)), status := Ready))
    decreases |ps|
  {
    if ps != [] {
      WokenOrNot(WakeProc(k, ps[0], Some(ret)), ps[1..], ret, p);
    }
  }

  /** What the invariant says about a process found on a wait list. */
  lemma OnLineFacts(k: Kernel, loc: Loc, p: Pid)
    requires Inv(k) && p in Line(k.waiters, k.sems, [], loc)
    ensures p in k.procs && p != k.current && p != KERNEL_PID && k.procs[p].status == Blocked
    ensures p !in k.ready
    ensures forall l :: p in Line(k.waiters, k.sems, [], l) ==> l == loc
  {
    assert ProcOk(k, Some(k.current), [], p);
  }

  lemma WaitersKnown(k: Kernel, v: Pid)
    requires Inv(k)
    ensures forall q :: q in Waiters(k, v) ==> q in k.procs && k.procs[q].status == Blocked && q != k.current
  {
    hide Placed;
    assert Line(k.waiters, k.sems, [], OnJoin(v)) == Waiters(k, v);
    forall q | q in Waiters(k, v) ensures q in k.procs && k.procs[q].status == Blocked && q != k.current {
      OnLineFacts(k, OnJoin(v), q);
    }
  }

  // ---------------------------------------------------------------------
  // Exactly when a call keeps the processes placed
  // ---------------------------------------------------------------------

  /** The guard is exact: outside it the invariant is lost. */
  lemma GuardIsExact(k: Kernel, call: Call)
    requires Inv(k)
    ensures Inv(Do(k, call)) <==> Allowed(k, call)
  {
    hide Placed;
    if Allowed(k, call) {
      CallInv(k, call);
    } else {
      match call
      case Exit(ret) => InitExits(k, ret);
      case WaitPid(q) => InitBlocks(k, AddWaiter(k, q));
      case SemWait(key) => InitBlocks(k, SetTable(k, TableWait(Table(k), key, k.current)));
      case KillPid(high, p) =>
        if p == KERNEL_PID && high > 0 { InitKilled(k, high); } else { BlockedVictim(k, high, p); }
      case SemNew(key, value) => DroppedQueue(k, key, Do(k, call));
      case SemRemove(key) => DroppedQueue(k, key, Do(k, call));
    }
  }

  lemma InitExits(k: Kernel, ret: int)
    requires Inv(k) && k.current == KERNEL_PID
    ensures !Inv(Do(k, Exit(ret)))
  {
    CallerFacts(k);
    WaitersKnown(k, KERNEL_PID);
    WokenOrNot(MarkDead(k, KERNEL_PID, ret), Waiters(k, KERNEL_PID), ret, KERNEL_PID);
    WakeAllKeeps(MarkDead(k, KERNEL_PID, ret), Waiters(k, KERNEL_PID), ret);
    SwitchFacts(Kill(k, k.current, ret));
  }

  /** Only the whole argument is compared with 1: with a bit above the lower 16, pid 1 is killed. */
  lemma InitKilled(k: Kernel, high: nat)
    requires Inv(k) && high > 0
    ensures !Inv(Do(k, KillPid(high, KERNEL_PID)))
  {
    if k.current == KERNEL_PID {
      InitExits(k, KILLED);
    } else {
      CallerFacts(k);
      WaitersKnown(k, KERNEL_PID);
      WokenOrNot(MarkDead(k, KERNEL_PID, KILLED), Waiters(k, KERNEL_PID), KILLED, KERNEL_PID);
    }
  }

  lemma InitBlocks(k: Kernel, k': Kernel)
    requires Inv(k) && k.current == KERNEL_PID
    requires k'.procs == k.procs && k'.current == k.current
    ensures !Inv(BlockCurrent(k'))
  {
    CallerFacts(k);
    SwitchFacts(SetStatus(Save(k'), k'.current, Blocked));
  }

  /** A blocked victim stays on its wait list; one that waits for itself is even made Ready. */
  lemma BlockedVictim(k: Kernel, high: nat, p: Pid)
    requires Inv(k) && p in k.procs && k.procs[p].status == Blocked
    ensures !Inv(Do(k, KillPid(high, p)))
  {
    hide WakeAll;
    hide JoinsOk;
    hide SemsOk;
    CallerFacts(k);
    assert ProcOk(k, Some(k.current), [], p);
    var loc :| p in Line(k.waiters, k.sems, [], loc);
    OnLineFacts(k, loc, p);
    WaitersKnown(k, p);
    var k' := Kill(k, p, KILLED);
    WakeAllKeeps(MarkDead(k, p, KILLED), Waiters(k, p), KILLED);
    WokenOrNot(MarkDead(k, p, KILLED), Waiters(k, p), KILLED, p);
    assert k'.procs[p].exitCode == Some(KILLED);
    assert loc == OnJoin(p) || p in Line(k'.waiters, k'.sems, [], loc);
    assert Inv(k') ==> ProcOk(k', Some(k'.current), [], p);
  }

  /** The processes queued on a semaphore that is replaced or removed are on no list any more. */
  lemma DroppedQueue(k: Kernel, key: Key, k': Kernel)
    requires Inv(k) && QueueOf(k, key) != []
    requires k'.procs == k.procs && k'.waiters == k.waiters && k'.current == k.current
    requires forall d, j :: (d in k'.sems && j in k'.sems[d] ==>
               if d == k.procs[k.current].data && j == key then k'.sems[d][j].queue == []
               else d in k.sems && j in k.sems[d] && k'.sems[d][j] == k.sems[d][j])
    ensures !Inv(k')
  {
    CallerFacts(k);
    var p, loc := QueueOf(k, key)[0], OnSem(k.procs[k.current].data, key);
    assert p in Line(k.waiters, k.sems, [], loc);
    OnLineFacts(k, loc, p);
    forall l ensures p !in Line(k'.waiters, k'.sems, [], l) {
      match l
      case InHand =>
      case OnJoin(q) => assert Line(k'.waiters, k'.sems, [], l) == Line(k.waiters, k.sems, [], l);
      case OnSem(d, j) =>
        if l != loc && d in k'.sems && j in k'.sems[d] {
          assert d in k.sems && j in k.sems[d] && k'.sems[d][j] == k.sems[d][j];
          assert Line(k'.waiters, k'.sems, [], l) == Line(k.waiters, k.sems, [], l);
        }
    }
    assert Inv(k') ==> ProcOk(k', Some(k'.current), [], p);
  }

  /** No process that has been killed gets the processor: resuming it would panic, since its memory
      went when its exit code was set, and the memory map is needed to resume. */
  lemma ResumedLives(cpu: Context, calls: seq<Call>)
    requires IsRun(Boot(cpu), calls)
    ensures var k := After(Boot(cpu), calls);
            && k.current in k.procs && k.procs[k.current].status in {Ready, Running}
            && k.procs[k.current].exitCode.None?
  {
    BootInv(cpu);
    RunInv(Boot(cpu), calls);
    CallerFacts(After(Boot(cpu), calls));
  }

  /** A killed sleeper walks again: once the semaphore it slept on is signalled, the dead
      process is Ready and queued, with its exit code set. The kernel panics when it picks that
      process; the machine does not stop there. */
  lemma KilledSleeperWalks(k: Kernel, key: Key)
    requires Inv(k) && QueueOf(k, key) != []
    ensures var p := QueueOf(k, key)[0];
            var k' := After(k, [KillPid(0, p), SemSignal(key)]);
            && p in k'.procs && k'.procs[p].status == Ready && k'.procs[p].exitCode == Some(KILLED)
            && p in k'.ready
  {
    hide Placed;
    CallerFacts(k);
    var p, loc := QueueOf(k, key)[0], OnSem(k.procs[k.current].data, key);
    assert p in Line(k.waiters, k.sems, [], loc);
    OnLineFacts(k, loc, p);
    WaitersKnown(k, p);
    assert Line(k.waiters, k.sems, [], OnJoin(p)) == Waiters(k, p);
    var dead := MarkDead(k, p, KILLED);
    WakeAllKeeps(dead, Waiters(k, p), KILLED);
    WokenOrNot(dead, Waiters(k, p), KILLED, p);
    WokenOrNot(dead, Waiters(k, p), KILLED, k.current);
    var k1 := Do(k, KillPid(0, p));
    assert Table(k1) == Table(k);
    assert [KillPid(0, p), SemSignal(key)][1..] == [SemSignal(key)] && [SemSignal(key)][1..] == [];
    assert After(k1, [SemSignal(key)]) == Do(k1, SemSignal(key));
  }

  // ---------------------------------------------------------------------
  // The scheduler is invisible
  // ---------------------------------------------------------------------

  /** The registers with which p runs next. */
  function View(k: Kernel, p: Pid): Context
    requires p in k.procs
  {
    if p == k.current then k.cpu else k.procs[p].context
  }

  /** The process a call puts to death, if any, and its exit code. */
  function Victim(k: Kernel, call: Call): Option<(Pid, int)> {
    match call
    case Exit(ret) => Some((k.current, ret))
    case KillPid(high, p) => if IsKernelArgument(high, p) then None else Some((p, KILLED))
    case _ => None
  }

  /** The result a call leaves in its caller's `rax`; None when it leaves `rax` alone. */
  function ReturnValue(k: Kernel, call: Call): Option<int> {
    match call
    case WaitPid(q) => (match ExitCode(k, q) case Some(ret) => Some(Word(ret)) case None => None)
    case VFork(_) => Some(k.nextPid)
    case Spawn(_) => Some(k.nextPid)
    case SemNew(key, _) => Some(if key in Table(k) then 1 else 0)
    case SemRemove(key) => Some(if key in Table(k) then 0 else 1)
    case SemWait(key) =>
      (match TableWaitResult(Table(k), key, k.current) case Granted => Some(0) case Block(_) => None case _ => Some(1))
    case SemSignal(key) =>
      (match TableSignalResult(Table(k), key) case Granted => Some(0) case WakeUp(_) => None case _ => Some(1))
    case _ => None
  }

  function WithRax(c: Context, r: Option<int>): Context {
    if r.Some? then c.(rax := r.value) else c
  }

  /** What p should find in its registers after the call, whoever runs in between. */
  function Promised(k: Kernel, call: Call, p: Pid): Context
    requires p in k.procs
  {
    if p == k.current then
      if call.UserCode? then call.registers else WithRax(k.cpu, ReturnValue(k, call))
    else
      match Victim(k, call)
      case Some((v, ret)) => if p in Waiters(k, v) && v in k.procs then View(k, p).(rax := Word(ret)) else View(k, p)
      case None => View(k, p)
  }

  lemma ViewAfterSwitch(k: Kernel, p: Pid)
    requires p in k.procs
    requires p == k.current ==> k.procs[p].context == k.cpu || SwitchNext(k).current != p
    ensures p in SwitchNext(k).procs && View(SwitchNext(k), p) == k.procs[p].context
  {
    SwitchFacts(k);
  }

  lemma KillView(k: Kernel, v: Pid, ret: int, p: Pid)
    requires Inv(k) && p in k.procs && p != v && v in k.procs
    ensures p in Kill(k, v, ret).procs
    ensures Kill(k, v, ret).procs[p].context ==
            if p in Waiters(k, v) then k.procs[p].context.(rax := Word(ret)) else k.procs[p].context
    ensures Kill(k, v, ret).current == k.current && Kill(k, v, ret).cpu == k.cpu
  {
    hide Placed;
    WaitersKnown(k, v);
    WokenOrNot(MarkDead(k, v, ret), Waiters(k, v), ret, p);
    WakeAllKeeps(MarkDead(k, v, ret), Waiters(k, v), ret);
  }

  predicate Lives(k: Kernel, p: Pid) {
    p in k.procs && k.procs[p].status != Dead
  }

  /** A vfork returns the child's pid to the parent because the child, queued first, is taken
      before the parent can be taken again with the registers it already has. */
  lemma ForkSwitchesAway(k: Kernel, offset: int)
    requires Inv(k)
    ensures Do(k, VFork(offset)).current != k.current
  {
    hide Placed;
    CallerFacts(k);
    CallerUnqueued(k);
    var k1 := PushReady(Fork(Save(k), offset), k.current);
    assert k1.ready == k.ready + [k.nextPid, k.current];
    var m := SwitchTakes(k1, |k.ready|);
    assert m < |k.ready| ==> k1.ready[m] in k.ready;
  }

  lemma CallerUnqueued(k: Kernel)
    requires Inv(k)
    ensures k.current !in k.ready && k.nextPid !in k.procs && k.nextPid != k.current
  {
    forall p | p in k.procs ensures p < k.nextPid {
      assert ProcOk(k, Some(k.current), [], p);
    }
  }

  lemma VForkView(k: Kernel, offset: int, p: Pid)
    requires Inv(k) && p in k.procs
    ensures p in Do(k, VFork(offset)).procs
    ensures View(Do(k, VFork(offset)), p) == Promised(k, VFork(offset), p)
  {
    hide Placed;
    CallerFacts(k);
    CallerUnqueued(k);
    ForkSwitchesAway(k, offset);
    ViewAfterSwitch(PushReady(Fork(Save(k), offset), k.current), p);
  }

  /** Every process that survives a call finds exactly what was promised: its own registers,
      with `rax` changed only by its own call's result or by the exit code it joined for. */
  lemma SchedulerIsInvisible(k: Kernel, call: Call, p: Pid)
    requires Inv(k) && Allowed(k, call) && p in k.procs && Lives(Do(k, call), p)
    ensures View(Do(k, call), p) == Promised(k, call, p)
  {
    hide Placed;
    CallerFacts(k);
    match call
    case Timer => TimerView(k, p);
    case Exit(ret) =>
      VictimDies(k, k.current, ret);
      KilledView(k, k.current, ret, p);
    case KillPid(high, v) => KillPidView(k, high, v, p);
    case VFork(offset) => VForkView(k, offset, p);
    case WaitPid(q) =>
      if ExitCode(k, q).None? {
        ViewAfterSwitch(SetStatus(Save(AddWaiter(k, q)), k.current, Blocked), p);
      }
    case SemWait(key) =>
      if TableWaitResult(Table(k), key, k.current).Block? {
        ViewAfterSwitch(
          SetStatus(Save(SetTable(k, TableWait(Table(k), key, k.current))), k.current, Blocked), p);
      }
    case Spawn(_) => CallerUnqueued(k);
    case _ =>
  }

  lemma TimerView(k: Kernel, p: Pid)
    requires Inv(k) && p in k.procs
    ensures p in Do(k, Timer).procs
    ensures View(Do(k, Timer), p) == View(k, p)
  {
    hide Placed;
    CallerFacts(k);
    ViewAfterSwitch(PushReady(Save(k), k.current), p);
  }

  lemma KillPidView(k: Kernel, high: nat, v: Pid, p: Pid)
    requires Inv(k) && Allowed(k, KillPid(high, v)) && p in k.procs && Lives(Do(k, KillPid(high, v)), p)
    ensures View(Do(k, KillPid(high, v)), p) == Promised(k, KillPid(high, v), p)
  {
    hide Placed;
    CallerFacts(k);
    WaitersKnown(k, v);
    if v == KERNEL_PID || v !in k.procs {
      assert Do(k, KillPid(high, v)) == k;
    } else if v == k.current {
      KilledView(k, v, KILLED, p);
      if p == v { VictimDies(k, v, KILLED); }
    } else if v == p {
      DeadAtOnce(k, high, v);
    } else {
      KillView(k, v, KILLED, p);
    }
  }

  lemma VictimDies(k: Kernel, v: Pid, ret: int)
    requires Inv(k) && v == k.current
    ensures !Lives(SwitchNext(Kill(k, v, ret)), v)
  {
    hide Placed;
    CallerFacts(k);
    WaitersKnown(k, v);
    WokenOrNot(MarkDead(k, v, ret), Waiters(k, v), ret, v);
    SwitchFacts(Kill(k, v, ret));
  }

  lemma KilledView(k: Kernel, v: Pid, ret: int, p: Pid)
    requires Inv(k) && v == k.current && v != KERNEL_PID && p in k.procs
    requires Lives(SwitchNext(Kill(k, v, ret)), p)
    ensures View(SwitchNext(Kill(k, v, ret)), p)
         == if p in Waiters(k, v) then View(k, p).(rax := Word(ret)) else View(k, p)
  {
    hide Placed;
    CallerFacts(k);
    WaitersKnown(k, v);
    WokenOrNot(MarkDead(k, v, ret), Waiters(k, v), ret, v);
    WakeAllKeeps(MarkDead(k, v, ret), Waiters(k, v), ret);
    SwitchFacts(Kill(k, v, ret));
    KillView(k, v, ret, p);
    ViewAfterSwitch(Kill(k, v, ret), p);
  }

  lemma DeadAtOnce(k: Kernel, high: nat, v: Pid)
    requires Inv(k) && v in k.procs && v != k.current && v != KERNEL_PID && k.procs[v].status != Blocked
    ensures !Lives(Do(k, KillPid(high, v)), v)
  {
    hide Placed;
    WaitersKnown(k, v);
    WokenOrNot(MarkDead(k, v, KILLED), Waiters(k, v), KILLED, v);
  }

  /** The child starts from the parent's registers at the call, with result 0, on its own stack. */
  lemma ChildStarts(k: Kernel, offset: int)
    requires Inv(k)
    ensures Lives(Do(k, VFork(offset)), k.nextPid)
    ensures View(Do(k, VFork(offset)), k.nextPid)
         == k.cpu.(rax := 0, stackPointer := k.cpu.stackPointer + offset)
  {
    hide Placed;
    CallerFacts(k);
    CallerUnqueued(k);
    var k1 := PushReady(Fork(Save(k), offset), k.current);
    ViewAfterSwitch(k1, k.nextPid);
    SwitchFacts(k1);
  }

  // ---------------------------------------------------------------------
  // Bounded waiting
  // ---------------------------------------------------------------------

  /** The calls that hand the processor on. */
  predicate Switches(k: Kernel, call: Call) {
    match call
    case Timer => true
    case VFork(_) => true
    case Exit(_) => true
    case KillPid(high, p) => p == k.current && !IsKernelArgument(high, p)
    case WaitPid(q) => ExitCode(k, q).None?
    case SemWait(key) => TableWaitResult(Table(k), key, k.current).Block?
    case _ => false
  }

  /** p is Ready at queue index j. */
  predicate QueuedAt(k: Kernel, p: Pid, j: nat) {
    j < |k.ready| && k.ready[j] == p && IsReady(k, p)
  }

  /** p has the processor, is dead, or is Ready at one of the first `bound` queue places. */
  predicate ServedOrWithin(k: Kernel, p: Pid, bound: int) {
    k.current == p || !Lives(k, p) || exists j: nat :: j < bound && QueuedAt(k, p, j)
  }

  lemma SwitchServes(k: Kernel, p: Pid, i: nat)
    requires QueuedAt(k, p, i)
    ensures ServedOrWithin(SwitchNext(k), p, i)
  {
    var m := SwitchTakes(k, i);
    SwitchFacts(k);
    if k.ready[m] != p {
      assert QueuedAt(SwitchNext(k), p, i - m - 1);
    }
  }

  lemma QueuedFacts(k: Kernel, p: Pid, i: nat)
    requires Inv(k) && QueuedAt(k, p, i)
    ensures p in k.procs && p != k.current && p < k.nextPid
    ensures forall l :: p !in Line(k.waiters, k.sems, [], l)
  {
    assert ProcOk(k, Some(k.current), [], p);
  }

  lemma KillAdvances(k: Kernel, high: nat, v: Pid, p: Pid, i: nat)
    requires Inv(k) && Allowed(k, KillPid(high, v)) && QueuedAt(k, p, i)
    ensures ServedOrWithin(Do(k, KillPid(high, v)), p, if Switches(k, KillPid(high, v)) then i else i + 1)
  {
    hide Placed;
    CallerFacts(k);
    QueuedFacts(k, p, i);
    if v == k.current && v != KERNEL_PID {
      KillServes(k, v, KILLED, p, i);
      SwitchServes(Kill(k, v, KILLED), p, i);
    } else if v == p && v != KERNEL_PID {
      DeadAtOnce(k, high, v);
    } else {
      if v != KERNEL_PID && v in k.procs {
        KillServes(k, v, KILLED, p, i);
      }
      assert QueuedAt(Do(k, KillPid(high, v)), p, i);
    }
  }

  lemma WaitAdvances(k: Kernel, call: Call, p: Pid, i: nat)
    requires Inv(k) && Allowed(k, call) && QueuedAt(k, p, i) && (call.WaitPid? || call.SemWait?)
    ensures ServedOrWithin(Do(k, call), p, if Switches(k, call) then i else i + 1)
  {
    hide Placed;
    CallerFacts(k);
    QueuedFacts(k, p, i);
    if !Switches(k, call) {
      assert QueuedAt(Do(k, call), p, i);
    } else if call.WaitPid? {
      SwitchServes(SetStatus(Save(AddWaiter(k, call.pid)), k.current, Blocked), p, i);
    } else {
      SwitchServes(SetStatus(Save(SetTable(k, TableWait(Table(k), call.key, k.current))), k.current, Blocked), p, i);
    }
  }

  /** Every call moves a queued process up the queue, or serves it, or leaves it in place; those
      that hand the processor on do not leave it in place. */
  lemma CallAdvances(k: Kernel, call: Call, p: Pid, i: nat)
    requires Inv(k) && Allowed(k, call) && QueuedAt(k, p, i)
    ensures ServedOrWithin(Do(k, call), p, if Switches(k, call) then i else i + 1)
  {
    hide Placed;
    CallerFacts(k);
    QueuedFacts(k, p, i);
    match call
    case Timer => SwitchServes(PushReady(Save(k), k.current), p, i);
    case VFork(offset) => SwitchServes(PushReady(Fork(Save(k), offset), k.current), p, i);
    case Exit(ret) => KillServes(k, k.current, ret, p, i); SwitchServes(Kill(k, k.current, ret), p, i);
    case KillPid(high, v) => KillAdvances(k, high, v, p, i);
    case WaitPid(_) => WaitAdvances(k, call, p, i);
    case SemWait(_) => WaitAdvances(k, call, p, i);
    case _ => assert QueuedAt(Do(k, call), p, i);
  }

  lemma KillServes(k: Kernel, v: Pid, ret: int, p: Pid, i: nat)
    requires Inv(k) && v in k.procs && p != v && QueuedAt(k, p, i)
    ensures QueuedAt(Kill(k, v, ret), p, i)
  {
    hide Placed;
    WaitersKnown(k, v);
    QueuedFacts(k, p, i);
    assert Line(k.waiters, k.sems, [], OnJoin(v)) == Waiters(k, v);
    WokenOrNot(MarkDead(k, v, ret), Waiters(k, v), ret, p);
  }

  function SwitchCount(k: Kernel, calls: seq<Call>): nat
    decreases |calls|
  {
    if calls == [] then 0
    else (if Switches(k, calls[0]) then 1 else 0) + SwitchCount(Do(k, calls[0]), calls[1..])
  }

  /** A Ready process with i entries before it gets the processor, unless it is killed, before
      the processor has been handed on more than i times. */
  lemma {:induction false} BoundedWaiting(k: Kernel, calls: seq<Call>, p: Pid, i: nat)
    requires Inv(k) && IsRun(k, calls) && QueuedAt(k, p, i)
    requires SwitchCount(k, calls) > i
    ensures exists n :: 0 <= n <= |calls| &&
              (After(k, calls[..n]).current == p || !Lives(After(k, calls[..n]), p))
    decreases |calls|
  {
    hide Placed;
    var k' := Do(k, calls[0]);
    CallInv(k, calls[0]);
    CallAdvances(k, calls[0], p, i);
    if k'.current == p || !Lives(k', p) {
      assert calls[..1] == [calls[0]];
      assert After(k, calls[..1]) == k';
    } else {
      var j: nat :| j < (if Switches(k, calls[0]) then i else i + 1) && QueuedAt(k', p, j);
      BoundedWaiting(k', calls[1..], p, j);
      var n :| 0 <= n <= |calls[1..]| &&
               (After(k', calls[1..][..n]).current == p || !Lives(After(k', calls[1..][..n]), p));
      assert calls[..n + 1][1..] == calls[1..][..n];
      assert After(k, calls[..n + 1]) == After(k', calls[1..][..n]);
    }
  }

  // ---------------------------------------------------------------------
  // Joins
  // ---------------------------------------------------------------------

  /** The call makes p, blocked so far, Ready. */
  predicate Wakes(k: Kernel, call: Call, p: Pid) {
    || (Victim(k, call).Some? && Victim(k, call).value.0 in k.procs && p in Waiters(k, Victim(k, call).value.0))
    || (call.SemSignal? && QueueOf(k, call.key) != [] && QueueOf(k, call.key)[0] == p)
  }

  /** A process that is not the caller, not Ready, not woken and not the victim stays as it is. */
  lemma Untouched(k: Kernel, call: Call, p: Pid)
    requires Inv(k) && Allowed(k, call) && p in k.procs && p != k.current && !IsReady(k, p)
    requires !Wakes(k, call, p) && (Victim(k, call).Some? ==> Victim(k, call).value.0 != p)
    ensures p in Do(k, call).procs && Do(k, call).procs[p] == k.procs[p]
  {
    hide Placed;
    CallerFacts(k);
    CallerUnqueued(k);
    match call
    case Timer => SwitchFacts(PushReady(Save(k), k.current));
    case VFork(offset) => SwitchFacts(PushReady(Fork(Save(k), offset), k.current));
    case Exit(ret) => KillUntouched(k, k.current, ret, p);
    case KillPid(high, v) => if v in k.procs && v != KERNEL_PID { KillUntouched(k, v, KILLED, p); }
    case WaitPid(q) => SwitchFacts(SetStatus(Save(AddWaiter(k, q)), k.current, Blocked));
    case SemWait(key) =>
      SwitchFacts(SetStatus(Save(SetTable(k, TableWait(Table(k), key, k.current))), k.current, Blocked));
    case _ =>
  }

  lemma KillUntouched(k: Kernel, v: Pid, ret: int, p: Pid)
    requires Inv(k) && v in k.procs && p in k.procs && p != v && p !in Waiters(k, v) && !IsReady(k, p)
    ensures p in Kill(k, v, ret).procs && Kill(k, v, ret).procs[p] == k.procs[p]
    ensures p in SwitchNext(Kill(k, v, ret)).procs && SwitchNext(Kill(k, v, ret)).procs[p] == k.procs[p]
  {
    hide Placed;
    WaitersKnown(k, v);
    WokenOrNot(MarkDead(k, v, ret), Waiters(k, v), ret, p);
    SwitchFacts(Kill(k, v, ret));
  }

  lemma DeadFacts(k: Kernel, p: Pid)
    requires Inv(k) && p in k.procs && k.procs[p].status == Dead
    ensures p != k.current && forall l :: p !in Line(k.waiters, k.sems, [], l)
    ensures Waiters(k, p) == [] && k.procs[p].exitCode.Some?
  {
    assert ProcOk(k, Some(k.current), [], p);
  }

  predicate IsKillOf(call: Call, p: Pid) {
    call.KillPid? && call.pid == p
  }

  /** Death is final, and so is the exit code unless the dead process is killed again. */
  lemma DeadStays(k: Kernel, call: Call, p: Pid)
    requires Inv(k) && Allowed(k, call) && p in k.procs && k.procs[p].status == Dead
    ensures p in Do(k, call).procs && Do(k, call).procs[p].status == Dead
    ensures Do(k, call).procs[p].exitCode ==
            if IsKillOf(call, p) && p != KERNEL_PID then Some(KILLED) else k.procs[p].exitCode
  {
    hide Placed;
    DeadFacts(k, p);
    if IsKillOf(call, p) && p != KERNEL_PID {
      assert Do(k, call) == MarkDead(k, p, KILLED);
    } else {
      if Victim(k, call).Some? {
        var v := Victim(k, call).value.0;
        assert Line(k.waiters, k.sems, [], OnJoin(v)) == Waiters(k, v);
      }
      if call.SemSignal? && QueueOf(k, call.key) != [] {
        CallerFacts(k);
        assert QueueOf(k, call.key)[0] in Line(k.waiters, k.sems, [], OnSem(k.procs[k.current].data, call.key));
      }
      Untouched(k, call, p);
    }
  }

  /** Nobody ever waits for a dead process: in every run from the start, whoever is joined on q is
      Blocked, and q lives and has no exit code yet. */
  lemma NoLostJoin(cpu: Context, calls: seq<Call>, p: Pid, q: Pid)
    requires IsRun(Boot(cpu), calls)
    ensures var k := After(Boot(cpu), calls);
            p in Waiters(k, q) && q in k.procs ==>
              && p in k.procs && k.procs[p].status == Blocked
              && Lives(k, q) && k.procs[q].exitCode.None?
  {
    BootInv(cpu);
    RunInv(Boot(cpu), calls);
    var k := After(Boot(cpu), calls);
    if p in Waiters(k, q) && q in k.procs {
      assert p in Line(k.waiters, k.sems, [], OnJoin(q));
      assert ProcOk(k, Some(k.current), [], q);
    }
  }

  /** No call kills a process that is already dead. */
  ghost predicate IsOrderlyRun(k: Kernel, calls: seq<Call>)
    decreases |calls|
  {
    calls != [] ==>
      && Allowed(k, calls[0])
      && (forall p :: IsKillOf(calls[0], p) && p in k.procs ==> Lives(k, p))
      && IsOrderlyRun(Do(k, calls[0]), calls[1..])
  }

  /** p is blocked in a join on q; its saved registers are c. */
  predicate Joining(k: Kernel, p: Pid, q: Pid, c: Context) {
    p in k.procs && p in Waiters(k, q) && k.procs[p].context == c
  }

  /** q is dead and p will run, or runs, with q's exit code in `rax`. */
  predicate Answered(k: Kernel, p: Pid, q: Pid, c: Context) {
    && q in k.procs && k.procs[q].status == Dead && k.procs[q].exitCode.Some?
    && (k.current == p || IsReady(k, p))
    && p in k.procs && View(k, p) == c.(rax := Word(k.procs[q].exitCode.value))
  }

  lemma JoiningStep(k: Kernel, call: Call, p: Pid, q: Pid, c: Context)
    requires Inv(k) && Allowed(k, call) && Joining(k, p, q, c)
    ensures Joining(Do(k, call), p, q, c) || Answered(Do(k, call), p, q, c)
  {
    hide Placed;
    CallerFacts(k);
    assert p in Line(k.waiters, k.sems, [], OnJoin(q));
    OnLineFacts(k, OnJoin(q), p);
    if Victim(k, call).Some? && Victim(k, call).value.0 == q && q in k.procs {
      KillAnswers(k, call, p, q);
    } else {
      if Victim(k, call).Some? && Victim(k, call).value.0 in k.procs {
        var v := Victim(k, call).value.0;
        assert Line(k.waiters, k.sems, [], OnJoin(v)) == Waiters(k, v);
      }
      if call.SemSignal? && QueueOf(k, call.key) != [] {
        assert QueueOf(k, call.key)[0] in Line(k.waiters, k.sems, [], OnSem(k.procs[k.current].data, call.key));
      }
      Untouched(k, call, p);
      WaitersStay(k, call, p, q);
    }
  }

  /** Only the death of q detaches the processes joined on it. */
  lemma WaitersStay(k: Kernel, call: Call, p: Pid, q: Pid)
    requires Inv(k) && Allowed(k, call) && p in Waiters(k, q)
    requires Victim(k, call).Some? ==> Victim(k, call).value.0 != q || q !in k.procs
    ensures p in Waiters(Do(k, call), q)
  {
    hide Placed;
    CallerFacts(k);
    match call
    case Timer => SwitchFacts(PushReady(Save(k), k.current));
    case VFork(offset) => SwitchFacts(PushReady(Fork(Save(k), offset), k.current));
    case Exit(ret) => KillWaiters(k, k.current, ret);
    case KillPid(high, v) => if v in k.procs && v != KERNEL_PID { KillWaiters(k, v, KILLED); }
    case WaitPid(r) =>
      if ExitCode(k, r).None? {
        InsertFacts(Waiters(k, r), k.current);
        SwitchFacts(SetStatus(Save(AddWaiter(k, r)), k.current, Blocked));
      }
    case SemWait(key) =>
      SwitchFacts(SetStatus(Save(SetTable(k, TableWait(Table(k), key, k.current))), k.current, Blocked));
    case _ =>
  }

  lemma KillWaiters(k: Kernel, v: Pid, ret: int)
    requires v in k.procs
    ensures Kill(k, v, ret).waiters == SwitchNext(Kill(k, v, ret)).waiters == k.waiters - {v}
  {
    WakeAllKeeps(MarkDead(k, v, ret), Waiters(k, v), ret);
    SwitchFacts(Kill(k, v, ret));
  }

  lemma KillAnswers(k: Kernel, call: Call, p: Pid, q: Pid)
    requires Inv(k) && Allowed(k, call) && p in k.procs && p in Waiters(k, q) && q in k.procs
    requires Victim(k, call).Some? && Victim(k, call).value.0 == q
    ensures Answered(Do(k, call), p, q, k.procs[p].context)
  {
    hide Placed;
    CallerFacts(k);
    WaitersKnown(k, q);
    var ret := Victim(k, call).value.1;
    assert Line(k.waiters, k.sems, [], OnJoin(q)) == Waiters(k, q);
    OnLineFacts(k, OnJoin(q), p);
    assert q !in Waiters(k, q);
    WokenOrNot(MarkDead(k, q, ret), Waiters(k, q), ret, p);
    WokenOrNot(MarkDead(k, q, ret), Waiters(k, q), ret, q);
    WakeAllKeeps(MarkDead(k, q, ret), Waiters(k, q), ret);
    SwitchFacts(Kill(k, q, ret));
    assert Do(k, call) == Kill(k, q, ret) || Do(k, call) == SwitchNext(Kill(k, q, ret));
  }

  lemma AnsweredStep(k: Kernel, call: Call, p: Pid, q: Pid, c: Context)
    requires Inv(k) && Allowed(k, call) && Answered(k, p, q, c) && k.current != p
    requires forall v :: IsKillOf(call, v) && v in k.procs ==> Lives(k, v)
    ensures Answered(Do(k, call), p, q, c) || !Lives(Do(k, call), p)
  {
    hide Placed;
    CallerFacts(k);
    DeadStays(k, call, q);
    var i := ReadyIsQueued(k, p);
    CallAdvances(k, call, p, i);
    if Lives(Do(k, call), p) {
      SchedulerIsInvisible(k, call, p);
      QueuedFacts(k, p, i);
      if Victim(k, call).Some? {
        assert Line(k.waiters, k.sems, [], OnJoin(Victim(k, call).value.0)) == Waiters(k, Victim(k, call).value.0);
      }
    }
  }

  lemma ReadyIsQueued(k: Kernel, p: Pid) returns (i: nat)
    requires Inv(k) && IsReady(k, p) && p != k.current
    ensures QueuedAt(k, p, i)
  {
    assert ProcOk(k, Some(k.current), [], p);
    i :| i < |k.ready| && k.ready[i] == p;
  }

  /** Until p has the processor again, its join is pending or answered, or p has been killed. */
  lemma {:induction false} JoinRun(k: Kernel, calls: seq<Call>, p: Pid, q: Pid, c: Context)
    requires Inv(k) && IsOrderlyRun(k, calls)
    requires Joining(k, p, q, c) || Answered(k, p, q, c) || (p in k.procs && k.procs[p].status == Dead)
    requires forall n :: 0 <= n < |calls| ==> After(k, calls[..n]).current != p
    ensures var k' := After(k, calls);
            && Inv(k')
            && (Joining(k', p, q, c) || Answered(k', p, q, c) || (p in k'.procs && k'.procs[p].status == Dead))
    decreases |calls|
  {
    hide Placed;
    if calls != [] {
      var k' := Do(k, calls[0]);
      CallInv(k, calls[0]);
      assert After(k, calls[..0]).current != p;
      if Joining(k, p, q, c) {
        JoiningStep(k, calls[0], p, q, c);
      } else if Answered(k, p, q, c) {
        AnsweredStep(k, calls[0], p, q, c);
        ProcStays(k, calls[0], p);
      } else {
        DeadStays(k, calls[0], p);
      }
      forall n | 0 <= n < |calls[1..]| ensures After(k', calls[1..][..n]).current != p {
        assert calls[..n + 1][1..] == calls[1..][..n];
        assert After(k, calls[..n + 1]) == After(k', calls[1..][..n]);
      }
      JoinRun(k', calls[1..], p, q, c);
    }
  }

  /** Processes are never removed from the table. */
  lemma ProcStays(k: Kernel, call: Call, p: Pid)
    requires Inv(k) && p in k.procs
    ensures p in Do(k, call).procs
  {
    hide Placed;
    CallerFacts(k);
    match call
    case Timer => SwitchFacts(PushReady(Save(k), k.current));
    case VFork(offset) => SwitchFacts(PushReady(Fork(Save(k), offset), k.current));
    case Exit(ret) =>
      WakeAllKeeps(MarkDead(k, k.current, ret), Waiters(k, k.current), ret);
      SwitchFacts(Kill(k, k.current, ret));
    case KillPid(high, v) =>
      if v in k.procs {
        WakeAllKeeps(MarkDead(k, v, KILLED), Waiters(k, v), KILLED);
        SwitchFacts(Kill(k, v, KILLED));
      }
    case WaitPid(q) => SwitchFacts(SetStatus(Save(AddWaiter(k, q)), k.current, Blocked));
    case SemWait(key) =>
      SwitchFacts(SetStatus(Save(SetTable(k, TableWait(Table(k), key, k.current))), k.current, Blocked));
    case _ =>
  }

  /** A join returns the exit code of the process joined on: if the caller p blocks on q, then
      when p next has the processor q is dead, and p's registers are those of the call with q's
      exit code as result. */
  lemma JoinReturnsExitCode(k: Kernel, q: Pid, calls: seq<Call>)
    requires Inv(k) && k.current != KERNEL_PID && ExitCode(k, q).None?
    requires var k1 := Do(k, WaitPid(q));
             && IsOrderlyRun(k1, calls)
             && (forall n :: 0 <= n < |calls| ==> After(k1, calls[..n]).current != k.current)
             && After(k1, calls).current == k.current
    ensures var k' := After(Do(k, WaitPid(q)), calls);
            && q in k'.procs && k'.procs[q].status == Dead && k'.procs[q].exitCode.Some?
            && k'.cpu == k.cpu.(rax := Word(k'.procs[q].exitCode.value))
  {
    hide Placed;
    var k1 := Do(k, WaitPid(q));
    CallInv(k, WaitPid(q));
    CallerFacts(k);
    InsertFacts(Waiters(k, q), k.current);
    SwitchFacts(SetStatus(Save(AddWaiter(k, q)), k.current, Blocked));
    assert Joining(k1, k.current, q, k.cpu);
    JoinRun(k1, calls, k.current, q, k.cpu);
    var k' := After(k1, calls);
    CallerFacts(k');
    WaitersKnown(k', q);
  }

  /** Every later join on a dead process returns its exit code at once. */
  lemma {:induction false} LaterJoins(k: Kernel, calls: seq<Call>, q: Pid)
    requires Inv(k) && IsOrderlyRun(k, calls) && q in k.procs && k.procs[q].status == Dead
    ensures var k' := After(k, calls);
            && ExitCode(k', q) == k.procs[q].exitCode && k.procs[q].exitCode.Some?
            && Do(k', WaitPid(q)) == k'.(cpu := k'.cpu.(rax := Word(k.procs[q].exitCode.value)))
    decreases |calls|
  {
    hide Placed;
    DeadFacts(k, q);
    if calls != [] {
      CallInv(k, calls[0]);
      DeadStays(k, calls[0], q);
      LaterJoins(Do(k, calls[0]), calls[1..], q);
    }
  }

  /** From the time p loses the processor until it has it again, its registers change at most in
      `rax`, whatever the other processes call. */
  lemma {:induction false} RegistersSurvive(k: Kernel, calls: seq<Call>, p: Pid)
    requires Inv(k) && IsRun(k, calls) && Lives(k, p)
    requires forall n :: 0 <= n < |calls| ==> After(k, calls[..n]).current != p
    requires Lives(After(k, calls), p)
    ensures View(After(k, calls), p) == View(k, p).(rax := View(After(k, calls), p).rax)
    decreases |calls|
  {
    hide Placed;
    if calls != [] {
      var k' := Do(k, calls[0]);
      CallInv(k, calls[0]);
      ProcStays(k, calls[0], p);
      assert After(k, calls[..0]).current != p;
      if !Lives(k', p) {
        StaysDead(k', calls[1..], p);
      } else {
        SchedulerIsInvisible(k, calls[0], p);
        forall n | 0 <= n < |calls[1..]| ensures After(k', calls[1..][..n]).current != p {
          assert calls[..n + 1][1..] == calls[1..][..n];
          assert After(k, calls[..n + 1]) == After(k', calls[1..][..n]);
        }
        RegistersSurvive(k', calls[1..], p);
      }
    }
  }

  lemma {:induction false} StaysDead(k: Kernel, calls: seq<Call>, p: Pid)
    requires Inv(k) && IsRun(k, calls) && p in k.procs && !Lives(k, p)
    ensures !Lives(After(k, calls), p)
    decreases |calls|
  {
    hide Placed;
    if calls != [] {
      CallInv(k, calls[0]);
      DeadStays(k, calls[0], p);
      StaysDead(Do(k, calls[0]), calls[1..], p);
    }
  }
}
