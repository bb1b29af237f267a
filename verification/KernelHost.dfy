/** How the threads of a program live on the kernel: a process for each thread that has been forked,
    the program's semaphores in the table that these processes share. What the kernel does between
    two statements of the threads leaves the program alone, and each statement does what it does. */
module KernelHost {
  import opened Common
  import opened Semaphores
  import opened Scheduler
  import opened SchedulerInvariant
  import opened SchedulerTheorems

  /** What the kernel sees of a program: its semaphores, with thread numbers in the queues, and for
      each thread whether it is blocked and whether it has finished. */
  datatype Group = Group(sems: map<Key, Sem>, blocked: seq<bool>, gone: seq<bool>)

  /** The pids of the threads that have been forked, and the table of their semaphores. */
  datatype Host = Host(pids: seq<Option<Pid>>, data: nat)

  /** What the next statement of a thread asks of the kernel. */
  datatype Act = Private | WaitOn(key: Key) | SignalOn(key: Key)

  predicate IsThread(h: Host, g: Group, i: nat, p: Pid) {
    i < |h.pids| == |g.gone| && h.pids[i] == Some(p) && !g.gone[i]
  }

  /** p is the process of a thread that has not finished. */
  ghost predicate IsLive(h: Host, g: Group, p: Pid) {
    exists i: nat :: IsThread(h, g, i, p)
  }

  /** The same queue, of threads and of their processes. */
  predicate SameQueue(h: Host, q: seq<nat>, r: seq<Pid>) {
    |q| == |r| && forall x :: 0 <= x < |q| ==> q[x] < |h.pids| && h.pids[q[x]] == Some(r[x])
  }

  predicate SameSem(h: Host, s: Sem, t: Sem) {
    s.count == t.count && SameQueue(h, s.queue, t.queue)
  }

  predicate SemsAgree(k: Kernel, h: Host, g: Group) {
    h.data in k.sems &&
    forall key :: key in g.sems ==> key in k.sems[h.data] && SameSem(h, g.sems[key], k.sems[h.data][key])
  }

  /** Thread i waits in one of the program's queues. */
  ghost predicate QueuedSomewhere(g: Group, i: nat) {
    exists key :: key in g.sems && i in g.sems[key].queue
  }

  /** The process of thread i. */
  ghost predicate ThreadAgrees(k: Kernel, h: Host, g: Group, i: nat)
    requires i < |h.pids| == |g.gone| == |g.blocked|
  {
    match h.pids[i]
    case None => !g.blocked[i]
    case Some(p) =>
      p != KERNEL_PID && p < k.nextPid &&
      (!g.gone[i] ==>
         && p in k.procs && k.procs[p].data == h.data
         && (if g.blocked[i] then k.procs[p].status == Blocked && QueuedSomewhere(g, i)
             else k.procs[p].status in {Ready, Running}))
  }

  predicate Shaped(h: Host, g: Group) {
    && |h.pids| == |g.gone| == |g.blocked|
    && forall i, j :: 0 <= i < j < |h.pids| && h.pids[i].Some? ==> h.pids[i] != h.pids[j]
  }

  ghost predicate Hosts(k: Kernel, h: Host, g: Group) {
    && Inv(k) && Shaped(h, g) && SemsAgree(k, h, g)
    && forall i :: 0 <= i < |h.pids| ==> ThreadAgrees(k, h, g, i)
  }

  // ---------------------------------------------------------------------
  // What the group does
  // ---------------------------------------------------------------------

  function Unblocked(g: Group, r: SemResult): seq<bool> {
    match r
    case WakeUp(j) => if j < |g.blocked| then g.blocked[j := false] else g.blocked
    case _ => g.blocked
  }

  /** One statement of thread i, which finishes with it if `leaves`. */
  function GroupStep(g: Group, i: nat, act: Act, leaves: bool): Group
    requires i < |g.blocked| == |g.gone| && (!act.Private? ==> act.key in g.sems)
  {
    var g1 := match act
      case Private => g
      case WaitOn(key) =>
        g.(sems := g.sems[key := AfterWait(g.sems[key], i)],
           blocked := g.blocked[i := WaitResult(g.sems[key], i).Block?])
      case SignalOn(key) =>
        g.(sems := g.sems[key := AfterSignal(g.sems[key])], blocked := Unblocked(g, SignalResult(g.sems[key])));
    g1.(gone := g1.gone[i := leaves])
  }

  /** The kernel call of a statement; a private one changes the registers at will. */
  function CallOf(act: Act, registers: Context): Call {
    match act
    case Private => UserCode(registers)
    case WaitOn(key) => SemWait(key)
    case SignalOn(key) => SemSignal(key)
  }

  // ---------------------------------------------------------------------
  // What the kernel may do in between
  // ---------------------------------------------------------------------

  /** The semaphores a call changes. */
  predicate TouchesKey(call: Call, key: Key) {
    match call
    case SemNew(j, _) => j == key
    case SemRemove(j) => j == key
    case SemWait(j) => j == key
    case SemSignal(j) => j == key
    case _ => false
  }

  /** A timer interrupt, private code, or any call of a process that is no unfinished thread, kills
      none and leaves the program's semaphores alone. */
  ghost predicate Foreign(k: Kernel, h: Host, g: Group, call: Call) {
    || call.Timer? || call.UserCode?
    || (&& !IsLive(h, g, k.current)
        && (call.KillPid? ==> !IsLive(h, g, call.pid))
        && (forall key :: key in g.sems && TouchesKey(call, key) ==>
              k.current in k.procs && k.procs[k.current].data != h.data))
  }

  /** A process whose status says that it can run. */
  predicate Awake(k: Kernel, p: Pid) {
    p in k.procs && k.procs[p].status in {Ready, Running}
  }

  /** Only a call's victim loses its life by it. */
  lemma OthersLive(k: Kernel, call: Call, p: Pid)
    requires Inv(k) && Allowed(k, call) && p in k.procs && k.procs[p].exitCode.None?
    requires Victim(k, call).Some? ==> Victim(k, call).value.0 != p
    ensures p in Do(k, call).procs && Do(k, call).procs[p].exitCode.None?
    ensures Do(k, call).procs[p].data == k.procs[p].data
  {
    hide Placed;
    CallerFacts(k);
    match call
    case Timer => TimerLeaves(k, p);
    case VFork(offset) => ForkLeaves(k, offset, p);
    case Spawn(_) => CallerUnqueued(k);
    case Exit(ret) => KillLeaves(k, k.current, ret, p);
    case KillPid(high, v) => if v in k.procs && !IsKernelArgument(high, v) { KillLeaves(k, v, KILLED, p); }
    case WaitPid(q) => BlockLeaves(AddWaiter(k, q), p);
    case SemWait(key) => BlockLeaves(SetTable(k, TableWait(Table(k), key, k.current)), p);
    case _ =>
  }

  lemma TimerLeaves(k: Kernel, p: Pid)
    requires p in k.procs
    ensures var k' := Do(k, Timer);
            p in k'.procs && k'.procs[p].exitCode == k.procs[p].exitCode && k'.procs[p].data == k.procs[p].data
  {
    SwitchFacts(PushReady(Save(k), k.current));
  }

  lemma ForkLeaves(k: Kernel, offset: int, p: Pid)
    requires Inv(k) && p in k.procs
    ensures var k' := Do(k, VFork(offset));
            p in k'.procs && k'.procs[p].exitCode == k.procs[p].exitCode && k'.procs[p].data == k.procs[p].data
  {
    CallerUnqueued(k);
    hide Inv;
    SwitchFacts(PushReady(Fork(Save(k), offset), k.current));
  }

  lemma BlockLeaves(k: Kernel, p: Pid)
    requires p in k.procs
    ensures var k' := BlockCurrent(k);
            p in k'.procs && k'.procs[p].exitCode == k.procs[p].exitCode && k'.procs[p].data == k.procs[p].data
  {
    SwitchFacts(SetStatus(Save(k), k.current, Blocked));
  }

  lemma KillLeaves(k: Kernel, v: Pid, ret: int, p: Pid)
    requires Inv(k) && v in k.procs && p in k.procs && p != v
    ensures forall k' :: k' == Kill(k, v, ret) || k' == SwitchNext(Kill(k, v, ret)) ==>
              p in k'.procs && k'.procs[p].exitCode == k.procs[p].exitCode && k'.procs[p].data == k.procs[p].data
  {
    hide Placed;
    WaitersKnown(k, v);
    WokenOrNot(MarkDead(k, v, ret), Waiters(k, v), ret, p);
    SwitchFacts(Kill(k, v, ret));
  }

  /** Who can run and is neither the victim nor blocks itself can run afterwards. */
  lemma StaysAwake(k: Kernel, call: Call, p: Pid)
    requires Inv(k) && Allowed(k, call) && Awake(k, p)
    requires Victim(k, call).Some? ==> Victim(k, call).value.0 != p
    requires p == k.current ==> call.Timer? || call.UserCode?
    ensures Awake(Do(k, call), p)
  {
    hide Placed;
    CallerFacts(k);
    CallInv(k, call);
    CallerFacts(Do(k, call));
    OthersLive(k, call, p);
    if p == k.current {
      if call.Timer? {
        SwitchFacts(PushReady(Save(k), k.current));
      }
    } else {
      AwakeIsReady(k, p);
      var i := ReadyIsQueued(k, p);
      CallAdvances(k, call, p, i);
    }
  }

  lemma AwakeIsReady(k: Kernel, p: Pid)
    requires Inv(k) && Awake(k, p) && p != k.current
    ensures IsReady(k, p)
  {
    assert ProcOk(k, Some(k.current), [], p);
  }

  /** Of all the wait lists, a blocked thread is on that of its semaphore only. */
  lemma WaitsHere(k: Kernel, h: Host, g: Group, i: nat, p: Pid) returns (key: Key)
    requires Hosts(k, h, g) && IsThread(h, g, i, p) && g.blocked[i]
    ensures key in g.sems && i in g.sems[key].queue && h.data in k.sems && key in k.sems[h.data]
    ensures p in Line(k.waiters, k.sems, [], OnSem(h.data, key))
    ensures p in k.procs && p != k.current && k.procs[p].status == Blocked
    ensures forall l :: p in Line(k.waiters, k.sems, [], l) ==> l == OnSem(h.data, key)
  {
    hide Inv;
    assert ThreadAgrees(k, h, g, i);
    key :| key in g.sems && i in g.sems[key].queue;
    var q, r := g.sems[key].queue, k.sems[h.data][key].queue;
    var x :| 0 <= x < |q| && q[x] == i;
    assert r[x] == p;
    OnLineFacts(k, OnSem(h.data, key), p);
  }

  lemma BlockedStays(k: Kernel, h: Host, g: Group, call: Call, i: nat, p: Pid)
    requires Hosts(k, h, g) && Allowed(k, call) && Foreign(k, h, g, call)
    requires IsThread(h, g, i, p) && g.blocked[i] && p in k.procs
    ensures p in Do(k, call).procs && Do(k, call).procs[p] == k.procs[p]
  {
    var key := WaitsHere(k, h, g, i, p);
    CallerFacts(k);
    hide Inv;
    hide Do;
    if Victim(k, call).Some? {
      var v := Victim(k, call).value.0;
      assert Line(k.waiters, k.sems, [], OnJoin(v)) == Waiters(k, v);
    }
    if call.SemSignal? && QueueOf(k, call.key) != [] {
      assert Line(k.waiters, k.sems, [], OnSem(k.procs[k.current].data, call.key)) == QueueOf(k, call.key);
    }
    Untouched(k, call, p);
  }

  /** A call that does not touch a semaphore leaves it as it is. */
  lemma SemStays(k: Kernel, call: Call, d: nat, key: Key)
    requires d in k.sems && key in k.sems[d] && d != k.nextPid
    requires TouchesKey(call, key) ==> k.current in k.procs && k.procs[k.current].data != d
    ensures d in Do(k, call).sems && key in Do(k, call).sems[d] && Do(k, call).sems[d][key] == k.sems[d][key]
  {
    match call
    case Timer => SwitchFacts(PushReady(Save(k), k.current));
    case VFork(offset) => SwitchFacts(PushReady(Fork(Save(k), offset), k.current));
    case Exit(ret) => KillSems(k, k.current, ret);
    case KillPid(high, v) => KillSems(k, v, KILLED);
    case WaitPid(q) => SwitchFacts(SetStatus(Save(AddWaiter(k, q)), k.current, Blocked));
    case SemWait(j) =>
      SwitchFacts(SetStatus(Save(SetTable(k, TableWait(Table(k), j, k.current))), k.current, Blocked));
    case _ =>
  }

  lemma KillSems(k: Kernel, v: Pid, ret: int)
    ensures Kill(k, v, ret).sems == SwitchNext(Kill(k, v, ret)).sems == k.sems
  {
    if v in k.procs {
      WakeAllKeeps(MarkDead(k, v, ret), Waiters(k, v), ret);
    }
    SwitchFacts(Kill(k, v, ret));
  }

  lemma PidsGrow(k: Kernel, call: Call)
    ensures k.nextPid <= Do(k, call).nextPid
  {
    match call
    case Timer => SwitchFacts(PushReady(Save(k), k.current));
    case VFork(offset) => SwitchFacts(PushReady(Fork(Save(k), offset), k.current));
    case Exit(ret) => KillPids(k, k.current, ret);
    case KillPid(high, v) => KillPids(k, v, KILLED);
    case WaitPid(q) => SwitchFacts(SetStatus(Save(AddWaiter(k, q)), k.current, Blocked));
    case SemWait(j) =>
      SwitchFacts(SetStatus(Save(SetTable(k, TableWait(Table(k), j, k.current))), k.current, Blocked));
    case _ =>
  }

  lemma KillPids(k: Kernel, v: Pid, ret: int)
    ensures Kill(k, v, ret).nextPid == SwitchNext(Kill(k, v, ret)).nextPid == k.nextPid
  {
    if v in k.procs {
      WakeAllKeeps(MarkDead(k, v, ret), Waiters(k, v), ret);
    }
    SwitchFacts(Kill(k, v, ret));
  }

  /** No foreign call changes what the program sees. */
  lemma ForeignStep(k: Kernel, h: Host, g: Group, call: Call)
    requires Hosts(k, h, g) && Allowed(k, call) && Foreign(k, h, g, call)
    ensures Hosts(Do(k, call), h, g)
  {
    var k' := Do(k, call);
    CallInv(k, call);
    CallerFacts(k);
    hide Inv;
    hide Do;
    hide ThreadAgrees;
    forall key | key in g.sems
      ensures h.data in k'.sems && key in k'.sems[h.data] && SameSem(h, g.sems[key], k'.sems[h.data][key])
    {
      SemStays(k, call, h.data, key);
    }
    TableStays(k, call, h.data);
    forall i | 0 <= i < |h.pids| ensures ThreadAgrees(k', h, g, i) {
      ForeignThread(k, h, g, call, i);
    }
  }

  lemma TableStays(k: Kernel, call: Call, d: nat)
    requires d in k.sems
    ensures d in Do(k, call).sems
  {
    match call
    case Timer => SwitchFacts(PushReady(Save(k), k.current));
    case VFork(offset) => SwitchFacts(PushReady(Fork(Save(k), offset), k.current));
    case Exit(ret) => KillSems(k, k.current, ret);
    case KillPid(high, v) => KillSems(k, v, KILLED);
    case WaitPid(q) => SwitchFacts(SetStatus(Save(AddWaiter(k, q)), k.current, Blocked));
    case SemWait(j) =>
      SwitchFacts(SetStatus(Save(SetTable(k, TableWait(Table(k), j, k.current))), k.current, Blocked));
    case _ =>
  }

  lemma ForeignThread(k: Kernel, h: Host, g: Group, call: Call, i: nat)
    requires Hosts(k, h, g) && Allowed(k, call) && Foreign(k, h, g, call) && i < |h.pids|
    ensures ThreadAgrees(Do(k, call), h, g, i)
  {
    assert ThreadAgrees(k, h, g, i);
    PidsGrow(k, call);
    if h.pids[i].Some? && !g.gone[i] {
      var p := h.pids[i].value;
      assert IsThread(h, g, i, p);
      if g.blocked[i] {
        hide Do;
        BlockedStays(k, h, g, call, i, p);
      } else {
        CallerFacts(k);
        hide Inv;
        hide Do;
        assert IsLive(h, g, p);
        StaysAwake(k, call, p);
        OthersLive(k, call, p);
      }
    }
  }

  // ---------------------------------------------------------------------
  // A fork of a thread
  // ---------------------------------------------------------------------

  function WithThread(h: Host, i: nat, p: Pid): Host
    requires i < |h.pids|
  {
    h.(pids := h.pids[i := Some(p)])
  }

  lemma PidIsNew(k: Kernel, h: Host, g: Group, j: nat)
    requires Hosts(k, h, g) && j < |h.pids|
    ensures h.pids[j] != Some(k.nextPid) && (h.pids[j] == None ==> !g.blocked[j])
  {
    assert ThreadAgrees(k, h, g, j);
  }

  /** The other threads and the queues are the same with a thread more. */
  lemma OneThreadMore(k: Kernel, h: Host, g: Group, i: nat, p: Pid)
    requires Hosts(k, h, g) && i < |h.pids| && h.pids[i] == None && !g.blocked[i]
    requires p != KERNEL_PID && p < k.nextPid && Awake(k, p) && k.procs[p].data == h.data
    requires forall j :: 0 <= j < |h.pids| ==> h.pids[j] != Some(p)
    ensures Hosts(k, WithThread(h, i, p), g)
  {
    var h' := WithThread(h, i, p);
    hide Inv;
    forall j | 0 <= j < |h.pids| ensures ThreadAgrees(k, h', g, j) {
      assert ThreadAgrees(k, h, g, j);
    }
    forall key | key in g.sems ensures SameSem(h', g.sems[key], k.sems[h.data][key]) {
      assert SameSem(h, g.sems[key], k.sems[h.data][key]);
    }
  }

  /** A process that shares the table, and is no thread itself, forks thread i. */
  lemma ForkStep(k: Kernel, h: Host, g: Group, offset: int, i: nat)
    requires Hosts(k, h, g) && i < |h.pids| && h.pids[i] == None && !IsLive(h, g, k.current)
    requires k.current in k.procs && k.procs[k.current].data == h.data
    ensures Hosts(Do(k, VFork(offset)), WithThread(h, i, k.nextPid), g)
  {
    ForeignStep(k, h, g, VFork(offset));
    ChildIsAwake(k, offset);
    forall j | 0 <= j < |h.pids| ensures h.pids[j] != Some(k.nextPid) && (h.pids[j] == None ==> !g.blocked[j]) {
      PidIsNew(k, h, g, j);
    }
    hide Hosts;
    hide Do;
    OneThreadMore(Do(k, VFork(offset)), h, g, i, k.nextPid);
  }

  lemma ChildIsAwake(k: Kernel, offset: int)
    requires Inv(k)
    ensures var k' := Do(k, VFork(offset));
            && Awake(k', k.nextPid) && k.nextPid < k'.nextPid && k.nextPid != KERNEL_PID
            && k.current in k.procs && k'.procs[k.nextPid].data == k.procs[k.current].data
  {
    hide Inv;
    hide Line;
    hide SwitchNext;
    CallerFacts(k);
    CallerUnqueued(k);
    PidsAreAbove(k);
    SwitchFacts(PushReady(Fork(Save(k), offset), k.current));
  }

  lemma PidsAreAbove(k: Kernel)
    requires Inv(k)
    ensures k.nextPid > KERNEL_PID
  {
  }

  // ---------------------------------------------------------------------
  // A statement of a thread
  // ---------------------------------------------------------------------

  /** The thread that has the processor does its next statement. */
  ghost predicate CanAct(k: Kernel, h: Host, g: Group, i: nat, act: Act) {
    && Hosts(k, h, g) && IsThread(h, g, i, k.current)
    && (!act.Private? ==> act.key in g.sems)
  }

  /** Whoever has the processor is not blocked, is not pid 1, and finds its semaphores. */
  lemma ActorFacts(k: Kernel, h: Host, g: Group, i: nat, act: Act)
    requires CanAct(k, h, g, i, act)
    ensures Shaped(h, g) && i < |h.pids| && !g.blocked[i] && k.current != KERNEL_PID && Awake(k, k.current)
    ensures k.procs[k.current].data == h.data && h.data in k.sems && Table(k) == k.sems[h.data]
    ensures !act.Private? ==> act.key in Table(k) && SameSem(h, g.sems[act.key], Table(k)[act.key])
    ensures forall registers :: Allowed(k, CallOf(act, registers))
  {
    CallerFacts(k);
    assert ThreadAgrees(k, h, g, i);
  }

  lemma ActSems(k: Kernel, h: Host, g: Group, i: nat, act: Act, leaves: bool, registers: Context)
    requires CanAct(k, h, g, i, act) && i < |g.blocked| == |g.gone|
    ensures SemsAgree(Do(k, CallOf(act, registers)), h, GroupStep(g, i, act, leaves))
  {
    hide Inv;
    hide SameSem;
    hide Do;
    ActorFacts(k, h, g, i, act);
    match act
    case Private => SameAfterUserCode(k, registers);
    case WaitOn(key) =>
      AfterSemWait(k, key);
      SameAfterWait(h, g.sems[key], Table(k)[key], i, k.current);
    case SignalOn(key) =>
      AfterSemSignal(k, key);
      SameAfterSignal(h, g.sems[key], Table(k)[key]);
  }

  lemma SameAfterUserCode(k: Kernel, registers: Context)
    ensures Do(k, UserCode(registers)).sems == k.sems
  {
  }

  lemma SameAfterWait(h: Host, s: Sem, t: Sem, i: nat, p: Pid)
    requires SameSem(h, s, t) && i < |h.pids| && h.pids[i] == Some(p)
    ensures SameSem(h, AfterWait(s, i), AfterWait(t, p))
  {
  }

  lemma SameAfterSignal(h: Host, s: Sem, t: Sem)
    requires SameSem(h, s, t)
    ensures SameSem(h, AfterSignal(s), AfterSignal(t))
  {
  }

  lemma AfterSemWait(k: Kernel, key: Key)
    requires k.current in k.procs && k.procs[k.current].data in k.sems && key in Table(k)
    ensures Do(k, SemWait(key)).sems
         == k.sems[k.procs[k.current].data := Table(k)[key := AfterWait(Table(k)[key], k.current)]]
  {
    SwitchFacts(SetStatus(Save(SetTable(k, TableWait(Table(k), key, k.current))), k.current, Blocked));
  }

  lemma AfterSemSignal(k: Kernel, key: Key)
    requires k.current in k.procs && k.procs[k.current].data in k.sems && key in Table(k)
    ensures Do(k, SemSignal(key)).sems == k.sems[k.procs[k.current].data := Table(k)[key := AfterSignal(Table(k)[key])]]
  {
  }

  /** The thread itself after its statement. */
  lemma ActorAfter(k: Kernel, h: Host, g: Group, i: nat, act: Act, leaves: bool, registers: Context)
    requires CanAct(k, h, g, i, act) && i < |g.blocked| == |g.gone|
    ensures ThreadAgrees(Do(k, CallOf(act, registers)), h, GroupStep(g, i, act, leaves), i)
  {
    ActorFacts(k, h, g, i, act);
    assert ThreadAgrees(k, h, g, i);
    PidsGrow(k, CallOf(act, registers));
    match act
    case Private => hide Inv;
    case WaitOn(key) =>
      hide Inv;
      hide Do;
      ActorWaits(k, key);
      var g' := GroupStep(g, i, act, leaves);
      assert g.sems[key].count == 0 ==> i in g'.sems[key].queue;
    case SignalOn(key) =>
      ActorSignals(k, key);
      hide Inv;
      hide Do;
  }

  lemma ActorSignals(k: Kernel, key: Key)
    requires Inv(k) && key in Table(k)
    ensures k.current in k.procs
    ensures var k' := Do(k, SemSignal(key));
            k.current in k'.procs && k'.procs[k.current] == k.procs[k.current]
  {
    CallerFacts(k);
    if Table(k)[key].queue != [] {
      OnSemQueue(k, key);
    }
  }

  lemma OnSemQueue(k: Kernel, key: Key)
    requires Inv(k) && key in Table(k) && Table(k)[key].queue != []
    ensures var p := Table(k)[key].queue[0];
            p != k.current && p in k.procs && k.procs[p].status == Blocked
    ensures k.current in k.procs && k.procs[k.current].data in k.sems
  {
    CallerFacts(k);
    var loc := OnSem(k.procs[k.current].data, key);
    assert Table(k)[key].queue[0] in Line(k.waiters, k.sems, [], loc);
    OnLineFacts(k, loc, Table(k)[key].queue[0]);
  }

  lemma ActorWaits(k: Kernel, key: Key)
    requires Awake(k, k.current) && key in Table(k)
    ensures var k' := Do(k, SemWait(key));
            && k.current in k'.procs && k'.procs[k.current].data == k.procs[k.current].data
            && k'.procs[k.current].status
               == if Table(k)[key].count == 0 then Blocked else k.procs[k.current].status
  {
    SwitchFacts(SetStatus(Save(SetTable(k, TableWait(Table(k), key, k.current))), k.current, Blocked));
  }

  /** A blocked thread that is not woken stays in its queue, and as it is. */
  lemma SleeperAfter(k: Kernel, h: Host, g: Group, i: nat, act: Act, leaves: bool, registers: Context, j: nat, p: Pid)
    requires CanAct(k, h, g, i, act) && i < |g.blocked| == |g.gone|
    requires IsThread(h, g, j, p) && g.blocked[j] && p in k.procs
    requires act.SignalOn? && g.sems[act.key].queue != [] ==> g.sems[act.key].queue[0] != j
    ensures p in Do(k, CallOf(act, registers)).procs && Do(k, CallOf(act, registers)).procs[p] == k.procs[p]
    ensures QueuedSomewhere(GroupStep(g, i, act, leaves), j)
  {
    hide Do;
    ActorFacts(k, h, g, i, act);
    var key := WaitsHere(k, h, g, j, p);
    StillQueued(g, i, act, leaves, key, j);
    if act.SignalOn? {
      NotTheHead(k, h, g, act.key, i, j, p);
    }
    hide Hosts;
    hide CanAct;
    hide GroupStep;
    Untouched(k, CallOf(act, registers), p);
  }

  lemma StillQueued(g: Group, i: nat, act: Act, leaves: bool, key: Key, j: nat)
    requires i < |g.blocked| == |g.gone| && key in g.sems && j in g.sems[key].queue
    requires !act.Private? ==> act.key in g.sems
    requires act.SignalOn? && g.sems[act.key].queue != [] ==> g.sems[act.key].queue[0] != j
    ensures QueuedSomewhere(GroupStep(g, i, act, leaves), j)
  {
    var q, g' := g.sems[key].queue, GroupStep(g, i, act, leaves);
    assert q == [q[0]] + q[1..];
    assert j in g'.sems[key].queue;
  }

  /** Who is not first in the program's queue is not first in the kernel's. */
  lemma NotTheHead(k: Kernel, h: Host, g: Group, key: Key, i: nat, j: nat, p: Pid)
    requires CanAct(k, h, g, i, SignalOn(key)) && IsThread(h, g, j, p)
    requires g.sems[key].queue != [] ==> g.sems[key].queue[0] != j
    ensures QueueOf(k, key) != [] ==> QueueOf(k, key)[0] != p
  {
    ActorFacts(k, h, g, i, SignalOn(key));
    hide Inv;
    if QueueOf(k, key) != [] {
      var q := g.sems[key].queue;
      assert h.pids[q[0]] == Some(QueueOf(k, key)[0]);
    }
  }

  /** A thread that is woken. */
  lemma SleeperWoken(k: Kernel, h: Host, g: Group, key: Key, i: nat, j: nat)
    requires CanAct(k, h, g, i, SignalOn(key)) && g.sems[key].queue != [] && g.sems[key].queue[0] == j
    ensures j < |h.pids| && h.pids[j].Some?
    ensures var k', p := Do(k, SemSignal(key)), h.pids[j].value;
            Awake(k', p) && p in k.procs && k'.procs[p].data == k.procs[p].data
  {
    ActorFacts(k, h, g, i, SignalOn(key));
    assert h.pids[g.sems[key].queue[0]] == Some(Table(k)[key].queue[0]);
    OnSemQueue(k, key);
  }

  lemma OtherAfter(k: Kernel, h: Host, g: Group, i: nat, act: Act, leaves: bool, registers: Context, j: nat)
    requires CanAct(k, h, g, i, act) && i < |g.blocked| == |g.gone| && j < |h.pids| && i != j
    ensures ThreadAgrees(Do(k, CallOf(act, registers)), h, GroupStep(g, i, act, leaves), j)
  {
    ActorFacts(k, h, g, i, act);
    assert ThreadAgrees(k, h, g, j);
    PidsGrow(k, CallOf(act, registers));
    CallerFacts(k);
    hide Inv;
    hide Do;
    if h.pids[j].Some? && !g.gone[j] {
      var p := h.pids[j].value;
      assert p != k.current;
      if g.blocked[j] {
        if act.SignalOn? && g.sems[act.key].queue != [] && g.sems[act.key].queue[0] == j {
          SleeperWoken(k, h, g, act.key, i, j);
        } else {
          SleeperAfter(k, h, g, i, act, leaves, registers, j, p);
        }
      } else {
        StaysAwake(k, CallOf(act, registers), p);
        OthersLive(k, CallOf(act, registers), p);
      }
    }
  }

  /** The statement of the thread that has the processor does to the program what it says, and the
      kernel allows it. */
  lemma StatementStep(k: Kernel, h: Host, g: Group, i: nat, act: Act, leaves: bool, registers: Context)
    requires CanAct(k, h, g, i, act)
    ensures i < |g.blocked| == |g.gone| && !g.blocked[i] && Allowed(k, CallOf(act, registers))
    ensures Hosts(Do(k, CallOf(act, registers)), h, GroupStep(g, i, act, leaves))
  {
    ActorFacts(k, h, g, i, act);
    CallInv(k, CallOf(act, registers));
    ActSems(k, h, g, i, act, leaves, registers);
    hide Inv;
    hide Do;
    hide SemsAgree;
    hide ThreadAgrees;
    forall j | 0 <= j < |h.pids|
      ensures ThreadAgrees(Do(k, CallOf(act, registers)), h, GroupStep(g, i, act, leaves), j)
    {
      if j == i {
        ActorAfter(k, h, g, i, act, leaves, registers);
      } else {
        OtherAfter(k, h, g, i, act, leaves, registers, j);
      }
    }
  }

  // ---------------------------------------------------------------------
  // Programs
  // ---------------------------------------------------------------------

  /** A program: what the kernel sees of a state, what the next statement of a thread asks of the
      kernel, and the state after it. */
  datatype Code<!P> = Code(view: P -> Group, act: (P, nat) -> Act, step: (P, nat) -> P)

  /** The thread is there, has not finished, and is not blocked. */
  predicate CanRun<P>(c: Code<P>, p: P, i: nat) {
    var g := c.view(p);
    i < |g.gone| == |g.blocked| && !g.gone[i] && !g.blocked[i]
  }

  /** Each statement does to the semaphores what it asks for, from every state that is `good`. */
  ghost predicate Implements<P(!new)>(c: Code<P>, good: P -> bool) {
    forall p, i: nat :: good(p) && CanRun(c, p, i) ==>
      && good(c.step(p, i))
      && (!c.act(p, i).Private? ==> c.act(p, i).key in c.view(p).sems)
      && var g' := c.view(c.step(p, i));
         i < |g'.gone| && g' == GroupStep(c.view(p), i, c.act(p, i), g'.gone[i])
  }

  ghost predicate IsInterleaving<P>(c: Code<P>, p: P, who: seq<nat>)
    decreases |who|
  {
    who != [] ==> CanRun(c, p, who[0]) && IsInterleaving(c, c.step(p, who[0]), who[1..])
  }

  function Interleave<P>(c: Code<P>, p: P, who: seq<nat>): P
    decreases |who|
  {
    if who == [] then p else Interleave(c, c.step(p, who[0]), who[1..])
  }

  /** The kernel with a program on it. */
  datatype System<P> = System(kernel: Kernel, host: Host, program: P)

  datatype Move =
    | Outside(call: Call)
    | Birth(thread: nat, offset: int)
    | Statement(registers: Context)

  ghost predicate Enabled<P>(c: Code<P>, s: System<P>, m: Move) {
    var k, h, g := s.kernel, s.host, c.view(s.program);
    match m
    case Outside(call) => Allowed(k, call) && Foreign(k, h, g, call)
    case Birth(i, _) =>
      && i < |h.pids| && h.pids[i] == None && !IsLive(h, g, k.current)
      && k.current in k.procs && k.procs[k.current].data == h.data
    case Statement(_) => IsLive(h, g, k.current)
  }

  ghost function ThreadOf(h: Host, g: Group, p: Pid): (i: nat)
    requires IsLive(h, g, p)
    ensures IsThread(h, g, i, p)
  {
    var i: nat :| IsThread(h, g, i, p);
    i
  }

  ghost function Next<P>(c: Code<P>, s: System<P>, m: Move): System<P>
    requires Enabled(c, s, m)
  {
    match m
    case Outside(call) => s.(kernel := Do(s.kernel, call))
    case Birth(i, offset) =>
      s.(kernel := Do(s.kernel, VFork(offset)), host := WithThread(s.host, i, s.kernel.nextPid))
    case Statement(registers) =>
      var i := ThreadOf(s.host, c.view(s.program), s.kernel.current);
      s.(kernel := Do(s.kernel, CallOf(c.act(s.program, i), registers)), program := c.step(s.program, i))
  }

  ghost predicate AllEnabled<P>(c: Code<P>, s: System<P>, moves: seq<Move>)
    decreases |moves|
  {
    moves != [] ==> Enabled(c, s, moves[0]) && AllEnabled(c, Next(c, s, moves[0]), moves[1..])
  }

  ghost function Finish<P>(c: Code<P>, s: System<P>, moves: seq<Move>): System<P>
    requires AllEnabled(c, s, moves)
    decreases |moves|
  {
    if moves == [] then s else Finish(c, Next(c, s, moves[0]), moves[1..])
  }

  /** The threads whose statements these moves are. */
  ghost function Schedule<P>(c: Code<P>, s: System<P>, moves: seq<Move>): seq<nat>
    requires AllEnabled(c, s, moves)
    decreases |moves|
  {
    if moves == [] then []
    else
      (if moves[0].Statement? then [ThreadOf(s.host, c.view(s.program), s.kernel.current)] else [])
      + Schedule(c, Next(c, s, moves[0]), moves[1..])
  }

  ghost predicate Sound<P>(c: Code<P>, s: System<P>) {
    Hosts(s.kernel, s.host, c.view(s.program))
  }

  lemma MoveKeepsSound<P(!new)>(c: Code<P>, good: P -> bool, s: System<P>, m: Move)
    requires Implements(c, good) && good(s.program) && Sound(c, s) && Enabled(c, s, m)
    ensures Sound(c, Next(c, s, m)) && good(Next(c, s, m).program)
    ensures m.Statement? ==> CanRun(c, s.program, ThreadOf(s.host, c.view(s.program), s.kernel.current))
  {
    var g := c.view(s.program);
    hide Hosts;
    hide Do;
    match m
    case Outside(call) => ForeignStep(s.kernel, s.host, g, call);
    case Birth(i, offset) => ForkStep(s.kernel, s.host, g, offset, i);
    case Statement(registers) =>
      var i := ThreadOf(s.host, g, s.kernel.current);
      ActorRuns(s.kernel, s.host, g, i);
      var g' := c.view(c.step(s.program, i));
      assert CanRun(c, s.program, i);
      StatementStep(s.kernel, s.host, g, i, c.act(s.program, i), g'.gone[i], registers);
  }

  lemma ActorRuns(k: Kernel, h: Host, g: Group, i: nat)
    requires Hosts(k, h, g) && IsThread(h, g, i, k.current)
    ensures i < |g.gone| == |g.blocked| && !g.gone[i] && !g.blocked[i]
  {
    ActorFacts(k, h, g, i, Private);
  }

  /** Whatever the scheduler does, a run of the kernel with a program on it is an interleaving of the
      program's statements. */
  lemma {:induction false} RunIsInterleaving<P(!new)>(c: Code<P>, good: P -> bool, s: System<P>, moves: seq<Move>)
    requires Implements(c, good) && good(s.program) && Sound(c, s) && AllEnabled(c, s, moves)
    ensures Sound(c, Finish(c, s, moves))
    ensures var who := Schedule(c, s, moves);
            IsInterleaving(c, s.program, who) && Interleave(c, s.program, who) == Finish(c, s, moves).program
    decreases |moves|
  {
    hide Implements;
    hide Sound;
    hide Enabled;
    if moves != [] {
      var s1 := Next(c, s, moves[0]);
      MoveKeepsSound(c, good, s, moves[0]);
      RunIsInterleaving(c, good, s1, moves[1..]);
      var rest := Schedule(c, s1, moves[1..]);
      if moves[0].Statement? {
        var i := ThreadOf(s.host, c.view(s.program), s.kernel.current);
        assert ([i] + rest)[1..] == rest;
      } else {
        assert [] + rest == rest;
      }
    }
  }

  /** Thread i has not finished and is not blocked; it is yet to be forked, or has the processor, or
      is Ready at a place of the queue. */
  predicate GoesOn<P>(c: Code<P>, s: System<P>, i: nat, at: nat) {
    CanRun(c, s.program, i) && i < |s.host.pids| &&
    match s.host.pids[i]
    case None => true
    case Some(p) => p == s.kernel.current || QueuedAt(s.kernel, p, at)
  }

  lemma CanRunGoesOn<P>(c: Code<P>, s: System<P>, i: nat) returns (at: nat)
    requires Sound(c, s) && CanRun(c, s.program, i)
    ensures GoesOn(c, s, i, at)
  {
    var k := s.kernel;
    assert ThreadAgrees(k, s.host, c.view(s.program), i);
    at := 0;
    if s.host.pids[i].Some? && s.host.pids[i].value != k.current {
      AwakeIsReady(k, s.host.pids[i].value);
      at := ReadyIsQueued(k, s.host.pids[i].value);
    }
  }

  /** Before its first fork a program is on the kernel as soon as its semaphores are there. */
  lemma NobodyYet(k: Kernel, g: Group, d: nat)
    requires Inv(k) && |g.blocked| == |g.gone| && (forall i :: 0 <= i < |g.blocked| ==> !g.blocked[i])
    requires d in k.sems && forall key :: key in g.sems ==> key in k.sems[d] && k.sems[d][key] == g.sems[key]
    requires forall key :: key in g.sems ==> g.sems[key].queue == []
    ensures Hosts(k, Host(seq(|g.gone|, _ => None), d), g)
  {
  }
}
