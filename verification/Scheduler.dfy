/** The process manager and the kernel calls that drive it, as functions on values. Every call
    runs with interrupts off, so each is one step of the machine. */
module Scheduler {
  import opened Common
  import opened Semaphores

  const KERNEL_PID: Pid := 1
  const KILLED := 0xdead

  datatype Status = Running | Ready | Blocked | Dead

  /** The saved registers: `rax` carries results, the others are opaque words. */
  datatype Context = Context(rax: int, stackPointer: int, rest: seq<int>)

  /** `data` names the semaphore table shared by a process and those it forked. */
  datatype Proc = Proc(status: Status, context: Context, exitCode: Option<int>, ticks: nat, data: nat)

  /** `waiters[q]` holds the processes joined on q, ascending; `cpu` the registers of `current`. */
  datatype Kernel = Kernel(
    procs: map<Pid, Proc>, ready: seq<Pid>, waiters: map<Pid, seq<Pid>>, sems: map<nat, SemTable>,
    current: Pid, nextPid: Pid, cpu: Context)

  /** The two's complement word of a signed 64-bit value. */
  function Word(x: int): int {
    x % 0x1_0000_0000_0000_0000
  }

  // ---------------------------------------------------------------------
  // Process manager operations
  // ---------------------------------------------------------------------

  function SetProc(k: Kernel, p: Pid, x: Proc): Kernel {
    k.(procs := k.procs[p := x])
  }

  /** Save the registers of the current process, count a tick, mark it Ready. */
  function Save(k: Kernel): Kernel {
    if k.current in k.procs then
      var c := k.procs[k.current];
      SetProc(k, k.current, c.(context := k.cpu, ticks := c.ticks + 1, status := Ready))
    else k
  }

  function PushReady(k: Kernel, p: Pid): Kernel {
    k.(ready := k.ready + [p])
  }

  function SetStatus(k: Kernel, p: Pid, status: Status): Kernel {
    if p in k.procs then SetProc(k, p, k.procs[p].(status := status)) else k
  }

  predicate IsReady(k: Kernel, p: Pid) {
    p in k.procs && k.procs[p].status == Ready
  }

  /** Pop the ready queue up to its first Ready process and restore that one, unless it is
      the current process, which keeps the registers it has. */
  function SwitchNext(k: Kernel): Kernel
    decreases |k.ready|
  {
    if k.ready == [] then k
    else
      var next, rest := k.ready[0], k.(ready := k.ready[1..]);
      if !IsReady(k, next) then SwitchNext(rest)
      else if next == k.current then rest
      else SetStatus(rest, next, Running).(current := next, cpu := k.procs[next].context)
  }

  function WakeProc(k: Kernel, p: Pid, ret: Option<int>): Kernel {
    if p in k.procs then
      var x := k.procs[p];
      var context := if ret.Some? then x.context.(rax := Word(ret.value)) else x.context;
      PushReady(SetProc(k, p, x.(context := context, status := Ready)), p)
    else k
  }

  function WakeAll(k: Kernel, ps: seq<Pid>, ret: int): Kernel
    decreases |ps|
  {
    if ps == [] then k else WakeAll(WakeProc(k, ps[0], Some(ret)), ps[1..], ret)
  }

  function Waiters(k: Kernel, p: Pid): seq<Pid> {
    if p in k.waiters then k.waiters[p] else []
  }

  function MarkDead(k: Kernel, p: Pid, ret: int): Kernel
    requires p in k.procs
  {
    SetProc(k, p, k.procs[p].(exitCode := Some(ret), status := Dead)).(waiters := k.waiters - {p})
  }

  function Kill(k: Kernel, p: Pid, ret: int): Kernel {
    if p in k.procs then WakeAll(MarkDead(k, p, ret), Waiters(k, p), ret) else k
  }

  /** Insertion into an ascending list without duplicates. */
  function Insert(s: seq<Pid>, p: Pid): seq<Pid> {
    if s == [] then [p]
    else if p < s[0] then [p] + s
    else if p == s[0] then s
    else [s[0]] + Insert(s[1..], p)
  }

  function AddWaiter(k: Kernel, p: Pid): Kernel {
    k.(waiters := k.waiters[p := Insert(Waiters(k, p), k.current)])
  }

  /** A new process, at the end of the ready queue. */
  function AddProc(k: Kernel, x: Proc): Kernel {
    PushReady(SetProc(k, k.nextPid, x), k.nextPid).(nextPid := k.nextPid + 1)
  }

  // ---------------------------------------------------------------------
  // Kernel calls
  // ---------------------------------------------------------------------

  /** The argument of a kill is the pid in its lower 16 bits and what is above them. */
  datatype Call =
    | Timer
    | Exit(ret: int)
    | WaitPid(pid: Pid)
    | KillPid(high: nat, pid: Pid)
    | VFork(stackOffset: int)
    | Spawn(start: Context)
    | SemNew(key: Key, value: nat)
    | SemRemove(key: Key)
    | SemWait(key: Key)
    | SemSignal(key: Key)
    | UserCode(registers: Context)

  function Return(k: Kernel, value: int): Kernel {
    k.(cpu := k.cpu.(rax := value))
  }

  function BlockCurrent(k: Kernel): Kernel {
    SwitchNext(SetStatus(Save(k), k.current, Blocked))
  }

  function ExitCode(k: Kernel, p: Pid): Option<int> {
    if p in k.procs then k.procs[p].exitCode else None
  }

  /** The child continues from the parent's registers with result 0, on its own stack. */
  function ChildOf(parent: Proc, stackOffset: int): Proc {
    var c := parent.context;
    Proc(Ready, c.(rax := 0, stackPointer := c.stackPointer + stackOffset), None, 0, parent.data)
  }

  /** The parent's saved registers get the child's pid. */
  function ParentOf(parent: Proc, child: Pid): Proc {
    parent.(context := parent.context.(rax := child), status := Ready)
  }

  /** The child is queued before the parent. */
  function Fork(k: Kernel, stackOffset: int): Kernel {
    if k.current in k.procs then
      var parent := k.procs[k.current];
      AddProc(SetProc(k, k.current, ParentOf(parent, k.nextPid)), ChildOf(parent, stackOffset))
    else k
  }

  function Table(k: Kernel): SemTable {
    if k.current in k.procs && k.procs[k.current].data in k.sems then k.sems[k.procs[k.current].data] else map[]
  }

  function SetTable(k: Kernel, t: SemTable): Kernel {
    if k.current in k.procs then k.(sems := k.sems[k.procs[k.current].data := t]) else k
  }

  /** The whole argument of a kill is the number of pid 1; only then is the kill refused. */
  predicate IsKernelArgument(high: nat, p: Pid) {
    high == 0 && p == KERNEL_PID
  }

  function Do(k: Kernel, call: Call): Kernel {
    match call
    case Timer => SwitchNext(PushReady(Save(k), k.current))
    case Exit(ret) => SwitchNext(Kill(k, k.current, ret))
    case WaitPid(p) =>
      (match ExitCode(k, p)
       case Some(ret) => Return(k, Word(ret))
       case None => BlockCurrent(AddWaiter(k, p)))
    case KillPid(high, p) =>
      if IsKernelArgument(high, p) then k
      else if p == k.current then SwitchNext(Kill(k, p, KILLED))
      else Kill(k, p, KILLED)
    case VFork(stackOffset) => SwitchNext(PushReady(Fork(Save(k), stackOffset), k.current))
    case Spawn(start) =>
      Return(AddProc(k, Proc(Ready, start, None, 0, k.nextPid)).(sems := k.sems[k.nextPid := map[]]), k.nextPid)
    case SemNew(key, value) =>
      Return(SetTable(k, Table(k)[key := Sem(value, [])]), if key in Table(k) then 1 else 0)
    case SemRemove(key) =>
      Return(SetTable(k, Table(k) - {key}), if key in Table(k) then 0 else 1)
    case SemWait(key) =>
      var k' := SetTable(k, TableWait(Table(k), key, k.current));
      (match TableWaitResult(Table(k), key, k.current)
       case Granted => Return(k', 0)
       case Block(_) => BlockCurrent(k')
       case _ => Return(k, 1))
    case SemSignal(key) =>
      var k' := SetTable(k, TableSignal(Table(k), key));
      (match TableSignalResult(Table(k), key)
       case Granted => Return(k', 0)
       case WakeUp(p) => WakeProc(k', p, None)
       case _ => Return(k, 1))
    case UserCode(registers) => k.(cpu := registers)
  }

  /** The state after a list of calls. */
  function After(k: Kernel, calls: seq<Call>): Kernel
    decreases |calls|
  {
    if calls == [] then k else After(Do(k, calls[0]), calls[1..])
  }

  /** The kernel when interrupts are enabled: pid 1 runs. */
  function Boot(cpu: Context): Kernel {
    Kernel(map[KERNEL_PID := Proc(Running, Context(0, 0x2000, []), None, 0, 0)], [], map[], map[0 := map[]],
           KERNEL_PID, 2, cpu)
  }
}
