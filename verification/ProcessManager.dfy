/** The process table, its queues and the kernel calls as objects updated in place, each
    proved against its function in Scheduler. */
module ProcessManager {
  import opened Common
  import opened Semaphores
  import opened Scheduler
  import opened SchedulerInvariant

  /** One round of the search for the next process. */
  lemma SwitchStep(k: Kernel)
    ensures k.ready == [] ==> SwitchNext(k) == k
    ensures k.ready != [] && !IsReady(k, k.ready[0]) ==> SwitchNext(k) == SwitchNext(k.(ready := k.ready[1..]))
    ensures k.ready != [] && IsReady(k, k.ready[0]) && k.ready[0] == k.current ==>
              SwitchNext(k) == k.(ready := k.ready[1..])
    ensures k.ready != [] && IsReady(k, k.ready[0]) && k.ready[0] != k.current ==>
              SwitchNext(k) == SetStatus(k, k.ready[0], Running).(
                                 ready := k.ready[1..], current := k.ready[0], cpu := k.procs[k.ready[0]].context)
  {
  }

  class Process {
    const pid: Pid
    var status: Status
    var context: Context
    var exitCode: Option<int>
    var ticks: nat
    var data: nat

    ghost function Model(): Proc
      reads this
    {
      Proc(status, context, exitCode, ticks, data)
    }

    constructor (pid: Pid, context: Context, data: nat)
      ensures this.pid == pid && Model() == Proc(Ready, context, None, 0, data)
    {
      this.pid := pid;
      status := Ready;
      this.context := context;
      exitCode := None;
      ticks := 0;
      this.data := data;
    }

    method Tick()
      modifies this`ticks
      ensures ticks == old(ticks) + 1
    {
      ticks := ticks + 1;
    }

    method Pause()
      modifies this`status
      ensures status == Ready
    {
      status := Ready;
    }

    method Block()
      modifies this`status
      ensures status == Blocked
    {
      status := Blocked;
    }

    method SetReturn(ret: int)
      modifies this`context
      ensures context == old(context).(rax := ret)
    {
      context := context.(rax := ret);
    }

    /** Save the registers and mark the process Ready. */
    method Save(cpu: Context)
      modifies this`context, this`status
      ensures context == cpu && status == Ready
    {
      context := cpu;
      status := Ready;
    }

    /** Hand out the registers and mark the process Running. */
    method Restore() returns (cpu: Context)
      modifies this`status
      ensures cpu == context && status == Running
    {
      cpu := context;
      status := Running;
    }

    method Kill(ret: int)
      modifies this`exitCode, this`status
      ensures exitCode == Some(ret) && status == Dead
    {
      exitCode := Some(ret);
      status := Dead;
    }

    /** The child of a fork; this process gets the child's pid as its result. */
    method VFork(child: Pid, stackOffset: int) returns (p: Process)
      modifies this`context, this`status
      ensures fresh(p) && p.pid == child && p.Model() == ChildOf(old(Model()), stackOffset)
      ensures Model() == ParentOf(old(Model()), child)
    {
      var c := context.(rax := 0, stackPointer := context.stackPointer + stackOffset);
      p := new Process(child, c, data);
      context := context.(rax := child);
      status := Ready;
    }
  }

  class ProcessManager {
    var processes: map<Pid, Process>
    var readyQueue: seq<Pid>
    var waitQueue: map<Pid, seq<Pid>>
    /** The semaphore tables, shared by a process and those it forked. */
    const semaphores: SemDirectory
    var current: Pid
    var nextPid: Pid

    ghost function Procs(): map<Pid, Proc>
      reads this`processes, processes.Values
    {
      map p | p in processes :: processes[p].Model()
    }

    /** The state without the semaphores, completed by the registers and some tables. */
    ghost function With(cpu: Context, tables: map<nat, SemTable>): Kernel
      reads this, processes.Values
    {
      Kernel(Procs(), readyQueue, waitQueue, tables, current, nextPid, cpu)
    }

    /** The whole state, with the registers the processor holds. */
    ghost function Model(cpu: Context): Kernel
      reads this, processes.Values, semaphores, semaphores.tables.Values, semaphores.Sems()
    {
      With(cpu, semaphores.Model())
    }

    /** The table holds each process under its own pid. */
    ghost predicate Listed()
      reads this`processes, processes.Values
    {
      forall p :: p in processes ==> processes[p].pid == p
    }

    ghost predicate Valid()
      reads this`processes, processes.Values, semaphores, semaphores.tables.Values
    {
      Listed() && semaphores.Valid()
    }

    /** What the code expects to find: the current process and every queued process. */
    ghost predicate Known()
      reads this, processes.Values
    {
      current in processes && forall i :: 0 <= i < |readyQueue| ==> readyQueue[i] in processes
    }

    /** The manager as it is when interrupts are enabled. */
    constructor (init: Process)
      requires init.pid == KERNEL_PID && init.Model() == Proc(Running, Context(0, 0x2000, []), None, 0, 0)
      ensures Valid() && Known()
      ensures forall cpu :: Model(cpu) == Boot(cpu)
    {
      processes := map[KERNEL_PID := init];
      readyQueue := [];
      waitQueue := map[];
      semaphores := new SemDirectory();
      current := KERNEL_PID;
      nextPid := 2;
    }

    // -------------------------------------------------------------------
    // Manager operations
    // -------------------------------------------------------------------

    method PushReady(p: Pid)
      modifies this`readyQueue
      ensures readyQueue == old(readyQueue) + [p]
    {
      readyQueue := readyQueue + [p];
    }

    method SaveCurrent(cpu: Context, ghost t: Tables)
      requires Listed() && current in processes
      modifies processes.Values
      ensures Listed() && With(cpu, t) == Save(old(With(cpu, t)))
    {
      var cur := processes[current];
      cur.Tick();
      cur.Save(cpu);
    }

    method BlockProc(p: Pid)
      requires Listed()
      modifies processes.Values
      ensures Listed() && Procs() == if p in old(Procs()) then old(Procs())[p := old(Procs())[p].(status := Blocked)]
                                    else old(Procs())
    {
      if p in processes {
        processes[p].Block();
      }
    }

    method SwitchNextProc(cpu: Context, ghost t: Tables) returns (cpu': Context)
      requires Listed() && Known()
      modifies this`readyQueue, this`current, processes.Values
      ensures Listed() && With(cpu', t) == SwitchNext(old(With(cpu, t)))
    {
      hide SwitchNext;
      ghost var k := With(cpu, t);
      cpu' := cpu;
      SwitchStep(With(cpu, t));
      while readyQueue != []
        invariant Listed() && Known() && With(cpu, t) == k.(ready := readyQueue) && cpu' == cpu
        invariant SwitchNext(With(cpu, t)) == SwitchNext(k)
        decreases |readyQueue|
      {
        SwitchStep(With(cpu, t));
        var next := readyQueue[0];
        readyQueue := readyQueue[1..];
        if processes[next].status == Ready {
          if current != next {
            cpu' := Resume(next, cpu, t);
          }
          return;
        }
      }
      SwitchStep(With(cpu, t));
    }

    method Resume(next: Pid, ghost cpu: Context, ghost t: Tables) returns (cpu': Context)
      requires Listed() && next in processes
      modifies this`current, processes[next]
      ensures Listed() && With(cpu', t) == SetStatus(old(With(cpu, t)), next, Running).(current := next, cpu := cpu')
      ensures cpu' == old(Procs())[next].context
    {
      cpu' := processes[next].Restore();
      current := next;
    }

    method WakeUpProc(p: Pid, ret: Option<int>, ghost cpu: Context, ghost t: Tables)
      requires Listed()
      modifies this`readyQueue, processes.Values
      ensures Listed() && With(cpu, t) == WakeProc(old(With(cpu, t)), p, ret)
      ensures old(Known()) ==> Known()
    {
      if p in processes {
        if ret.Some? {
          processes[p].SetReturn(Word(ret.value));
        }
        processes[p].Pause();
        PushReady(p);
      }
    }

    method AddWaiting(p: Pid)
      modifies this`waitQueue
      ensures waitQueue == old(waitQueue)[p := Insert(if p in old(waitQueue) then old(waitQueue)[p] else [], current)]
    {
      var entry := if p in waitQueue then waitQueue[p] else [];
      waitQueue := waitQueue[p := Insert(entry, current)];
    }

    method KillProc(p: Pid, ret: int, ghost cpu: Context, ghost t: Tables)
      requires Listed()
      modifies this`readyQueue, this`waitQueue, processes.Values
      ensures Listed() && With(cpu, t) == Kill(old(With(cpu, t)), p, ret)
      ensures old(Known()) ==> Known()
    {
      if p in processes {
        ghost var k := With(cpu, t);
        var waiters := Bury(p, ret, cpu, t);
        var i := 0;
        while i < |waiters|
          invariant 0 <= i <= |waiters| && Listed()
          invariant WakeAll(With(cpu, t), waiters[i..], ret) == Kill(k, p, ret)
          invariant old(Known()) ==> Known()
        {
          WakeUpProc(waiters[i], Some(ret), cpu, t);
          i := i + 1;
        }
      }
    }

    /** The victim is marked dead and its waiters are detached. */
    method Bury(p: Pid, ret: int, ghost cpu: Context, ghost t: Tables) returns (waiters: seq<Pid>)
      requires Listed() && p in processes
      modifies this`waitQueue, processes[p]
      ensures Listed() && With(cpu, t) == MarkDead(old(With(cpu, t)), p, ret)
      ensures waiters == Waiters(old(With(cpu, t)), p)
    {
      ghost var before := Procs();
      processes[p].Kill(ret);
      assert Procs() == before[p := processes[p].Model()];
      waiters := if p in waitQueue then waitQueue[p] else [];
      waitQueue := waitQueue - {p};
    }

    method AddProcess(p: Process)
      requires Listed() && p.pid == nextPid
      modifies this`processes, this`readyQueue, this`nextPid
      ensures Listed() && processes == old(processes)[p.pid := p]
      ensures readyQueue == old(readyQueue) + [p.pid] && nextPid == old(nextPid) + 1
    {
      processes := processes[p.pid := p];
      nextPid := nextPid + 1;
      PushReady(p.pid);
    }

    method SpawnProc(start: Context, ghost cpu: Context) returns (pid: Pid)
      requires Valid()
      modifies this, semaphores
      ensures Valid() && pid == old(nextPid)
      ensures Model(cpu) == AddProc(old(Model(cpu)), Proc(Ready, start, None, 0, pid)).(
                              sems := old(semaphores.Model())[pid := EMPTY_TABLE])
    {
      hide SemDirectory.Model;
      hide SemDirectory.Valid;
      pid := nextPid;
      semaphores.Add(pid);
      ghost var sems := semaphores.Sems();
      label Added:
      AddNew(start, cpu, semaphores.Model());
      assert unchanged@Added(sems);
    }

    method AddNew(start: Context, ghost cpu: Context, ghost t: Tables)
      requires Listed()
      modifies this`processes, this`readyQueue, this`nextPid
      ensures Listed() && With(cpu, t) == AddProc(old(With(cpu, t)), Proc(Ready, start, None, 0, old(nextPid)))
    {
      var p := new Process(nextPid, start, nextPid);
      AddProcess(p);
    }

    method VForkProc(stackOffset: int, ghost cpu: Context, ghost t: Tables)
      requires Listed() && current in processes && nextPid !in processes
      modifies this`processes, this`readyQueue, this`nextPid, processes.Values
      ensures Listed() && With(cpu, t) == Fork(old(With(cpu, t)), stackOffset)
      ensures old(Known()) ==> Known()
      ensures fresh(processes.Values - old(processes.Values))
    {
      hide ChildOf;
      hide ParentOf;
      ghost var k := With(cpu, t);
      var child := processes[current].VFork(nextPid, stackOffset);
      assert Procs() == k.procs[current := ParentOf(k.procs[current], nextPid)];
      AddProcess(child);
    }
  }

  // ---------------------------------------------------------------------
  // Kernel calls
  // ---------------------------------------------------------------------

  method Switch(m: ProcessManager, cpu: Context, ghost t: Tables) returns (cpu': Context)
    requires m.Listed() && m.Known()
    modifies m`processes, m`readyQueue, m`waitQueue, m`current, m`nextPid, m.processes.Values
    ensures m.Listed() && m.With(cpu', t) == Do(old(m.With(cpu, t)), Timer)
  {
    ghost var k := m.With(cpu, t);
    m.SaveCurrent(cpu, t);
    m.PushReady(m.current);
    assert m.With(cpu, t) == PushReady(Save(k), k.current);
    cpu' := m.SwitchNextProc(cpu, t);
  }

  method ProcessExit(m: ProcessManager, ret: int, cpu: Context, ghost t: Tables) returns (cpu': Context)
    requires m.Listed() && m.Known()
    modifies m`processes, m`readyQueue, m`waitQueue, m`current, m`nextPid, m.processes.Values
    ensures m.Listed() && m.With(cpu', t) == Do(old(m.With(cpu, t)), Exit(ret))
  {
    m.KillProc(m.current, ret, cpu, t);
    cpu' := m.SwitchNextProc(cpu, t);
  }

  method WaitForPid(m: ProcessManager, pid: Pid, cpu: Context, ghost t: Tables) returns (cpu': Context)
    requires m.Listed() && m.Known()
    modifies m`processes, m`readyQueue, m`waitQueue, m`current, m`nextPid, m.processes.Values
    ensures m.Listed() && m.With(cpu', t) == Do(old(m.With(cpu, t)), WaitPid(pid))
  {
    if pid in m.processes && m.processes[pid].exitCode.Some? {
      cpu' := cpu.(rax := Word(m.processes[pid].exitCode.value));
    } else {
      ghost var k := m.With(cpu, t);
      m.AddWaiting(pid);
      assert m.With(cpu, t) == AddWaiter(k, pid);
      cpu' := BlockAndSwitch(m, cpu, t);
    }
  }

  method BlockAndSwitch(m: ProcessManager, cpu: Context, ghost t: Tables) returns (cpu': Context)
    requires m.Listed() && m.Known()
    modifies m`readyQueue, m`current, m.processes.Values
    ensures m.Listed() && m.With(cpu', t) == BlockCurrent(old(m.With(cpu, t)))
  {
    ghost var k := m.With(cpu, t);
    m.SaveCurrent(cpu, t);
    m.BlockProc(m.current);
    assert m.With(cpu, t) == SetStatus(Save(k), k.current, Blocked);
    cpu' := m.SwitchNextProc(cpu, t);
  }

  method KillProcess(m: ProcessManager, high: nat, pid: Pid, cpu: Context, ghost t: Tables)
    returns (cpu': Context)
    requires m.Listed() && m.Known()
    modifies m`processes, m`readyQueue, m`waitQueue, m`current, m`nextPid, m.processes.Values
    ensures m.Listed() && m.With(cpu', t) == Do(old(m.With(cpu, t)), KillPid(high, pid))
  {
    cpu' := cpu;
    if high != 0 || pid != KERNEL_PID {
      if pid == m.current {
        m.KillProc(pid, KILLED, cpu, t);
        cpu' := m.SwitchNextProc(cpu, t);
      } else {
        m.KillProc(pid, KILLED, cpu, t);
      }
    }
  }

  method ForkProcess(m: ProcessManager, stackOffset: int, cpu: Context, ghost t: Tables) returns (cpu': Context)
    requires m.Listed() && m.Known() && m.nextPid !in m.processes
    modifies m`processes, m`readyQueue, m`waitQueue, m`current, m`nextPid, m.processes.Values
    ensures m.Listed() && m.With(cpu', t) == Do(old(m.With(cpu, t)), VFork(stackOffset))
  {
    hide Fork;
    hide Save;
    hide SwitchNext;
    ghost var k := m.With(cpu, t);
    SaveAndFork(m, stackOffset, cpu, t);
    m.PushReady(m.current);
    assert m.With(cpu, t) == PushReady(Fork(Save(k), stackOffset), k.current);
    cpu' := m.SwitchNextProc(cpu, t);
  }

  method SaveAndFork(m: ProcessManager, stackOffset: int, cpu: Context, ghost t: Tables)
    requires m.Listed() && m.Known() && m.nextPid !in m.processes
    modifies m`processes, m`readyQueue, m`waitQueue, m`current, m`nextPid, m.processes.Values
    ensures m.Listed() && m.Known() && m.With(cpu, t) == Fork(Save(old(m.With(cpu, t))), stackOffset)
    ensures fresh(m.processes.Values - old(m.processes.Values)) && m.current == old(m.current)
  {
    m.SaveCurrent(cpu, t);
    m.VForkProc(stackOffset, cpu, t);
  }

  method SpawnProcess(m: ProcessManager, start: Context, cpu: Context) returns (cpu': Context)
    requires m.Valid()
    modifies m, m.semaphores
    ensures m.Valid() && m.Model(cpu') == Do(old(m.Model(cpu)), Spawn(start))
  {
    var pid := m.SpawnProc(start, cpu);
    cpu' := cpu.(rax := pid);
  }

  /** The current process has a semaphore table. */
  ghost predicate HasTable(m: ProcessManager)
    reads m, m.processes.Values, m.semaphores
  {
    m.current in m.processes && m.processes[m.current].data in m.semaphores.tables
  }

  /** The current process's table, in the directory and in the machine. */
  lemma TableIs(m: ProcessManager, cpu: Context)
    requires HasTable(m)
    ensures var k, d := m.Model(cpu), m.processes[m.current].data;
            && d in k.sems && Table(k) == k.sems[d] && SetTable(k, Table(k)) == k
            && (forall t :: SetTable(k, t) == m.With(cpu, k.sems[d := t]))
  {
    var k, d := m.Model(cpu), m.processes[m.current].data;
    assert d in m.semaphores.Model();
    assert k.sems[d := k.sems[d]] == k.sems;
  }

  method NewSem(m: ProcessManager, key: Key, value: nat, cpu: Context) returns (cpu': Context)
    requires m.Valid() && HasTable(m)
    modifies m.semaphores.tables.Values
    ensures m.Valid() && m.Model(cpu') == Do(old(m.Model(cpu)), SemNew(key, value))
  {
    TableIs(m, cpu);
    hide SemDirectory.Model;
    hide SemDirectory.Valid;
    hide SemDirectory.Sems;
    var isNew := m.semaphores.Insert(m.processes[m.current].data, key, value);
    cpu' := cpu.(rax := if isNew then 0 else 1);
  }

  method RemoveSem(m: ProcessManager, key: Key, cpu: Context) returns (cpu': Context)
    requires m.Valid() && HasTable(m)
    modifies m.semaphores.tables.Values
    ensures m.Valid() && m.Model(cpu') == Do(old(m.Model(cpu)), SemRemove(key))
  {
    TableIs(m, cpu);
    hide SemDirectory.Model;
    hide SemDirectory.Valid;
    hide SemDirectory.Sems;
    var found := m.semaphores.Remove(m.processes[m.current].data, key);
    cpu' := cpu.(rax := if found then 0 else 1);
  }

  /** A wait on the current process's table. */
  method WaitOn(m: ProcessManager, key: Key, ghost cpu: Context) returns (r: SemResult)
    requires m.Valid() && HasTable(m)
    modifies m.semaphores.Sems()
    ensures m.Valid()
    ensures var k := old(m.Model(cpu));
            && r == TableWaitResult(Table(k), key, k.current)
            && m.Model(cpu) == if r == NotExist then k else SetTable(k, TableWait(Table(k), key, k.current))
  {
    TableIs(m, cpu);
    hide SemDirectory.Model;
    hide SemDirectory.Valid;
    hide SemDirectory.Sems;
    r := m.semaphores.Wait(m.processes[m.current].data, key, m.current);
  }

  /** A signal on the current process's table. */
  method SignalOn(m: ProcessManager, key: Key, ghost cpu: Context) returns (r: SemResult)
    requires m.Valid() && HasTable(m)
    modifies m.semaphores.Sems()
    ensures m.Valid()
    ensures var k := old(m.Model(cpu));
            && r == TableSignalResult(Table(k), key)
            && m.Model(cpu) == if r == NotExist then k else SetTable(k, TableSignal(Table(k), key))
  {
    TableIs(m, cpu);
    hide SemDirectory.Model;
    hide SemDirectory.Valid;
    hide SemDirectory.Sems;
    r := m.semaphores.Signal(m.processes[m.current].data, key);
  }

  method WaitSem(m: ProcessManager, key: Key, cpu: Context) returns (cpu': Context)
    requires m.Valid() && m.Known() && HasTable(m)
    modifies m`readyQueue, m`current, m.processes.Values, m.semaphores.Sems()
    ensures m.Valid() && m.Model(cpu') == Do(old(m.Model(cpu)), SemWait(key))
  {
    hide SemDirectory.Model;
    hide SemDirectory.Valid;
    hide ProcessManager.Procs;
    hide ProcessManager.Listed;
    hide BlockCurrent;
    hide SetTable;
    hide Table;
    var result := WaitOn(m, key, cpu);
    ghost var sems := m.semaphores.Sems();
    label Waited:
    match result {
      case Granted => cpu' := cpu.(rax := 0);
      case Block(pid) =>
        cpu' := BlockAndSwitch(m, cpu, m.semaphores.Model());
        assert unchanged@Waited(sems);
      case _ => cpu' := cpu.(rax := 1);
    }
  }

  method SignalSem(m: ProcessManager, key: Key, cpu: Context) returns (cpu': Context)
    requires m.Valid() && m.Known() && HasTable(m)
    modifies m`readyQueue, m.processes.Values, m.semaphores.Sems()
    ensures m.Valid() && m.Model(cpu') == Do(old(m.Model(cpu)), SemSignal(key))
  {
    hide SemDirectory.Model;
    hide SemDirectory.Valid;
    hide ProcessManager.Procs;
    hide ProcessManager.Listed;
    hide WakeProc;
    hide SetTable;
    hide Table;
    var result := SignalOn(m, key, cpu);
    ghost var sems := m.semaphores.Sems();
    cpu' := cpu;
    label Signalled:
    match result {
      case Granted => cpu' := cpu.(rax := 0);
      case WakeUp(pid) =>
        m.WakeUpProc(pid, None, cpu, m.semaphores.Model());
        assert unchanged@Signalled(sems);
      case _ => cpu' := cpu.(rax := 1);
    }
  }

  // ---------------------------------------------------------------------
  // The dispatcher
  // ---------------------------------------------------------------------

  lemma PlacedIsKnown(k: Kernel)
    requires Inv(k)
    ensures k.current in k.procs && k.nextPid !in k.procs && k.procs[k.current].data in k.sems
    ensures forall i :: 0 <= i < |k.ready| ==> k.ready[i] in k.procs
  {
    assert ProcOk(k, Some(k.current), [], k.current);
    forall p | p in k.procs ensures p < k.nextPid {
      assert ProcOk(k, Some(k.current), [], p);
    }
  }

  lemma ManagerIsKnown(m: ProcessManager, cpu: Context)
    requires m.Valid() && Inv(m.Model(cpu))
    ensures m.Listed() && m.Known() && HasTable(m) && m.nextPid !in m.processes
  {
    hide Placed;
    PlacedIsKnown(m.Model(cpu));
    assert forall p :: p in m.processes <==> p in m.Procs();
  }

  /** A call other than one on semaphores or a spawn. */
  predicate Plain(call: Call) {
    !call.Spawn? && !call.SemNew? && !call.SemRemove? && !call.SemWait? && !call.SemSignal?
  }

  method DispatchPlain(m: ProcessManager, call: Call, cpu: Context, ghost t: Tables) returns (cpu': Context)
    requires m.Listed() && m.Known() && m.nextPid !in m.processes && Plain(call)
    modifies m`processes, m`readyQueue, m`waitQueue, m`current, m`nextPid, m.processes.Values
    ensures m.Listed() && m.With(cpu', t) == Do(old(m.With(cpu, t)), call)
  {
    hide Do;
    match call {
      case Timer => cpu' := Switch(m, cpu, t);
      case Exit(ret) => cpu' := ProcessExit(m, ret, cpu, t);
      case WaitPid(pid) => cpu' := WaitForPid(m, pid, cpu, t);
      case KillPid(high, pid) => cpu' := KillProcess(m, high, pid, cpu, t);
      case VFork(stackOffset) => cpu' := ForkProcess(m, stackOffset, cpu, t);
      case UserCode(registers) => cpu' := RunUser(m, registers, cpu, t);
    }
  }

  /** User code changes the registers only. */
  method RunUser(m: ProcessManager, registers: Context, cpu: Context, ghost t: Tables) returns (cpu': Context)
    requires m.Listed()
    ensures m.With(cpu', t) == Do(m.With(cpu, t), UserCode(registers))
  {
    cpu' := registers;
  }

  method DispatchOther(m: ProcessManager, call: Call, cpu: Context) returns (cpu': Context)
    requires m.Valid() && m.Known() && m.nextPid !in m.processes && Plain(call)
    modifies m`processes, m`readyQueue, m`waitQueue, m`current, m`nextPid, m.processes.Values
    ensures m.Valid() && m.Model(cpu') == Do(old(m.Model(cpu)), call)
  {
    hide Do;
    hide SemDirectory.Model;
    hide SemDirectory.Valid;
    hide ProcessManager.Procs;
    hide ProcessManager.Listed;
    ghost var sems := m.semaphores.Sems();
    label Before:
    cpu' := DispatchPlain(m, call, cpu, m.semaphores.Model());
    assert unchanged@Before(sems);
  }

  /** Any allowed call, dispatched on a manager whose processes are placed, leaves them placed. */
  method Dispatch(m: ProcessManager, call: Call, cpu: Context) returns (cpu': Context)
    requires m.Valid() && Inv(m.Model(cpu)) && Allowed(m.Model(cpu), call)
    modifies m, m.processes.Values, m.semaphores, m.semaphores.tables.Values, m.semaphores.Sems()
    ensures m.Valid() && m.Model(cpu') == Do(old(m.Model(cpu)), call) && Inv(m.Model(cpu'))
  {
    hide Placed;
    hide Do;
    hide Allowed;
    hide SemDirectory.Model;
    hide SemDirectory.Valid;
    hide SemDirectory.Sems;
    hide ProcessManager.Procs;
    hide ProcessManager.Listed;
    ManagerIsKnown(m, cpu);
    CallInv(m.Model(cpu), call);
    match call {
      case Spawn(start) => cpu' := SpawnProcess(m, start, cpu);
      case SemNew(key, value) => cpu' := NewSem(m, key, value, cpu);
      case SemRemove(key) => cpu' := RemoveSem(m, key, cpu);
      case SemWait(key) => cpu' := WaitSem(m, key, cpu);
      case SemSignal(key) => cpu' := SignalSem(m, key, cpu);
      case _ => cpu' := DispatchOther(m, call, cpu);
    }
  }
}
