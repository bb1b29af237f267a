/** What single calls leave behind, said of the fields of the kernel and without its own functions. */
module CallLaws {
  import opened Common
  import opened Semaphores
  import opened Scheduler
  import opened SchedulerInvariant
  import opened SchedulerTheorems

  // ---------------------------------------------------------------------
  // Exit codes
  // ---------------------------------------------------------------------

  /** The unsigned 64-bit word of a signed one: the same, or 2^64 more. */
  lemma WordIs(x: int)
    requires -0x8000_0000_0000_0000 <= x < 0x8000_0000_0000_0000
    ensures Word(x) == if x < 0 then x + 0x1_0000_0000_0000_0000 else x
  {
  }

  predicate DeadWith(k: Kernel, p: Pid, code: int) {
    p in k.procs && k.procs[p].status == Dead && k.procs[p].exitCode == Some(code)
  }

  /** An exit leaves the process dead with the code it gave, whether or not anybody is joined on it. */
  lemma ExitKeepsCode(k: Kernel, ret: int)
    requires Inv(k) && k.current != KERNEL_PID
    ensures DeadWith(Do(k, Exit(ret)), k.current, ret)
  {
    hide Placed;
    CallerFacts(k);
    WaitersKnown(k, k.current);
    WokenOrNot(MarkDead(k, k.current, ret), Waiters(k, k.current), ret, k.current);
    SwitchFacts(Kill(k, k.current, ret));
  }

  /** An allowed kill leaves its victim dead with code 0xdead; a kill of pid 1 or of nobody does nothing. */
  lemma KillKeepsCode(k: Kernel, high: nat, p: Pid)
    requires Inv(k) && Allowed(k, KillPid(high, p))
    ensures if p == 1 || p !in k.procs then Do(k, KillPid(high, p)) == k
            else DeadWith(Do(k, KillPid(high, p)), p, 0xdead)
  {
    hide Placed;
    CallerFacts(k);
    if p in k.procs && p != KERNEL_PID {
      WaitersKnown(k, p);
      WokenOrNot(MarkDead(k, p, KILLED), Waiters(k, p), KILLED, p);
      SwitchFacts(Kill(k, p, KILLED));
    }
  }

  /** After an exit, in every orderly run, whoever asks for the process gets the code it exited with, as
      an unsigned word, at once, and nothing else changes. */
  lemma JoinAfterExit(k: Kernel, ret: int, calls: seq<Call>)
    requires Inv(k) && k.current != KERNEL_PID && IsOrderlyRun(Do(k, Exit(ret)), calls)
    requires -0x8000_0000_0000_0000 <= ret < 0x8000_0000_0000_0000
    ensures var k' := After(Do(k, Exit(ret)), calls);
            Do(k', WaitPid(k.current))
            == k'.(cpu := k'.cpu.(rax := if ret < 0 then ret + 0x1_0000_0000_0000_0000 else ret))
  {
    hide Placed;
    ExitKeepsCode(k, ret);
    CallInv(k, Exit(ret));
    hide Do;
    LaterJoins(Do(k, Exit(ret)), calls, k.current);
    WordIs(ret);
  }

  /** A join blocks its caller exactly if the other process is unknown or not dead. */
  lemma JoinBlocksExactly(k: Kernel, q: Pid)
    requires Inv(k) && k.current != KERNEL_PID
    ensures var k' := Do(k, WaitPid(q));
            k.current in k'.procs && (k'.procs[k.current].status == Blocked <==>
              q !in k.procs || k.procs[q].status != Dead)
  {
    hide Placed;
    CallerFacts(k);
    if ExitCode(k, q).None? {
      SwitchFacts(SetStatus(Save(AddWaiter(k, q)), k.current, Blocked));
    }
  }

  // ---------------------------------------------------------------------
  // New processes, ticks
  // ---------------------------------------------------------------------

  /** A spawn adds a Ready process with its start context and an empty table of its own, queued last;
      the caller gets its pid, and nothing else changes. */
  lemma SpawnAdds(k: Kernel, start: Context)
    requires Inv(k)
    ensures k.nextPid !in k.procs && k.nextPid !in k.sems
    ensures var k' := Do(k, Spawn(start));
            && k'.procs == k.procs[k.nextPid := Proc(Ready, start, None, 0, k.nextPid)]
            && k'.sems == k.sems[k.nextPid := map[]]
            && k'.ready == k.ready + [k.nextPid] && k'.nextPid == k.nextPid + 1
            && k'.waiters == k.waiters && k'.current == k.current && k'.cpu == k.cpu.(rax := k.nextPid)
  {
    CallerFacts(k);
    CallerUnqueued(k);
  }

  /** A timer interrupt counts a tick of the process it interrupts, and of no other. */
  lemma TimerTicks(k: Kernel, p: Pid)
    requires Inv(k) && p in k.procs
    ensures p in Do(k, Timer).procs
    ensures Do(k, Timer).procs[p].ticks == k.procs[p].ticks + if p == k.current then 1 else 0
  {
    hide Placed;
    CallerFacts(k);
    SwitchFacts(PushReady(Save(k), k.current));
  }

  // ---------------------------------------------------------------------
  // Semaphores
  // ---------------------------------------------------------------------

  /** The table of the process that has the processor. */
  predicate IsTable(k: Kernel, t: SemTable) {
    k.current in k.procs && k.procs[k.current].data in k.sems && k.sems[k.procs[k.current].data] == t
  }

  /** Only the caller's table and `rax` have changed. */
  predicate OnlyTable(k: Kernel, k': Kernel, t: SemTable, rax: int) {
    k.current in k.procs &&
    k' == k.(sems := k.sems[k.procs[k.current].data := t], cpu := k.cpu.(rax := rax))
  }

  /** A new semaphore has the value asked for and an empty queue; the result says if the key was new. */
  lemma SemNewMakes(k: Kernel, t: SemTable, key: Key, value: nat)
    requires IsTable(k, t)
    ensures OnlyTable(k, Do(k, SemNew(key, value)), t[key := Sem(value, [])], if key in t then 1 else 0)
    ensures IsTable(Do(k, SemNew(key, value)), t[key := Sem(value, [])])
  {
  }

  /** Nobody waits on the semaphore of this key, if there is one. */
  predicate Unused(t: SemTable, key: Key) {
    key in t ==> t[key].queue == []
  }

  /** Making a semaphore whose key nobody waits on keeps the kernel in order. */
  lemma SemNewKeepsOrder(k: Kernel, t: SemTable, key: Key, value: nat)
    requires Inv(k) && IsTable(k, t) && Unused(t, key)
    ensures var k' := Do(k, SemNew(key, value));
            && Inv(k') && IsTable(k', t[key := Sem(value, [])])
            && k'.current == k.current && k'.procs == k.procs
  {
    hide Placed;
    SemNewMakes(k, t, key, value);
    CallInv(k, SemNew(key, value));
  }

  /** A removed semaphore is gone, and the others are there; the result says if there was one. */
  lemma SemRemoveRemoves(k: Kernel, t: SemTable, key: Key)
    requires IsTable(k, t)
    ensures OnlyTable(k, Do(k, SemRemove(key)), t - {key}, if key in t then 0 else 1)
  {
  }

  /** A call on an unknown key changes nothing but the result, which is 1. */
  lemma UnknownKey(k: Kernel, t: SemTable, key: Key)
    requires IsTable(k, t) && key !in t
    ensures Do(k, SemWait(key)) == k.(cpu := k.cpu.(rax := 1))
    ensures Do(k, SemSignal(key)) == k.(cpu := k.cpu.(rax := 1))
  {
  }

  function Waits(key: Key, n: nat): seq<Call> {
    if n == 0 then [] else [SemWait(key)] + Waits(key, n - 1)
  }

  lemma OneIsGranted(k: Kernel, t: SemTable, key: Key)
    requires IsTable(k, t) && key in t && t[key].count > 0
    ensures OnlyTable(k, Do(k, SemWait(key)), t[key := Sem(t[key].count - 1, t[key].queue)], 0)
    ensures IsTable(Do(k, SemWait(key)), t[key := Sem(t[key].count - 1, t[key].queue)])
  {
  }

  /** Of the waits on a semaphore with a count, so many are granted. */
  lemma {:induction false} CountIsGranted(k: Kernel, t: SemTable, key: Key, n: nat)
    requires IsTable(k, t) && key in t && t[key].count >= n
    ensures var k' := After(k, Waits(key, n));
            OnlyTable(k, k', t[key := Sem(t[key].count - n, t[key].queue)], if n == 0 then k.cpu.rax else 0)
    decreases n
  {
    hide Do;
    if n == 0 {
      assert t[key := Sem(t[key].count - n, t[key].queue)] == t;
      assert k.sems[k.procs[k.current].data := t] == k.sems;
      assert After(k, Waits(key, n)) == k;
    } else {
      var k1 := Do(k, SemWait(key));
      var t1 := t[key := Sem(t[key].count - 1, t[key].queue)];
      OneIsGranted(k, t, key);
      assert Waits(key, n)[1..] == Waits(key, n - 1);
      CountIsGranted(k1, t1, key, n - 1);
      assert After(k, Waits(key, n)) == After(k1, Waits(key, n - 1));
      var t2 := t[key := Sem(t[key].count - n, t[key].queue)];
      assert t1[key := Sem(t1[key].count - (n - 1), t1[key].queue)] == t2;
      assert k1.sems[k.procs[k.current].data := t2] == k.sems[k.procs[k.current].data := t2];
    }
  }

  /** After a semaphore has been made with some value, exactly as many waits are granted; with the
      next one the caller blocks, alone in the queue. */
  lemma ValueIsGranted(k: Kernel, key: Key, value: nat, n: nat)
    requires Inv(k) && k.current != KERNEL_PID && n <= value
    ensures var k' := After(Do(k, SemNew(key, value)), Waits(key, n));
            && k'.current == k.current && k'.procs == k.procs && (n > 0 ==> k'.cpu.rax == 0)
            && (n == value ==> HasBlocked(Do(k', SemWait(key)), k.current, key))
  {
    hide Placed;
    CallerFacts(k);
    var t := k.sems[k.procs[k.current].data];
    SemNewMakes(k, t, key, value);
    var k1, t1 := Do(k, SemNew(key, value)), t[key := Sem(value, [])];
    CountIsGranted(k1, t1, key, n);
    var k' := After(k1, Waits(key, n));
    if n == value {
      EmptyBlocks(k', key);
    }
  }

  /** p is blocked and the only one in the queue of this key of its table. */
  predicate HasBlocked(k: Kernel, p: Pid, key: Key) {
    && p in k.procs && k.procs[p].status == Blocked && k.procs[p].data in k.sems
    && key in k.sems[k.procs[p].data] && k.sems[k.procs[p].data][key] == Sem(0, [p])
  }

  lemma EmptyBlocks(k: Kernel, key: Key)
    requires k.current in k.procs && k.procs[k.current].data in k.sems
    requires key in k.sems[k.procs[k.current].data] && k.sems[k.procs[k.current].data][key] == Sem(0, [])
    ensures HasBlocked(Do(k, SemWait(key)), k.current, key)
  {
    SwitchFacts(SetStatus(Save(SetTable(k, TableWait(Table(k), key, k.current))), k.current, Blocked));
  }
}
