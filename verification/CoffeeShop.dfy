/** The bounded-buffer program: one coffee maker, any number of customers, a rack of
    `capacity` cups and three kernel semaphores. One step is one memory access or one
    system call of one thread, so a step of any other thread may fall between a load and
    the store that follows it. */
module CoffeeShop {
  import opened Tally
  import opened Semaphores

  /** Where a thread stands in its loop; the name is that of the statement it executes next. */
  datatype Place = TakeToken | TakeLock | Load | Store | FreeLock | GiveToken | Gone

  /** The maker and the customers run the same loop with the two token semaphores swapped.
      `blocked` is the kernel's Blocked status: the statement before `pc` has queued the
      thread and nobody has woken it yet. */
  datatype Thread = Thread(maker: bool, pc: Place, blocked: bool, rounds: nat, quota: nat, tmp: int)

  datatype Shop = Shop(cups: int, slots: Sem, ready: Sem, lock: Sem, threads: seq<Thread>)

  function NewThread(maker: bool, quota: nat): Thread {
    Thread(maker, if quota == 0 then Gone else TakeToken, false, 0, quota, 0)
  }

  /** The program after its forks: thread 0 is the maker, who makes every customer's cups. */
  function Open(capacity: nat, customers: nat, cupsEach: nat): Shop {
    Shop(0, Sem(capacity, []), Sem(0, []), Sem(1, []),
         [NewThread(true, customers * cupsEach)] + seq(customers, _ => NewThread(false, cupsEach)))
  }

  predicate CanStep(s: Shop, i: nat) {
    i < |s.threads| && s.threads[i].pc != Gone && !s.threads[i].blocked
  }

  predicate Finished(s: Shop) {
    forall i :: 0 <= i < |s.threads| ==> s.threads[i].pc == Gone
  }

  // ---------------------------------------------------------------------
  // One step of one thread
  // ---------------------------------------------------------------------

  function Waiting(sem: Sem, i: nat, t: Thread, next: Place): Thread {
    t.(pc := next, blocked := WaitResult(sem, i).Block?)
  }

  function Woken(sem: Sem, threads: seq<Thread>): seq<Thread> {
    match SignalResult(sem)
    case WakeUp(j) => if j < |threads| then threads[j := threads[j].(blocked := false)] else threads
    case _ => threads
  }

  function NextRound(t: Thread): Thread {
    t.(pc := if t.rounds + 1 < t.quota then TakeToken else Gone, rounds := t.rounds + 1)
  }

  function Step(s: Shop, i: nat): Shop
    requires CanStep(s, i)
  {
    var t := s.threads[i];
    match t.pc
    case TakeToken =>
      if t.maker then s.(slots := AfterWait(s.slots, i), threads := s.threads[i := Waiting(s.slots, i, t, TakeLock)])
      else s.(ready := AfterWait(s.ready, i), threads := s.threads[i := Waiting(s.ready, i, t, TakeLock)])
    case TakeLock =>
      s.(lock := AfterWait(s.lock, i), threads := s.threads[i := Waiting(s.lock, i, t, Load)])
    case Load =>
      s.(threads := s.threads[i := t.(pc := Store, tmp := s.cups)])
    case Store =>
      s.(cups := if t.maker then t.tmp + 1 else t.tmp - 1, threads := s.threads[i := t.(pc := FreeLock)])
    case FreeLock =>
      s.(lock := AfterSignal(s.lock), threads := Woken(s.lock, s.threads[i := t.(pc := GiveToken)]))
    case GiveToken =>
      if t.maker then s.(ready := AfterSignal(s.ready), threads := Woken(s.ready, s.threads[i := NextRound(t)]))
      else s.(slots := AfterSignal(s.slots), threads := Woken(s.slots, s.threads[i := NextRound(t)]))
  }

  /** An interleaving: the thread chosen at each step, every choice being able to run. */
  ghost predicate IsSchedule(s: Shop, who: seq<nat>)
    decreases |who|
  {
    who != [] ==> CanStep(s, who[0]) && IsSchedule(Step(s, who[0]), who[1..])
  }

  ghost function Run(s: Shop, who: seq<nat>): Shop
    requires IsSchedule(s, who)
    decreases |who|
  {
    if who == [] then s else Run(Step(s, who[0]), who[1..])
  }

  // ---------------------------------------------------------------------
  // What each thread contributes
  // ---------------------------------------------------------------------

  function B(b: bool): int { if b then 1 else 0 }

  predicate InRound(t: Thread) { t.pc != TakeToken && t.pc != Gone }

  predicate InLock(t: Thread) { t.pc.Load? || t.pc.Store? || t.pc.FreeLock? }

  function Quota(t: Thread): int { if t.maker then t.quota else 0 - t.quota }

  /** Cups on the rack owed to this thread. */
  function Cups(t: Thread): int {
    var done := t.rounds + B(t.pc.FreeLock? || t.pc.GiveToken?);
    if t.maker then done else -done
  }

  /** Signals minus waits this thread has issued on each semaphore. */
  function SlotBalance(t: Thread): int { if t.maker then -(t.rounds + B(InRound(t))) else t.rounds }

  function ReadyBalance(t: Thread): int { if t.maker then t.rounds else -(t.rounds + B(InRound(t))) }

  function LockBalance(t: Thread): int { -B(InLock(t)) }

  predicate OnSlots(t: Thread) { t.blocked && t.pc == TakeLock && t.maker }

  predicate OnReady(t: Thread) { t.blocked && t.pc == TakeLock && !t.maker }

  predicate OnLock(t: Thread) { t.blocked && t.pc == Load }

  function SlotQueue(t: Thread): int { B(OnSlots(t)) }

  function ReadyQueue(t: Thread): int { B(OnReady(t)) }

  function LockQueue(t: Thread): int { B(OnLock(t)) }

  /** One when the thread owns the lock. */
  function Owner(t: Thread): int { B(InLock(t) && !t.blocked) }

  // ---------------------------------------------------------------------
  // The invariant
  // ---------------------------------------------------------------------

  predicate ThreadOk(s: Shop, i: nat)
    requires i < |s.threads|
  {
    var t := s.threads[i];
    && t.rounds <= t.quota && (t.pc == Gone <==> t.rounds == t.quota)
    && (t.maker <==> i == 0)
    && (t.blocked ==> OnSlots(t) || OnReady(t) || OnLock(t))
    && (t.pc == Store ==> t.tmp == s.cups)
    && (OnSlots(t) <==> i in s.slots.queue)
    && (OnReady(t) <==> i in s.ready.queue)
    && (OnLock(t) <==> i in s.lock.queue)
  }

  /** Nobody is queued twice, nobody outside the group is queued, and a positive counter has no queue. */
  predicate SemOk(sem: Sem, n: nat) {
    && (sem.count > 0 ==> sem.queue == [])
    && (forall k :: 0 <= k < |sem.queue| ==> sem.queue[k] < n)
    && (forall k, l :: 0 <= k < l < |sem.queue| ==> sem.queue[k] != sem.queue[l])
  }

  predicate Balanced(s: Shop, capacity: nat) {
    var ts := s.threads;
    && s.cups == Sum(Cups, ts)
    && s.slots.count - |s.slots.queue| == capacity + Sum(SlotBalance, ts)
    && s.ready.count - |s.ready.queue| == Sum(ReadyBalance, ts)
    && s.lock.count - |s.lock.queue| == 1 + Sum(LockBalance, ts)
    && |s.slots.queue| == Sum(SlotQueue, ts)
    && |s.ready.queue| == Sum(ReadyQueue, ts)
    && |s.lock.queue| == Sum(LockQueue, ts)
    && Sum(Quota, ts) == 0
  }

  predicate Shape(s: Shop) {
    && |s.threads| >= 1
    && (forall i :: 0 <= i < |s.threads| ==> ThreadOk(s, i))
    && SemOk(s.slots, |s.threads|) && SemOk(s.ready, |s.threads|) && SemOk(s.lock, |s.threads|)
  }

  predicate Inv(s: Shop, capacity: nat) {
    Shape(s) && Balanced(s, capacity)
  }

  /** Changing one thread moves every sum by that thread's difference. */
  lemma Replace(ts: seq<Thread>, i: nat, x: Thread)
    requires i < |ts|
    ensures Sum(Cups, ts[i := x]) == Sum(Cups, ts) - Cups(ts[i]) + Cups(x)
    ensures Sum(SlotBalance, ts[i := x]) == Sum(SlotBalance, ts) - SlotBalance(ts[i]) + SlotBalance(x)
    ensures Sum(ReadyBalance, ts[i := x]) == Sum(ReadyBalance, ts) - ReadyBalance(ts[i]) + ReadyBalance(x)
    ensures Sum(LockBalance, ts[i := x]) == Sum(LockBalance, ts) - LockBalance(ts[i]) + LockBalance(x)
    ensures Sum(SlotQueue, ts[i := x]) == Sum(SlotQueue, ts) - SlotQueue(ts[i]) + SlotQueue(x)
    ensures Sum(ReadyQueue, ts[i := x]) == Sum(ReadyQueue, ts) - ReadyQueue(ts[i]) + ReadyQueue(x)
    ensures Sum(LockQueue, ts[i := x]) == Sum(LockQueue, ts) - LockQueue(ts[i]) + LockQueue(x)
    ensures Sum(Quota, ts[i := x]) == Sum(Quota, ts) - Quota(ts[i]) + Quota(x)
  {
    SumUpdate(Cups, ts, i, x);
    SumUpdate(SlotBalance, ts, i, x);
    SumUpdate(ReadyBalance, ts, i, x);
    SumUpdate(LockBalance, ts, i, x);
    SumUpdate(SlotQueue, ts, i, x);
    SumUpdate(ReadyQueue, ts, i, x);
    SumUpdate(LockQueue, ts, i, x);
    SumUpdate(Quota, ts, i, x);
  }

  lemma OpenInv(capacity: nat, customers: nat, cupsEach: nat)
    ensures Inv(Open(capacity, customers, cupsEach), capacity)
  {
    var s := Open(capacity, customers, cupsEach);
    var rest := seq(customers, _ => NewThread(false, cupsEach));
    assert s.threads[1..] == rest;
    assert Sum(Quota, s.threads) == 0 by {
      SumConstant(Quota, rest, 0 - cupsEach);
    }
    OpenSums(s.threads);
  }

  predicate Fresh(t: Thread) {
    t.rounds == 0 && !t.blocked && (t.pc.TakeToken? || t.pc.Gone?)
  }

  lemma {:induction false} OpenSums(ts: seq<Thread>)
    requires forall k :: 0 <= k < |ts| ==> Fresh(ts[k])
    ensures Sum(Cups, ts) == Sum(SlotBalance, ts) == Sum(ReadyBalance, ts) == Sum(LockBalance, ts) == 0
    ensures Sum(SlotQueue, ts) == Sum(ReadyQueue, ts) == Sum(LockQueue, ts) == 0
  {
    if ts != [] {
      assert Fresh(ts[0]);
      OpenSums(ts[1..]);
    }
  }

  /** At most one thread owns the lock. */
  lemma MutualExclusion(s: Shop, capacity: nat, i: nat, j: nat)
    requires Inv(s, capacity)
    requires i < |s.threads| && j < |s.threads|
    requires Owner(s.threads[i]) == 1 && Owner(s.threads[j]) == 1
    ensures i == j
  {
    forall k | 0 <= k < |s.threads|
      ensures s.threads[k].blocked ==> OnSlots(s.threads[k]) || OnReady(s.threads[k]) || OnLock(s.threads[k])
    {
      assert ThreadOk(s, k);
    }
    OwnerSum(s.threads);
    if i < j {
      SumAtLeastTwo(Owner, s.threads, i, j);
    } else if j < i {
      SumAtLeastTwo(Owner, s.threads, j, i);
    }
  }

  lemma {:induction false} OwnerSum(ts: seq<Thread>)
    requires forall k :: 0 <= k < |ts| ==> (ts[k].blocked ==> OnSlots(ts[k]) || OnReady(ts[k]) || OnLock(ts[k]))
    ensures Sum(Owner, ts) == -Sum(LockBalance, ts) - Sum(LockQueue, ts)
  {
    if ts != [] {
      OwnerSum(ts[1..]);
    }
  }

  // ---------------------------------------------------------------------
  // Every step keeps the invariant
  // ---------------------------------------------------------------------

  lemma QueueFacts(sem: Sem, n: nat, i: nat)
    requires SemOk(sem, n) && i < n && i !in sem.queue
    ensures SemOk(AfterWait(sem, i), n) && SemOk(AfterSignal(sem), n)
    ensures forall x :: x in AfterWait(sem, i).queue <==> x in sem.queue || (x == i && sem.count == 0)
    ensures forall x :: x in AfterSignal(sem).queue <==> x in sem.queue && x != sem.queue[0]
  {
    if sem.queue != [] {
      assert sem.queue == [sem.queue[0]] + sem.queue[1..];
    }
  }

  /** A thread that can run is on no queue. */
  lemma Unqueued(s: Shop, i: nat)
    requires Shape(s) && CanStep(s, i)
    ensures i !in s.slots.queue && i !in s.ready.queue && i !in s.lock.queue
    ensures i == 0 <==> s.threads[i].maker
  {
    assert ThreadOk(s, i);
  }

  lemma WaitThreads(s: Shop, i: nat, k: nat)
    requires Shape(s) && CanStep(s, i) && k < |s.threads|
    requires s.threads[i].pc.TakeToken? || s.threads[i].pc.TakeLock?
    ensures ThreadOk(Step(s, i), k)
  {
    assert ThreadOk(s, k) && ThreadOk(s, i);
    QueueFacts(s.slots, |s.threads|, i);
    QueueFacts(s.ready, |s.threads|, i);
    QueueFacts(s.lock, |s.threads|, i);
  }

  lemma WaitBalance(s: Shop, capacity: nat, i: nat)
    requires Inv(s, capacity) && CanStep(s, i)
    requires s.threads[i].pc.TakeToken? || s.threads[i].pc.TakeLock?
    ensures Balanced(Step(s, i), capacity)
  {
    assert ThreadOk(s, i);
    Replace(s.threads, i, Step(s, i).threads[i]);
  }

  lemma WaitStep(s: Shop, capacity: nat, i: nat)
    requires Inv(s, capacity) && CanStep(s, i)
    requires s.threads[i].pc.TakeToken? || s.threads[i].pc.TakeLock?
    ensures Inv(Step(s, i), capacity)
  {
    var s' := Step(s, i);
    WaitBalance(s, capacity, i);
    assert Shape(s') by {
      forall k | 0 <= k < |s'.threads| ensures ThreadOk(s', k) {
        WaitThreads(s, i, k);
      }
      Unqueued(s, i);
      QueueFacts(s.slots, |s.threads|, i);
      QueueFacts(s.ready, |s.threads|, i);
      QueueFacts(s.lock, |s.threads|, i);
    }
  }

  lemma AccessStep(s: Shop, capacity: nat, i: nat)
    requires Inv(s, capacity) && CanStep(s, i)
    requires s.threads[i].pc.Load? || s.threads[i].pc.Store?
    ensures Inv(Step(s, i), capacity)
  {
    var s' := Step(s, i);
    Replace(s.threads, i, s'.threads[i]);
    forall k | 0 <= k < |s'.threads| ensures ThreadOk(s', k) {
      assert ThreadOk(s, k) && ThreadOk(s, i);
      if k != i && s.threads[k].pc == Store {
        MutualExclusion(s, capacity, i, k);
      }
    }
  }

  lemma WokenAt(sem: Sem, ts: seq<Thread>, k: nat)
    requires k < |ts|
    ensures |Woken(sem, ts)| == |ts|
    ensures Woken(sem, ts)[k] == if sem.queue != [] && sem.queue[0] == k then ts[k].(blocked := false) else ts[k]
  {
  }

  lemma FreeLockThreads(s: Shop, i: nat, k: nat)
    requires Shape(s) && CanStep(s, i) && k < |s.threads|
    requires s.threads[i].pc.FreeLock?
    ensures ThreadOk(Step(s, i), k)
  {
    assert ThreadOk(s, k) && ThreadOk(s, i);
    QueueFacts(s.lock, |s.threads|, i);
    WokenAt(s.lock, s.threads[i := s.threads[i].(pc := GiveToken)], k);
    if s.lock.queue != [] { assert s.lock.queue[0] in s.lock.queue; }
  }

  lemma GiveTokenThreads(s: Shop, i: nat, k: nat)
    requires Shape(s) && CanStep(s, i) && k < |s.threads|
    requires s.threads[i].pc.GiveToken?
    ensures ThreadOk(Step(s, i), k)
  {
    assert ThreadOk(s, k) && ThreadOk(s, i);
    var sem := if s.threads[i].maker then s.ready else s.slots;
    QueueFacts(sem, |s.threads|, i);
    WokenAt(sem, s.threads[i := NextRound(s.threads[i])], k);
    if sem.queue != [] { assert sem.queue[0] in sem.queue; }
  }

  lemma SignalStep(s: Shop, capacity: nat, i: nat)
    requires Inv(s, capacity) && CanStep(s, i)
    requires s.threads[i].pc.FreeLock? || s.threads[i].pc.GiveToken?
    ensures Inv(Step(s, i), capacity)
  {
    var s' := Step(s, i);
    if s.threads[i].pc.FreeLock? {
      FreeLockShape(s, i);
      FreeLockBalance(s, capacity, i);
    } else if s.threads[i].maker {
      GiveTokenShape(s, i);
      ServeBalance(s, capacity, i);
    } else {
      GiveTokenShape(s, i);
      DrinkBalance(s, capacity, i);
    }
  }

  lemma FreeLockShape(s: Shop, i: nat)
    requires Shape(s) && CanStep(s, i)
    requires s.threads[i].pc.FreeLock?
    ensures Shape(Step(s, i))
  {
    var s' := Step(s, i);
    forall k | 0 <= k < |s'.threads| ensures ThreadOk(s', k) {
      FreeLockThreads(s, i, k);
    }
    Unqueued(s, i);
    QueueFacts(s.lock, |s.threads|, i);
  }

  lemma GiveTokenShape(s: Shop, i: nat)
    requires Shape(s) && CanStep(s, i)
    requires s.threads[i].pc.GiveToken?
    ensures Shape(Step(s, i))
  {
    var s' := Step(s, i);
    forall k | 0 <= k < |s'.threads| ensures ThreadOk(s', k) {
      GiveTokenThreads(s, i, k);
    }
    Unqueued(s, i);
    QueueFacts(s.slots, |s.threads|, i);
    QueueFacts(s.ready, |s.threads|, i);
  }

  lemma FreeLockBalance(s: Shop, capacity: nat, i: nat)
    requires Inv(s, capacity) && CanStep(s, i)
    requires s.threads[i].pc.FreeLock?
    ensures Balanced(Step(s, i), capacity)
  {
    assert ThreadOk(s, i);
    var mid := s.threads[i := s.threads[i].(pc := GiveToken)];
    Replace(s.threads, i, mid[i]);
    assert Step(s, i).threads == Woken(s.lock, mid);
    if s.lock.queue != [] {
      var j := s.lock.queue[0];
      assert j in s.lock.queue && ThreadOk(s, j);
      Replace(mid, j, mid[j].(blocked := false));
    }
  }

  lemma ServeBalance(s: Shop, capacity: nat, i: nat)
    requires Inv(s, capacity) && CanStep(s, i)
    requires s.threads[i].pc.GiveToken? && s.threads[i].maker
    ensures Balanced(Step(s, i), capacity)
  {
    assert ThreadOk(s, i);
    var mid := s.threads[i := NextRound(s.threads[i])];
    Replace(s.threads, i, mid[i]);
    assert Step(s, i).threads == Woken(s.ready, mid);
    if s.ready.queue != [] {
      var j := s.ready.queue[0];
      assert j in s.ready.queue && ThreadOk(s, j);
      Replace(mid, j, mid[j].(blocked := false));
    }
  }

  lemma DrinkBalance(s: Shop, capacity: nat, i: nat)
    requires Inv(s, capacity) && CanStep(s, i)
    requires s.threads[i].pc.GiveToken? && !s.threads[i].maker
    ensures Balanced(Step(s, i), capacity)
  {
    assert ThreadOk(s, i);
    var mid := s.threads[i := NextRound(s.threads[i])];
    Replace(s.threads, i, mid[i]);
    assert Step(s, i).threads == Woken(s.slots, mid);
    if s.slots.queue != [] {
      var j := s.slots.queue[0];
      assert j in s.slots.queue && ThreadOk(s, j);
      Replace(mid, j, mid[j].(blocked := false));
    }
  }

  lemma StepKeepsInv(s: Shop, capacity: nat, i: nat)
    requires Inv(s, capacity) && CanStep(s, i)
    ensures Inv(Step(s, i), capacity)
  {
    match s.threads[i].pc
    case TakeToken => WaitStep(s, capacity, i);
    case TakeLock => WaitStep(s, capacity, i);
    case Load => AccessStep(s, capacity, i);
    case Store => AccessStep(s, capacity, i);
    case FreeLock => SignalStep(s, capacity, i);
    case GiveToken => SignalStep(s, capacity, i);
  }

  lemma {:induction false} RunKeepsInv(s: Shop, capacity: nat, who: seq<nat>)
    requires Inv(s, capacity) && IsSchedule(s, who)
    ensures Inv(Run(s, who), capacity)
    decreases |who|
  {
    if who != [] {
      StepKeepsInv(s, capacity, who[0]);
      RunKeepsInv(Step(s, who[0]), capacity, who[1..]);
    }
  }

  // ---------------------------------------------------------------------
  // The rack never overflows and never underflows
  // ---------------------------------------------------------------------

  lemma {:induction false} CupsBetween(ts: seq<Thread>)
    ensures Sum(ReadyBalance, ts) + Sum(ReadyQueue, ts) <= Sum(Cups, ts)
    ensures Sum(Cups, ts) <= -(Sum(SlotBalance, ts) + Sum(SlotQueue, ts))
  {
    if ts != [] {
      CupsBetween(ts[1..]);
    }
  }

  lemma CupsInRange(s: Shop, capacity: nat)
    requires Inv(s, capacity)
    ensures 0 <= s.ready.count <= s.cups <= capacity - s.slots.count <= capacity
  {
    CupsBetween(s.threads);
  }

  /** In every interleaving, after every step, there are between zero and `capacity` cups,
      so the customers' unsigned decrement never wraps. */
  lemma RackNeverBreaks(capacity: nat, customers: nat, cupsEach: nat, who: seq<nat>)
    requires IsSchedule(Open(capacity, customers, cupsEach), who)
    ensures 0 <= Run(Open(capacity, customers, cupsEach), who).cups <= capacity
  {
    OpenInv(capacity, customers, cupsEach);
    RunKeepsInv(Open(capacity, customers, cupsEach), capacity, who);
    CupsInRange(Run(Open(capacity, customers, cupsEach), who), capacity);
  }

  lemma {:induction false} CustomersSum(ts: seq<Thread>)
    requires forall i :: 0 <= i < |ts| ==> !ts[i].maker && (ts[i].pc.TakeToken? || ts[i].pc.Gone?)
    ensures Sum(Cups, ts) == -Sum((t: Thread) => t.rounds, ts)
  {
    if ts != [] {
      CustomersSum(ts[1..]);
    }
  }

  /** Whenever everybody is between two rounds, there are as many cups on the rack as have been made and
      not drunk. */
  lemma MadeAndNotDrunk(capacity: nat, customers: nat, cupsEach: nat, who: seq<nat>)
    requires IsSchedule(Open(capacity, customers, cupsEach), who)
    ensures var s := Run(Open(capacity, customers, cupsEach), who);
            && |s.threads| > 0
            && ((forall i :: 0 <= i < |s.threads| ==> s.threads[i].pc.TakeToken? || s.threads[i].pc.Gone?) ==>
                  s.cups == s.threads[0].rounds - Sum((t: Thread) => t.rounds, s.threads[1..]))
  {
    OpenInv(capacity, customers, cupsEach);
    RunKeepsInv(Open(capacity, customers, cupsEach), capacity, who);
    var s := Run(Open(capacity, customers, cupsEach), who);
    if forall i :: 0 <= i < |s.threads| ==> s.threads[i].pc.TakeToken? || s.threads[i].pc.Gone? {
      forall i | 0 <= i < |s.threads| ensures s.threads[i].maker <==> i == 0 {
        assert ThreadOk(s, i);
      }
      CustomersSum(s.threads[1..]);
    }
  }

  // ---------------------------------------------------------------------
  // No deadlock
  // ---------------------------------------------------------------------

  function Signed(t: Thread): int { if t.maker then t.rounds else 0 - t.rounds }

  /** When every thread is gone or queued for a token, the counters are the signed rounds. */
  lemma {:induction false} StuckSums(ts: seq<Thread>)
    requires forall k :: 0 <= k < |ts| ==> ts[k].pc == Gone || OnSlots(ts[k]) || OnReady(ts[k])
    requires forall k :: 0 <= k < |ts| ==> ts[k].pc == Gone ==> !ts[k].blocked
    ensures Sum(Signed, ts) == Sum(ReadyBalance, ts) + Sum(ReadyQueue, ts)
    ensures Sum(Signed, ts) == -(Sum(SlotBalance, ts) + Sum(SlotQueue, ts))
  {
    if ts != [] {
      StuckSums(ts[1..]);
    }
  }

  /** A queued lock has a running owner. */
  lemma LockHasOwner(s: Shop, capacity: nat) returns (i: nat)
    requires Inv(s, capacity) && s.lock.queue != []
    ensures CanStep(s, i)
  {
    forall k | 0 <= k < |s.threads|
      ensures s.threads[k].blocked ==> OnSlots(s.threads[k]) || OnReady(s.threads[k]) || OnLock(s.threads[k])
    {
      assert ThreadOk(s, k);
    }
    OwnerSum(s.threads);
    i := SumWitness(Owner, s.threads);
  }

  function Unmet(t: Thread): int { Quota(t) - Signed(t) }

  lemma {:induction false} UnmetSum(ts: seq<Thread>)
    ensures Sum(Unmet, ts) == Sum(Quota, ts) - Sum(Signed, ts)
  {
    if ts != [] {
      UnmetSum(ts[1..]);
    }
  }

  /** Some thread can always run until all have gone. */
  lemma NoDeadlock(s: Shop, capacity: nat) returns (i: nat)
    requires Inv(s, capacity) && capacity >= 1 && !Finished(s)
    ensures CanStep(s, i)
  {
    if s.lock.queue != [] {
      i := LockHasOwner(s, capacity);
    } else if k :| 0 <= k < |s.threads| && CanStep(s, k) {
      i := k;
    } else {
      assert false by { StuckIsFinished(s, capacity); }
    }
  }

  lemma StuckIsFinished(s: Shop, capacity: nat)
    requires Inv(s, capacity) && capacity >= 1 && s.lock.queue == []
    requires forall k :: 0 <= k < |s.threads| ==> !CanStep(s, k)
    ensures Finished(s)
  {
    var ts := s.threads;
    forall k | 0 <= k < |ts|
      ensures ts[k].pc == Gone || OnSlots(ts[k]) || OnReady(ts[k])
      ensures ts[k].pc == Gone ==> !ts[k].blocked
    {
      assert ThreadOk(s, k) && !CanStep(s, k);
    }
    StuckSums(ts);
    UnmetSum(ts);
    assert s.ready.count + s.slots.count == capacity;
    if s.ready.count > 0 {
      forall k | 0 <= k < |ts| ensures Unmet(ts[k]) >= 0 {
        assert ThreadOk(s, k);
      }
      SumAtLeast(Unmet, ts);
      assert false;
    } else {
      forall k | 0 <= k < |ts| ensures !OnSlots(ts[k]) {
        assert ThreadOk(s, k);
      }
      MakerGone(s);
    }
  }

  /** Once the maker has gone, the rounds still owed are the customers'. */
  lemma MakerGone(s: Shop)
    requires Shape(s)
    requires forall k :: 0 <= k < |s.threads| ==> s.threads[k].pc == Gone || OnReady(s.threads[k])
    ensures Sum(Unmet, s.threads) == 0 ==> Finished(s)
  {
    forall k | 0 <= k < |s.threads|
      ensures Served(s.threads[k]) >= 0 && (Served(s.threads[k]) == 0 ==> s.threads[k].pc == Gone)
    {
      assert ThreadOk(s, k);
    }
    Negate(s.threads);
    SumAtLeast(Served, s.threads);
  }

  function Served(t: Thread): int { -Unmet(t) }

  lemma {:induction false} Negate(ts: seq<Thread>)
    ensures Sum(Served, ts) == -Sum(Unmet, ts)
  {
    if ts != [] {
      Negate(ts[1..]);
    }
  }

  // ---------------------------------------------------------------------
  // Every run ends, with an empty rack
  // ---------------------------------------------------------------------

  function Done(pc: Place): nat {
    match pc
    case TakeToken => 0 case TakeLock => 1 case Load => 2 case Store => 3
    case FreeLock => 4 case GiveToken => 5 case Gone => 0
  }

  /** Statements this thread still has to execute. */
  function Left(t: Thread): int { 6 * (t.quota - t.rounds) - Done(t.pc) }

  lemma StepsLeft(s: Shop, capacity: nat, i: nat)
    requires Inv(s, capacity) && CanStep(s, i)
    ensures Sum(Left, Step(s, i).threads) == Sum(Left, s.threads) - 1
  {
    ThreadIsOk(s, capacity, i);
    hide Inv;
    var t := s.threads[i];
    if t.pc.FreeLock? {
      SumUpdate(Left, s.threads, i, t.(pc := GiveToken));
      WakingIsFree(s.lock, s.threads[i := t.(pc := GiveToken)]);
    } else if t.pc.GiveToken? {
      SumUpdate(Left, s.threads, i, NextRound(t));
      WakingIsFree(if t.maker then s.ready else s.slots, s.threads[i := NextRound(t)]);
    } else {
      SumUpdate(Left, s.threads, i, Step(s, i).threads[i]);
    }
  }

  lemma ThreadIsOk(s: Shop, capacity: nat, i: nat)
    requires Inv(s, capacity) && i < |s.threads|
    ensures ThreadOk(s, i)
  {
  }

  lemma WakingIsFree(sem: Sem, ts: seq<Thread>)
    ensures Sum(Left, Woken(sem, ts)) == Sum(Left, ts)
  {
    if sem.queue != [] && sem.queue[0] < |ts| {
      SumUpdate(Left, ts, sem.queue[0], ts[sem.queue[0]].(blocked := false));
    }
  }

  lemma {:induction false} RunLength(s: Shop, capacity: nat, who: seq<nat>)
    requires Inv(s, capacity) && IsSchedule(s, who)
    ensures |who| + Sum(Left, Run(s, who).threads) == Sum(Left, s.threads)
    decreases |who|
  {
    if who != [] {
      StepsLeft(s, capacity, who[0]);
      StepKeepsInv(s, capacity, who[0]);
      RunLength(Step(s, who[0]), capacity, who[1..]);
    }
  }

  lemma OpenLength(capacity: nat, customers: nat, cupsEach: nat)
    ensures Sum(Left, Open(capacity, customers, cupsEach).threads) == 12 * customers * cupsEach
  {
    var rest := seq(customers, _ => NewThread(false, cupsEach));
    assert Open(capacity, customers, cupsEach).threads[1..] == rest;
    SumConstant(Left, rest, 6 * cupsEach);
    assert customers * (6 * cupsEach) == 6 * (customers * cupsEach);
  }

  /** Every run has at most 12 * customers * cupsEach steps; it has that many exactly when every
      thread is gone, and then the rack is empty. While it is shorter, some thread can step. */
  lemma EveryRunEndsEmpty(capacity: nat, customers: nat, cupsEach: nat, who: seq<nat>)
    requires capacity >= 1 && IsSchedule(Open(capacity, customers, cupsEach), who)
    ensures var end, total := Run(Open(capacity, customers, cupsEach), who), 12 * customers * cupsEach;
            && |who| <= total
            && (Finished(end) <==> |who| == total)
            && (Finished(end) ==> end.cups == 0)
            && (|who| < total ==> exists i :: CanStep(end, i))
  {
    var s := Open(capacity, customers, cupsEach);
    var end := Run(s, who);
    OpenInv(capacity, customers, cupsEach);
    RunKeepsInv(s, capacity, who);
    RunLength(s, capacity, who);
    OpenLength(capacity, customers, cupsEach);
    if Finished(end) {
      AllGone(end, capacity);
    } else {
      var i := NoDeadlock(end, capacity);
      StepsRemain(end, capacity, i);
    }
  }

  lemma StepsRemain(s: Shop, capacity: nat, i: nat)
    requires Inv(s, capacity) && CanStep(s, i)
    ensures Sum(Left, s.threads) > 0
  {
    forall k | 0 <= k < |s.threads| ensures Left(s.threads[k]) >= B(k == i) {
      assert ThreadOk(s, k);
    }
    SumAtLeast(Left, s.threads);
  }

  lemma AllGone(s: Shop, capacity: nat)
    requires Inv(s, capacity) && Finished(s)
    ensures s.cups == 0 && Sum(Left, s.threads) == 0
  {
    forall k | 0 <= k < |s.threads|
      ensures Left(s.threads[k]) == 0 && Cups(s.threads[k]) == Quota(s.threads[k])
    {
      assert ThreadOk(s, k);
    }
    SumConstant(Left, s.threads, 0);
    SumPointwise(Cups, Quota, s.threads);
    SumPointwise(Quota, Cups, s.threads);
  }
}
