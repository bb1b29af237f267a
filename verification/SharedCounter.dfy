/** The counter program: `workers` forked threads each add one to a shared variable
    `rounds` times, by a separate load and store, under one mutex semaphore. */
module SharedCounter {
  import opened Tally
  import opened Semaphores

  datatype Place = Lock | Load | Store | Unlock | Gone

  datatype Worker = Worker(pc: Place, blocked: bool, done: nat, quota: nat, val: int)

  datatype Program = Program(counter: int, mutex: Sem, workers: seq<Worker>)

  function NewWorker(quota: nat): Worker {
    Worker(if quota == 0 then Gone else Lock, false, 0, quota, 0)
  }

  function Start(workers: nat, rounds: nat): Program {
    Program(0, Sem(1, []), seq(workers, _ => NewWorker(rounds)))
  }

  predicate CanStep(p: Program, i: nat) {
    i < |p.workers| && p.workers[i].pc != Gone && !p.workers[i].blocked
  }

  predicate AllExited(p: Program) {
    forall i :: 0 <= i < |p.workers| ==> p.workers[i].pc == Gone
  }

  function NextRound(w: Worker): Worker {
    w.(pc := if w.done + 1 < w.quota then Lock else Gone, done := w.done + 1)
  }

  function Woken(sem: Sem, ws: seq<Worker>): seq<Worker> {
    match SignalResult(sem)
    case WakeUp(j) => if j < |ws| then ws[j := ws[j].(blocked := false)] else ws
    case _ => ws
  }

  function Step(p: Program, i: nat): Program
    requires CanStep(p, i)
  {
    var w := p.workers[i];
    match w.pc
    case Lock =>
      p.(mutex := AfterWait(p.mutex, i),
         workers := p.workers[i := w.(pc := Load, blocked := WaitResult(p.mutex, i).Block?)])
    case Load =>
      p.(workers := p.workers[i := w.(pc := Store, val := p.counter)])
    case Store =>
      p.(counter := w.val + 1, workers := p.workers[i := w.(pc := Unlock)])
    case Unlock =>
      p.(mutex := AfterSignal(p.mutex), workers := Woken(p.mutex, p.workers[i := NextRound(w)]))
  }

  ghost predicate IsSchedule(p: Program, who: seq<nat>)
    decreases |who|
  {
    who != [] ==> CanStep(p, who[0]) && IsSchedule(Step(p, who[0]), who[1..])
  }

  ghost function Run(p: Program, who: seq<nat>): Program
    requires IsSchedule(p, who)
    decreases |who|
  {
    if who == [] then p else Run(Step(p, who[0]), who[1..])
  }

  // ---------------------------------------------------------------------
  // The invariant
  // ---------------------------------------------------------------------

  predicate InLock(w: Worker) { w.pc.Load? || w.pc.Store? || w.pc.Unlock? }

  function Added(w: Worker): int { w.done + if w.pc.Unlock? then 1 else 0 }

  function Inside(w: Worker): int { if InLock(w) then 1 else 0 }

  function Queued(w: Worker): int { if w.blocked then 1 else 0 }

  /** One when the worker owns the mutex. */
  function Owner(w: Worker): int { if InLock(w) && !w.blocked then 1 else 0 }

  function Left(w: Worker): int {
    4 * (w.quota - w.done) - match w.pc case Lock => 0 case Load => 1 case Store => 2 case Unlock => 3 case Gone => 0
  }

  predicate WorkerOk(p: Program, i: nat)
    requires i < |p.workers|
  {
    var w := p.workers[i];
    && w.done <= w.quota && (w.pc == Gone <==> w.done == w.quota)
    && (w.blocked ==> w.pc == Load)
    && (w.blocked <==> i in p.mutex.queue)
    && (w.pc == Store ==> w.val == p.counter)
  }

  predicate MutexOk(p: Program) {
    && (p.mutex.count > 0 ==> p.mutex.queue == [])
    && (forall k :: 0 <= k < |p.mutex.queue| ==> p.mutex.queue[k] < |p.workers|)
    && (forall k, l :: 0 <= k < l < |p.mutex.queue| ==> p.mutex.queue[k] != p.mutex.queue[l])
    && p.mutex.count - |p.mutex.queue| == 1 - Sum(Inside, p.workers)
    && |p.mutex.queue| == Sum(Queued, p.workers)
  }

  predicate Inv(p: Program) {
    && (forall i :: 0 <= i < |p.workers| ==> WorkerOk(p, i))
    && MutexOk(p)
    && p.counter == Sum(Added, p.workers)
  }

  lemma Replace(ws: seq<Worker>, i: nat, x: Worker)
    requires i < |ws|
    ensures Sum(Added, ws[i := x]) == Sum(Added, ws) - Added(ws[i]) + Added(x)
    ensures Sum(Inside, ws[i := x]) == Sum(Inside, ws) - Inside(ws[i]) + Inside(x)
    ensures Sum(Queued, ws[i := x]) == Sum(Queued, ws) - Queued(ws[i]) + Queued(x)
    ensures Sum(Left, ws[i := x]) == Sum(Left, ws) - Left(ws[i]) + Left(x)
  {
    SumUpdate(Added, ws, i, x);
    SumUpdate(Inside, ws, i, x);
    SumUpdate(Queued, ws, i, x);
    SumUpdate(Left, ws, i, x);
  }

  lemma StartInv(workers: nat, rounds: nat)
    ensures Inv(Start(workers, rounds))
    ensures Sum(Left, Start(workers, rounds).workers) == 4 * workers * rounds
  {
    var ws := Start(workers, rounds).workers;
    SumConstant(Added, ws, 0);
    SumConstant(Inside, ws, 0);
    SumConstant(Queued, ws, 0);
    StartLeft(workers, rounds);
  }

  lemma StartLeft(workers: nat, rounds: nat)
    ensures Sum(Left, Start(workers, rounds).workers) == 4 * workers * rounds
  {
    hide Sum;
    var ws := Start(workers, rounds).workers;
    SumConstant(Left, ws, 4 * rounds);
    assert |ws| * (4 * rounds) == 4 * workers * rounds;
  }

  lemma {:induction false} OwnerSum(ws: seq<Worker>)
    requires forall k :: 0 <= k < |ws| ==> ws[k].blocked ==> ws[k].pc == Load
    ensures Sum(Owner, ws) == Sum(Inside, ws) - Sum(Queued, ws)
  {
    if ws != [] {
      OwnerSum(ws[1..]);
    }
  }

  lemma Owners(p: Program)
    requires Inv(p)
    ensures Sum(Owner, p.workers) == 1 - p.mutex.count
  {
    forall k | 0 <= k < |p.workers| ensures p.workers[k].blocked ==> p.workers[k].pc == Load {
      assert WorkerOk(p, k);
    }
    OwnerSum(p.workers);
  }

  lemma MutualExclusion(p: Program, i: nat, j: nat)
    requires Inv(p) && i < |p.workers| && j < |p.workers|
    requires Owner(p.workers[i]) == 1 && Owner(p.workers[j]) == 1
    ensures i == j
  {
    Owners(p);
    if i < j {
      SumAtLeastTwo(Owner, p.workers, i, j);
    } else if j < i {
      SumAtLeastTwo(Owner, p.workers, j, i);
    }
  }

  // ---------------------------------------------------------------------
  // Every step keeps it
  // ---------------------------------------------------------------------

  lemma LockStep(p: Program, i: nat)
    requires Inv(p) && CanStep(p, i) && p.workers[i].pc.Lock?
    ensures Inv(Step(p, i))
  {
    var p' := Step(p, i);
    assert WorkerOk(p, i);
    Replace(p.workers, i, p'.workers[i]);
    forall k | 0 <= k < |p'.workers| ensures WorkerOk(p', k) {
      assert WorkerOk(p, k);
    }
  }

  lemma AccessStep(p: Program, i: nat)
    requires Inv(p) && CanStep(p, i) && (p.workers[i].pc.Load? || p.workers[i].pc.Store?)
    ensures Inv(Step(p, i))
  {
    var p' := Step(p, i);
    assert WorkerOk(p, i);
    Replace(p.workers, i, p'.workers[i]);
    forall k | 0 <= k < |p'.workers| ensures WorkerOk(p', k) {
      assert WorkerOk(p, k);
      if k != i && p.workers[k].pc.Store? {
        MutualExclusion(p, i, k);
      }
    }
  }

  lemma UnlockStep(p: Program, i: nat)
    requires Inv(p) && CanStep(p, i) && p.workers[i].pc.Unlock?
    ensures Inv(Step(p, i))
  {
    var p' := Step(p, i);
    assert WorkerOk(p, i);
    var mid := p.workers[i := NextRound(p.workers[i])];
    Replace(p.workers, i, mid[i]);
    if p.mutex.queue != [] {
      var j := p.mutex.queue[0];
      assert j in p.mutex.queue && WorkerOk(p, j);
      Replace(mid, j, mid[j].(blocked := false));
    }
    forall k | 0 <= k < |p'.workers| ensures WorkerOk(p', k) {
      assert WorkerOk(p, k);
    }
  }

  lemma StepKeepsInv(p: Program, i: nat)
    requires Inv(p) && CanStep(p, i)
    ensures Inv(Step(p, i))
    ensures Sum(Left, Step(p, i).workers) == Sum(Left, p.workers) - 1
  {
    var w := p.workers[i];
    assert WorkerOk(p, i);
    if w.pc.Lock? {
      LockStep(p, i);
      Replace(p.workers, i, Step(p, i).workers[i]);
    } else if w.pc.Unlock? {
      UnlockStep(p, i);
      var mid := p.workers[i := NextRound(w)];
      Replace(p.workers, i, mid[i]);
      if p.mutex.queue != [] {
        var j := p.mutex.queue[0];
        Replace(mid, j, mid[j].(blocked := false));
      }
    } else {
      AccessStep(p, i);
      Replace(p.workers, i, Step(p, i).workers[i]);
    }
  }

  lemma {:induction false} RunKeepsInv(p: Program, who: seq<nat>)
    requires Inv(p) && IsSchedule(p, who)
    ensures Inv(Run(p, who))
    ensures |who| + Sum(Left, Run(p, who).workers) == Sum(Left, p.workers)
    decreases |who|
  {
    if who != [] {
      StepKeepsInv(p, who[0]);
      RunKeepsInv(Step(p, who[0]), who[1..]);
    }
  }

  // ---------------------------------------------------------------------
  // The total
  // ---------------------------------------------------------------------

  /** While a worker remains, some worker can run. */
  lemma NoDeadlock(p: Program) returns (i: nat)
    requires Inv(p) && !AllExited(p)
    ensures CanStep(p, i)
  {
    if p.mutex.queue != [] {
      Owners(p);
      i := SumWitness(Owner, p.workers);
    } else {
      i :| 0 <= i < |p.workers| && p.workers[i].pc != Gone;
      assert WorkerOk(p, i);
    }
  }

  lemma TotalWhenExited(p: Program)
    requires Inv(p) && AllExited(p)
    ensures p.counter == Sum(Goal, p.workers)
  {
    forall k | 0 <= k < |p.workers| ensures Added(p.workers[k]) == Goal(p.workers[k]) {
      assert WorkerOk(p, k);
    }
    SumPointwise(Added, Goal, p.workers);
    SumPointwise(Goal, Added, p.workers);
  }

  function Goal(w: Worker): int { w.quota }

  lemma {:induction false} GoalsKept(p: Program, who: seq<nat>)
    requires Inv(p) && IsSchedule(p, who)
    ensures Sum(Goal, Run(p, who).workers) == Sum(Goal, p.workers)
    decreases |who|
  {
    if who != [] {
      var i := who[0];
      var w := p.workers[i];
      StepKeepsInv(p, i);
      if w.pc.Unlock? {
        var mid := p.workers[i := NextRound(w)];
        SumUpdate(Goal, p.workers, i, mid[i]);
        if p.mutex.queue != [] {
          SumUpdate(Goal, mid, p.mutex.queue[0], mid[p.mutex.queue[0]].(blocked := false));
        }
      } else {
        SumUpdate(Goal, p.workers, i, Step(p, i).workers[i]);
      }
      GoalsKept(Step(p, i), who[1..]);
    }
  }

  lemma LeftMeansNotExited(p: Program)
    requires Inv(p)
    ensures Sum(Left, p.workers) >= 0 && (Sum(Left, p.workers) == 0 <==> AllExited(p))
  {
    forall k | 0 <= k < |p.workers|
      ensures Left(p.workers[k]) >= 0 && (Left(p.workers[k]) == 0 <==> p.workers[k].pc == Gone)
    {
      assert WorkerOk(p, k);
    }
    SumAtLeast(Left, p.workers);
    if AllExited(p) {
      SumConstant(Left, p.workers, 0);
    }
  }

  /** Under every interleaving of the loads, stores and semaphore calls no update is lost:
      every run is at most 4 * workers * rounds steps long, some worker can step while it is
      shorter, and at that length all have exited with the counter at workers * rounds. */
  lemma NoLostUpdate(workers: nat, rounds: nat, who: seq<nat>)
    requires IsSchedule(Start(workers, rounds), who)
    ensures var end, total := Run(Start(workers, rounds), who), 4 * workers * rounds;
            && |who| <= total
            && (AllExited(end) <==> |who| == total)
            && (AllExited(end) ==> end.counter == workers * rounds)
            && (!AllExited(end) ==> exists i :: CanStep(end, i))
  {
    var p := Start(workers, rounds);
    var end := Run(p, who);
    StartInv(workers, rounds);
    RunKeepsInv(p, who);
    LeftMeansNotExited(end);
    if AllExited(end) {
      TotalWhenExited(end);
      GoalsKept(p, who);
      SumConstant(Goal, p.workers, rounds);
    } else {
      var i := NoDeadlock(end);
    }
  }
}
