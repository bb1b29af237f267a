/** The fish program: three processes, one per character, hand a single turn to each other
    through semaphores so that together they print the repeated string `<><_><>_`. One step
    is one access to a shared variable, one print or one semaphore call of one process. */
module FishTank {
  import opened Common
  import opened Tally
  import opened Semaphores

  const GT := 0
  const LT := 1
  const US := 2

  /** Which of the three turn semaphores. */
  type Turn = i: nat | i < 3

  /** Where a process stands; a `Store` holds the value that it has loaded, `PickStep` the pattern,
      `PassNext` the semaphore it has picked. */
  datatype Place =
    | TakeTurn | TakeMutex | Check | Print
    | CountPrint | CountStore(loaded: nat) | AdvanceStep | StepStore(loaded: nat)
    | PassOn | ClearStep | Flip | FlipStore(loaded: nat) | PickPattern | PickStep(picked: nat) | PassNext(to: Turn)
    | FreeMutex | WakeGt | WakeLt | WakeUs | LastFree | Gone

  /** `blocked`: the wait before `pc` queued the process and nobody has woken it yet. */
  datatype Fish = Fish(pc: Place, blocked: bool)

  datatype Tank = Tank(
    step: nat, pattern: nat, printed: nat, total: nat, output: string,
    turn: seq<Sem>, mutex: Sem, fish: seq<Fish>, crashed: bool)

  /** After the parent's initialisation and forks: one turn, for `<`. */
  function Start(total: nat): Tank {
    Tank(0, 0, 0, total, "", [Sem(0, []), Sem(1, []), Sem(0, [])], Sem(1, []),
         [Fish(TakeTurn, false), Fish(TakeTurn, false), Fish(TakeTurn, false)], false)
  }

  /** The semaphore to signal next; the source's unreachable arm is None. */
  function NextSem(pattern: nat, step: nat): Option<Turn> {
    if pattern == 0 then
      if step == 0 then Some(LT) else if step == 1 then Some(GT) else if step == 2 then Some(LT)
      else if step == 3 then Some(US) else None
    else
      if step == 0 then Some(GT) else if step == 1 then Some(LT) else if step == 2 then Some(GT)
      else if step == 3 then Some(US) else None
  }

  function Glyph(i: nat): char {
    if i == GT then '>' else if i == LT then '<' else '_'
  }

  predicate Shaped(s: Tank) {
    |s.fish| == 3 && |s.turn| == 3
  }

  predicate CanStep(s: Tank, i: nat) {
    Shaped(s) && i < 3 && s.fish[i].pc != Gone && !s.fish[i].blocked && !s.crashed
  }

  function Woken(sem: Sem, fish: seq<Fish>): seq<Fish> {
    match SignalResult(sem)
    case WakeUp(j) => if j < |fish| then fish[j := fish[j].(blocked := false)] else fish
    case _ => fish
  }

  function Goto(s: Tank, i: nat, next: Place): Tank
    requires Shaped(s) && i < 3
  {
    s.(fish := s.fish[i := s.fish[i].(pc := next)])
  }

  function SignalTurn(s: Tank, j: nat): Tank
    requires Shaped(s) && j < 3
  {
    s.(turn := s.turn[j := AfterSignal(s.turn[j])], fish := Woken(s.turn[j], s.fish))
  }

  function SignalMutex(s: Tank): Tank {
    s.(mutex := AfterSignal(s.mutex), fish := Woken(s.mutex, s.fish))
  }

  function Step(s: Tank, i: nat): Tank
    requires CanStep(s, i)
  {
    match s.fish[i].pc
    case TakeTurn =>
      s.(turn := s.turn[i := AfterWait(s.turn[i], i)],
         fish := s.fish[i := Fish(TakeMutex, WaitResult(s.turn[i], i).Block?)])
    case TakeMutex =>
      s.(mutex := AfterWait(s.mutex, i), fish := s.fish[i := Fish(Check, WaitResult(s.mutex, i).Block?)])
    case Check => Goto(s, i, if s.printed >= s.total then WakeGt else Print)
    case Print => Goto(s, i, CountPrint).(output := s.output + [Glyph(i)])
    case CountPrint => Goto(s, i, CountStore(s.printed))
    case CountStore(loaded) => Goto(s, i, AdvanceStep).(printed := loaded + 1)
    case AdvanceStep => Goto(s, i, StepStore(s.step))
    case StepStore(loaded) => Goto(s, i, PassOn).(step := loaded + 1)
    case PassOn => Goto(s, i, if s.step < 4 then PickPattern else ClearStep)
    case ClearStep => Goto(s, i, Flip).(step := 0)
    case Flip => Goto(s, i, FlipStore(s.pattern))
    case FlipStore(loaded) => Goto(s, i, PickPattern).(pattern := (loaded + 1) % 2)
    case PickPattern => Goto(s, i, PickStep(s.pattern))
    case PickStep(pattern) =>
      (match NextSem(pattern, s.step)
       case Some(j) => Goto(s, i, PassNext(j))
       case None => s.(crashed := true))
    case PassNext(j) => SignalTurn(Goto(s, i, FreeMutex), j)
    case FreeMutex => SignalMutex(Goto(s, i, TakeTurn))
    case WakeGt => SignalTurn(Goto(s, i, WakeLt), GT)
    case WakeLt => SignalTurn(Goto(s, i, WakeUs), LT)
    case WakeUs => SignalTurn(Goto(s, i, LastFree), US)
    case LastFree => SignalMutex(Goto(s, i, Gone))
  }

  ghost predicate IsSchedule(s: Tank, who: seq<nat>)
    decreases |who|
  {
    who != [] ==> CanStep(s, who[0]) && IsSchedule(Step(s, who[0]), who[1..])
  }

  ghost function Run(s: Tank, who: seq<nat>): Tank
    requires IsSchedule(s, who)
    decreases |who|
  {
    if who == [] then s else Run(Step(s, who[0]), who[1..])
  }

  predicate AllGone(s: Tank) {
    forall i :: 0 <= i < |s.fish| ==> s.fish[i].pc == Gone
  }

  // ---------------------------------------------------------------------
  // What should be printed
  // ---------------------------------------------------------------------

  const BLOCK := "<><_><>_"

  /** The first n characters of the repeated block. */
  function Song(n: nat): string {
    seq(n, k requires 0 <= k => BLOCK[k % 8])
  }

  /** The process that prints character n. */
  function Singer(n: nat): nat {
    var c := BLOCK[n % 8];
    if c == '>' then GT else if c == '<' then LT else US
  }

  // ---------------------------------------------------------------------
  // The invariant
  // ---------------------------------------------------------------------

  predicate OnTurn(f: Fish) { f.blocked && f.pc == TakeMutex }

  predicate InMutex(f: Fish) { f.pc != TakeTurn && f.pc != TakeMutex && f.pc != Gone }

  predicate Leaving(f: Fish) { f.pc.WakeGt? || f.pc.WakeLt? || f.pc.WakeUs? || f.pc.LastFree? || f.pc.Gone? }

  /** The process has been given the turn and has not passed it on. */
  predicate Holds(f: Fish) {
    !OnTurn(f) && !f.pc.TakeTurn? && !f.pc.FreeMutex? && !Leaving(f)
  }

  function Inside(f: Fish): int { if InMutex(f) then 1 else 0 }

  function Queued(f: Fish): int { if f.blocked && f.pc == Check then 1 else 0 }

  /** One when the process owns the mutex. */
  function Owner(f: Fish): int { if InMutex(f) && !f.blocked then 1 else 0 }

  predicate TurnOk(s: Tank, i: nat)
    requires Shaped(s) && i < 3
  {
    var f := s.fish[i];
    && s.turn[i].queue == (if OnTurn(f) then [i] else [])
    && (s.turn[i].count > 0 ==> !OnTurn(f))
    && (f.blocked ==> f.pc == TakeMutex || f.pc == Check)
    && (f.blocked && f.pc == Check <==> i in s.mutex.queue)
  }

  predicate MutexOk(s: Tank) {
    && (s.mutex.count > 0 ==> s.mutex.queue == [])
    && (forall k :: 0 <= k < |s.mutex.queue| ==> s.mutex.queue[k] < 3)
    && (forall k, l :: 0 <= k < l < |s.mutex.queue| ==> s.mutex.queue[k] != s.mutex.queue[l])
    && s.mutex.count - |s.mutex.queue| == 1 - Sum(Inside, s.fish)
    && |s.mutex.queue| == Sum(Queued, s.fish)
  }

  /** The counters agree with what has been printed. */
  predicate Settled(s: Tank, n: nat) {
    s.printed == n && s.step == n % 4 && s.pattern == n / 4 % 2
  }

  /** Character n - 1 has been counted, but step and pattern have not followed. */
  predicate Counted(s: Tank, n: nat)
    requires n > 0
  {
    s.printed == n && s.pattern == (n - 1) / 4 % 2
  }

  /** The holder's place says how far the counters are behind the output. */
  predicate HolderOk(s: Tank, i: nat)
    requires Shaped(s) && i < 3
  {
    var n := |s.output|;
    match s.fish[i].pc
    case CountPrint => n > 0 && Settled(s, n - 1)
    case CountStore(t) => n > 0 && Settled(s, n - 1) && t == s.printed
    case AdvanceStep => n > 0 && Counted(s, n) && s.step == (n - 1) % 4
    case StepStore(t) => n > 0 && Counted(s, n) && s.step == (n - 1) % 4 && t == s.step
    case PassOn => n > 0 && Counted(s, n) && s.step == (n - 1) % 4 + 1
    case ClearStep => n > 0 && Counted(s, n) && n % 4 == 0
    case Flip => n > 0 && Counted(s, n) && n % 4 == 0 && s.step == 0
    case FlipStore(t) => n > 0 && Counted(s, n) && n % 4 == 0 && s.step == 0 && t == s.pattern
    case PickPattern => Settled(s, n)
    case PickStep(t) => Settled(s, n) && t == s.pattern
    case PassNext(j) => Settled(s, n) && j == Singer(n)
    case Print => Settled(s, n) && n < s.total && i == Singer(n)
    case _ => Settled(s, n) && i == Singer(n)
  }

  /** The process that holds the turn, or 3 when the turn is in a semaphore. */
  function Holder(s: Tank): nat
    requires Shaped(s)
  {
    if Holds(s.fish[0]) then 0 else if Holds(s.fish[1]) then 1 else if Holds(s.fish[2]) then 2 else 3
  }

  /** Before the first goodbye there is a single turn: with one process, or in one semaphore. */
  predicate Calm(s: Tank)
    requires Shaped(s)
  {
    var h := Holder(s);
    && (forall i :: 0 <= i < 3 ==> !Leaving(s.fish[i]))
    && (forall i :: 0 <= i < 3 ==> (Holds(s.fish[i]) <==> i == h))
    && (forall i :: 0 <= i < 3 ==> s.turn[i].count == if h == 3 && i == Singer(|s.output|) then 1 else 0)
    && if h < 3 then HolderOk(s, h) else Settled(s, |s.output|)
  }

  /** Process f has already signalled semaphore j on its way out. */
  predicate Signalled(f: Fish, j: nat) {
    f.pc.Gone? || f.pc.LastFree? || (f.pc.WakeUs? && j != US) || (f.pc.WakeLt? && j == GT)
  }

  /** After it nobody prints, and whoever has been signalled is on its way. */
  predicate Closing(s: Tank)
    requires Shaped(s)
  {
    && |s.output| == s.printed == s.total
    && (exists i :: 0 <= i < 3 && Leaving(s.fish[i]))
    && (forall i :: 0 <= i < 3 ==>
          s.fish[i].pc.TakeTurn? || s.fish[i].pc.TakeMutex? || s.fish[i].pc.Check? || Leaving(s.fish[i]))
    && (forall i, j :: 0 <= i < 3 && 0 <= j < 3 && Signalled(s.fish[i], j) ==>
          !OnTurn(s.fish[j]) && (s.fish[j].pc.TakeTurn? ==> s.turn[j].count > 0))
  }

  predicate Base(s: Tank) {
    && Shaped(s) && !s.crashed
    && (forall i :: 0 <= i < 3 ==> TurnOk(s, i))
    && MutexOk(s)
    && |s.output| <= s.total
    && s.output == Song(|s.output|)
  }

  predicate Inv(s: Tank) {
    Base(s) && (Calm(s) || Closing(s))
  }

  lemma StartInv(total: nat)
    ensures Inv(Start(total))
  {
    var s := Start(total);
    SumThree(Inside, s.fish);
    SumThree(Queued, s.fish);
  }

  lemma SumThree(f: Fish -> int, s: seq<Fish>)
    requires |s| == 3
    ensures Sum(f, s) == f(s[0]) + f(s[1]) + f(s[2])
  {
    assert s[1..][1..] == s[2..] && s[2..][1..] == [];
    assert Sum(f, s[2..]) == f(s[2]);
    assert Sum(f, s[1..]) == f(s[1]) + Sum(f, s[2..]);
  }

  lemma MutualExclusion(s: Tank, i: nat, j: nat)
    requires Base(s) && i < 3 && j < 3
    requires Owner(s.fish[i]) == 1 && Owner(s.fish[j]) == 1
    ensures i == j
  {
    assert TurnOk(s, 0) && TurnOk(s, 1) && TurnOk(s, 2);
    SumThree(Inside, s.fish);
    SumThree(Queued, s.fish);
  }

  // ---------------------------------------------------------------------
  // Every step keeps it
  // ---------------------------------------------------------------------

  /** Moving along inside (or outside) the mutex changes no queue. */
  lemma MoveBase(s: Tank, i: nat, s': Tank)
    requires Base(s) && CanStep(s, i)
    requires Shaped(s') && s'.fish == s.fish[i := s'.fish[i]]
    requires !s'.fish[i].blocked && InMutex(s'.fish[i]) == InMutex(s.fish[i])
    requires s'.turn == s.turn && s'.mutex == s.mutex
    ensures (forall k :: 0 <= k < 3 ==> TurnOk(s', k)) && MutexOk(s')
  {
    assert TurnOk(s, i);
    SumUpdate(Inside, s.fish, i, s'.fish[i]);
    SumUpdate(Queued, s.fish, i, s'.fish[i]);
    forall k | 0 <= k < 3 ensures TurnOk(s', k) {
      assert TurnOk(s, k);
    }
  }

  lemma WaitBase(s: Tank, i: nat)
    requires Base(s) && CanStep(s, i) && (s.fish[i].pc.TakeTurn? || s.fish[i].pc.TakeMutex?)
    ensures Base(Step(s, i))
  {
    var s' := Step(s, i);
    assert TurnOk(s, i);
    SumUpdate(Inside, s.fish, i, s'.fish[i]);
    SumUpdate(Queued, s.fish, i, s'.fish[i]);
    forall k | 0 <= k < 3 ensures TurnOk(s', k) {
      assert TurnOk(s, k);
    }
  }

  lemma SignalTurnBase(s: Tank, j: nat)
    requires Base(s) && j < 3
    ensures Base(SignalTurn(s, j))
  {
    var s' := SignalTurn(s, j);
    assert TurnOk(s, j);
    if s.turn[j].queue != [] {
      SumUpdate(Inside, s.fish, j, s'.fish[j]);
      SumUpdate(Queued, s.fish, j, s'.fish[j]);
    }
    forall k | 0 <= k < 3 ensures TurnOk(s', k) {
      assert TurnOk(s, k);
    }
  }

  /** Leaving the mutex for a place outside it. */
  lemma FreeBase(s: Tank, i: nat, next: Place)
    requires Base(s) && CanStep(s, i) && InMutex(s.fish[i]) && (next.TakeTurn? || next.Gone?)
    ensures Base(SignalMutex(Goto(s, i, next)))
  {
    var mid := Goto(s, i, next);
    var s' := SignalMutex(mid);
    assert TurnOk(s, i);
    SumUpdate(Inside, s.fish, i, mid.fish[i]);
    SumUpdate(Queued, s.fish, i, mid.fish[i]);
    if s.mutex.queue != [] {
      var j := s.mutex.queue[0];
      assert j in s.mutex.queue && TurnOk(s, j);
      SumUpdate(Inside, mid.fish, j, s'.fish[j]);
      SumUpdate(Queued, mid.fish, j, s'.fish[j]);
    }
    forall k | 0 <= k < 3 ensures TurnOk(s', k) {
      assert TurnOk(s, k);
    }
  }

  lemma TakeTurnStep(s: Tank, i: nat)
    requires Inv(s) && CanStep(s, i) && s.fish[i].pc.TakeTurn?
    ensures Inv(Step(s, i))
  {
    WaitBase(s, i);
    if Calm(s) {
      TakeTurnCalm(s, i);
    } else {
      TakeTurnClosing(s, i);
    }
  }

  lemma TakeTurnCalm(s: Tank, i: nat)
    requires Base(s) && Calm(s) && CanStep(s, i) && s.fish[i].pc.TakeTurn?
    ensures Calm(Step(s, i))
  {
    var s' := Step(s, i);
    assert !Holds(s.fish[i]);
    if s.turn[i].count > 0 {
      assert Holder(s) == 3 && i == Singer(|s.output|);
      assert Holder(s') == i;
    } else {
      assert Holder(s') == Holder(s);
    }
  }

  lemma TakeTurnClosing(s: Tank, i: nat)
    requires Base(s) && Closing(s) && CanStep(s, i) && s.fish[i].pc.TakeTurn?
    ensures Closing(Step(s, i))
  {
    hide Base;
    hide NextSem;
    KeepsLeaving(s, i);
  }

  /** Nobody comes back once somebody has started to leave. */
  lemma KeepsLeaving(s: Tank, i: nat)
    requires Shaped(s) && CanStep(s, i) && (exists k :: 0 <= k < 3 && Leaving(s.fish[k]))
    requires s.fish[i].pc.TakeTurn? || s.fish[i].pc.TakeMutex? || s.fish[i].pc.Check?
    ensures exists k :: 0 <= k < 3 && Leaving(Step(s, i).fish[k])
  {
    var k :| 0 <= k < 3 && Leaving(s.fish[k]);
    assert Step(s, i).fish[k] == s.fish[k];
  }

  lemma TakeMutexStep(s: Tank, i: nat)
    requires Inv(s) && CanStep(s, i) && s.fish[i].pc.TakeMutex?
    ensures Inv(Step(s, i))
  {
    WaitBase(s, i);
    hide Base;
    if Calm(s) {
      TakeMutexCalm(s, i);
    } else {
      TakeMutexClosing(s, i);
    }
  }

  lemma TakeMutexCalm(s: Tank, i: nat)
    requires Shaped(s) && Calm(s) && CanStep(s, i) && s.fish[i].pc.TakeMutex?
    ensures Shaped(Step(s, i)) && Calm(Step(s, i))
  {
    assert Holder(Step(s, i)) == Holder(s);
  }

  lemma TakeMutexClosing(s: Tank, i: nat)
    requires Shaped(s) && Closing(s) && CanStep(s, i) && s.fish[i].pc.TakeMutex?
    ensures Shaped(Step(s, i)) && Closing(Step(s, i))
  {
    KeepsLeaving(s, i);
  }

  lemma CheckStep(s: Tank, i: nat)
    requires Inv(s) && CanStep(s, i) && s.fish[i].pc.Check?
    ensures Inv(Step(s, i))
  {
    var s' := Step(s, i);
    MoveBase(s, i, s');
    hide TurnOk;
    hide MutexOk;
    if Closing(s) {
      CheckClosing(s, i);
    } else if s.printed >= s.total {
      FirstGoodbye(s, i);
    } else {
      CheckCalm(s, i);
    }
  }

  lemma CheckClosing(s: Tank, i: nat)
    requires Shaped(s) && Closing(s) && CanStep(s, i) && s.fish[i].pc.Check?
    ensures Shaped(Step(s, i)) && Closing(Step(s, i))
  {
    KeepsLeaving(s, i);
  }

  lemma CheckCalm(s: Tank, i: nat)
    requires Shaped(s) && Calm(s) && CanStep(s, i) && s.fish[i].pc.Check? && s.printed < s.total
    ensures Shaped(Step(s, i)) && Calm(Step(s, i))
  {
    assert Holds(s.fish[i]) && Holder(Step(s, i)) == Holder(s);
  }

  lemma FirstGoodbye(s: Tank, i: nat)
    requires Base(s) && Calm(s) && CanStep(s, i) && s.fish[i].pc.Check? && s.printed >= s.total
    ensures Closing(Step(s, i))
  {
    assert Holds(s.fish[i]) && HolderOk(s, i);
    forall k | 0 <= k < 3 && k != i ensures s.fish[k].pc.TakeTurn? || s.fish[k].pc.TakeMutex? || s.fish[k].pc.Check? {
      assert TurnOk(s, k);
      if Owner(s.fish[k]) == 1 {
        MutualExclusion(s, i, k);
      }
    }
    assert Leaving(Step(s, i).fish[i]);
  }

  predicate Counting(pc: Place) {
    pc.CountPrint? || pc.CountStore? || pc.AdvanceStep? || pc.StepStore?
  }

  predicate Turning(pc: Place) {
    pc.PassOn? || pc.ClearStep? || pc.Flip? || pc.FlipStore?
  }

  predicate Picking(pc: Place) {
    pc.PickPattern? || pc.PickStep?
  }

  /** Only before the goodbyes does anyone get past the check. */
  lemma Busy(s: Tank, i: nat)
    requires Inv(s) && CanStep(s, i)
    requires var pc := s.fish[i].pc; pc.Print? || Counting(pc) || Turning(pc) || Picking(pc) || pc.PassNext?
    ensures Calm(s) && Holds(s.fish[i]) && HolderOk(s, i)
  {
  }

  lemma MoveCalm(s: Tank, i: nat, s': Tank)
    requires Base(s) && CanStep(s, i) && Calm(s) && Holds(s.fish[i])
    requires Shaped(s') && s'.fish == s.fish[i := s'.fish[i]] && s'.turn == s.turn
    requires Holds(s'.fish[i]) && HolderOk(s', i)
    ensures Calm(s')
  {
  }

  lemma PrintStep(s: Tank, i: nat)
    requires Inv(s) && CanStep(s, i)
    requires s.fish[i].pc.Print?
    ensures Inv(Step(s, i))
  {
    var s' := Step(s, i);
    Busy(s, i);
    MoveBase(s, i, s');
    SongGrows(|s.output|);
    hide Song;
    MoveCalm(s, i, s');
  }

  lemma SongGrows(n: nat)
    ensures Song(n + 1) == Song(n) + [Glyph(Singer(n))]
  {
    assert Glyph(Singer(n)) == BLOCK[n % 8];
  }

  lemma CountHolder(s: Tank, i: nat)
    requires CanStep(s, i) && HolderOk(s, i) && Counting(s.fish[i].pc)
    ensures Shaped(Step(s, i)) && HolderOk(Step(s, i), i)
  {
    hide Singer;
  }

  lemma TurnHolder(s: Tank, i: nat)
    requires CanStep(s, i) && HolderOk(s, i) && Turning(s.fish[i].pc)
    ensures Shaped(Step(s, i)) && HolderOk(Step(s, i), i)
  {
    hide Singer;
    Blocks(|s.output|);
    match s.fish[i].pc {
      case PassOn => PassOnHolder(s, i);
      case ClearStep =>
      case Flip =>
      case FlipStore(_) => FlipHolder(s, i);
    }
  }

  lemma PassOnHolder(s: Tank, i: nat)
    requires CanStep(s, i) && HolderOk(s, i) && s.fish[i].pc.PassOn?
    ensures HolderOk(Step(s, i), i)
  {
    hide Singer;
    Blocks(|s.output|);
  }

  lemma FlipHolder(s: Tank, i: nat)
    requires CanStep(s, i) && HolderOk(s, i) && s.fish[i].pc.FlipStore?
    ensures HolderOk(Step(s, i), i)
  {
    hide Singer;
    Blocks(|s.output|);
  }

  /** A pattern is the same for four characters, then it changes. */
  lemma Blocks(n: nat)
    ensures n > 0 && n % 4 == 0 ==> (n - 1) % 4 == 3 && n / 4 % 2 == ((n - 1) / 4 % 2 + 1) % 2
    ensures n > 0 && n % 4 > 0 ==> n % 4 == (n - 1) % 4 + 1 && n / 4 % 2 == (n - 1) / 4 % 2
  {
    if n > 0 {
      assert (n - 1) / 4 == if n % 4 == 0 then n / 4 - 1 else n / 4;
    }
  }

  lemma PickHolder(s: Tank, i: nat)
    requires CanStep(s, i) && HolderOk(s, i) && Picking(s.fish[i].pc)
    ensures Shaped(Step(s, i)) && !Step(s, i).crashed && HolderOk(Step(s, i), i)
  {
    NextIsSinger(|s.output|);
  }

  /** The holder's bookkeeping between its print and its signal. */
  lemma BookStep(s: Tank, i: nat)
    requires Inv(s) && CanStep(s, i)
    requires Counting(s.fish[i].pc) || Turning(s.fish[i].pc) || Picking(s.fish[i].pc)
    ensures Inv(Step(s, i))
  {
    Busy(s, i);
    if Picking(s.fish[i].pc) {
      PickHolder(s, i);
    } else if Turning(s.fish[i].pc) {
      TurnHolder(s, i);
    } else {
      CountHolder(s, i);
    }
    hide HolderOk;
    BookMoves(s, i);
    MoveBase(s, i, Step(s, i));
    MoveCalm(s, i, Step(s, i));
  }

  lemma BookMoves(s: Tank, i: nat)
    requires CanStep(s, i) && !Step(s, i).crashed
    requires Counting(s.fish[i].pc) || Turning(s.fish[i].pc) || Picking(s.fish[i].pc)
    ensures var s' := Step(s, i);
            && Shaped(s') && s'.fish == s.fish[i := s'.fish[i]] && !s'.fish[i].blocked
            && InMutex(s'.fish[i]) && InMutex(s.fish[i]) && Holds(s'.fish[i])
            && s'.turn == s.turn && s'.mutex == s.mutex && s'.output == s.output && s'.total == s.total
  {
  }

  /** The semaphore signalled next belongs to the process whose character comes next. */
  lemma NextIsSinger(n: nat)
    ensures NextSem(n / 4 % 2, n % 4) == Some(Singer(n))
  {
    assert n % 8 == n / 4 % 2 * 4 + n % 4;
  }

  lemma PassStep(s: Tank, i: nat)
    requires Inv(s) && CanStep(s, i)
    requires s.fish[i].pc.PassNext?
    ensures Inv(Step(s, i))
  {
    Busy(s, i);
    var mid := Goto(s, i, FreeMutex);
    var n := |s.output|;
    assert Settled(s, n);
    MoveBase(s, i, mid);
    SignalTurnBase(mid, Singer(n));
    assert TurnOk(mid, Singer(n));
    PassCalm(mid, Singer(n));
  }

  /** The turn arrives at the next process, or waits for it in its semaphore. */
  lemma PassCalm(s: Tank, j: nat)
    requires Shaped(s) && j == Singer(|s.output|) && TurnOk(s, j)
    requires forall k :: 0 <= k < 3 ==> !Leaving(s.fish[k]) && !Holds(s.fish[k]) && s.turn[k].count == 0
    requires Settled(s, |s.output|)
    ensures Calm(SignalTurn(s, j))
  {
    if OnTurn(s.fish[j]) {
      assert Holder(SignalTurn(s, j)) == j;
    } else {
      assert SignalTurn(s, j).fish == s.fish;
    }
  }

  lemma FreeStep(s: Tank, i: nat)
    requires Inv(s) && CanStep(s, i) && s.fish[i].pc.FreeMutex?
    ensures Inv(Step(s, i))
  {
    FreeBase(s, i, TakeTurn);
    hide HolderOk;
    WokenFromMutex(s, Goto(s, i, TakeTurn));
    SameCalm(s, Step(s, i));
  }

  /** A move outside the turn-taking leaves the turn where it is. */
  lemma SameCalm(s: Tank, s': Tank)
    requires Shaped(s) && Shaped(s') && Calm(s)
    requires s'.turn == s.turn && s'.output == s.output && s'.printed == s.printed && s'.total == s.total
    requires s'.step == s.step && s'.pattern == s.pattern
    requires forall k :: 0 <= k < 3 ==>
      || s'.fish[k] == s.fish[k]
      || (s.fish[k].pc.Check? && s'.fish[k].pc.Check?)
      || (s.fish[k].pc.FreeMutex? && s'.fish[k].pc.TakeTurn?)
    ensures Calm(s')
  {
    assert Holder(s') == Holder(s);
  }

  /** A process woken from the mutex was and stays at its check. */
  lemma WokenFromMutex(s: Tank, mid: Tank)
    requires Base(s) && Shaped(mid) && mid.mutex == s.mutex
    requires forall k :: 0 <= k < 3 ==> s.fish[k].pc.Check? ==> mid.fish[k] == s.fish[k]
    ensures Shaped(SignalMutex(mid))
    ensures forall k :: 0 <= k < 3 ==>
      SignalMutex(mid).fish[k] == mid.fish[k] || (mid.fish[k].pc.Check? && SignalMutex(mid).fish[k].pc.Check?)
  {
    if s.mutex.queue != [] {
      assert s.mutex.queue[0] in s.mutex.queue && TurnOk(s, s.mutex.queue[0]);
    }
  }

  lemma LeaverCloses(s: Tank, i: nat)
    requires Inv(s) && i < 3 && Leaving(s.fish[i])
    ensures Closing(s)
  {
  }

  lemma WakeStep(s: Tank, i: nat)
    requires Inv(s) && CanStep(s, i) && (s.fish[i].pc.WakeGt? || s.fish[i].pc.WakeLt? || s.fish[i].pc.WakeUs?)
    ensures Inv(Step(s, i))
  {
    hide Base;
    hide Calm;
    hide Closing;
    hide AfterSignal;
    hide Woken;
    LeaverCloses(s, i);
    if s.fish[i].pc.WakeGt? {
      WakeOne(s, i, WakeLt, GT);
    } else if s.fish[i].pc.WakeLt? {
      WakeOne(s, i, WakeUs, LT);
    } else {
      WakeOne(s, i, LastFree, US);
    }
  }

  lemma WakeOne(s: Tank, i: nat, next: Place, j: nat)
    requires Base(s) && Closing(s) && CanStep(s, i) && Leaving(s.fish[i]) && InMutex(s.fish[i]) && j < 3
    requires next.WakeLt? || next.WakeUs? || next.LastFree?
    requires forall k :: 0 <= k < 3 && k != j ==> (Signalled(Fish(next, false), k) ==> Signalled(s.fish[i], k))
    ensures Base(SignalTurn(Goto(s, i, next), j)) && Closing(SignalTurn(Goto(s, i, next), j))
  {
    var mid := Goto(s, i, next);
    MoveBase(s, i, mid);
    SignalTurnBase(mid, j);
    assert TurnOk(mid, j);
    hide TurnOk;
    hide MutexOk;
    WakeClosing(s, mid, i, j);
  }

  lemma WakeClosing(s: Tank, mid: Tank, i: nat, j: nat)
    requires Shaped(s) && Shaped(mid) && Closing(s) && i < 3 && j < 3
    requires mid == Goto(s, i, mid.fish[i].pc) && Leaving(s.fish[i]) && Leaving(mid.fish[i])
    requires forall k :: 0 <= k < 3 && k != j ==> (Signalled(mid.fish[i], k) ==> Signalled(s.fish[i], k))
    requires TurnOk(mid, j)
    ensures Closing(SignalTurn(mid, j))
  {
    var s' := SignalTurn(mid, j);
    assert Leaving(s'.fish[i]);
    assert !OnTurn(s'.fish[j]) && (s'.fish[j].pc.TakeTurn? ==> s'.turn[j].count > 0);
    forall f, k | 0 <= f < 3 && 0 <= k < 3 && Signalled(s'.fish[f], k)
      ensures !OnTurn(s'.fish[k]) && (s'.fish[k].pc.TakeTurn? ==> s'.turn[k].count > 0)
    {
      if k != j {
        assert Signalled(s.fish[f], k);
        assert s'.turn[k] == s.turn[k];
      }
    }
  }

  lemma LastStep(s: Tank, i: nat)
    requires Inv(s) && CanStep(s, i) && s.fish[i].pc.LastFree?
    ensures Inv(Step(s, i))
  {
    FreeBase(s, i, Gone);
    assert Leaving(s.fish[i]) && Closing(s);
    WokenFromMutex(s, Goto(s, i, Gone));
    LastClosing(s, Step(s, i), i);
  }

  lemma LastClosing(s: Tank, s': Tank, i: nat)
    requires Shaped(s) && Shaped(s') && Closing(s) && i < 3 && s.fish[i].pc.LastFree? && s'.fish[i].pc.Gone?
    requires s'.turn == s.turn && s'.output == s.output && s'.printed == s.printed && s'.total == s.total
    requires forall k :: 0 <= k < 3 && k != i ==>
      s'.fish[k] == s.fish[k] || (s.fish[k].pc.Check? && s'.fish[k].pc.Check?)
    ensures Closing(s')
  {
    assert Leaving(s'.fish[i]);
    forall f, k | 0 <= f < 3 && 0 <= k < 3 && Signalled(s'.fish[f], k)
      ensures !OnTurn(s'.fish[k]) && (s'.fish[k].pc.TakeTurn? ==> s'.turn[k].count > 0)
    {
      assert Signalled(s.fish[f], k);
    }
  }

  lemma StepKeepsInv(s: Tank, i: nat)
    requires Inv(s) && CanStep(s, i)
    ensures Inv(Step(s, i))
  {
    var pc := s.fish[i].pc;
    if Counting(pc) || Turning(pc) || Picking(pc) {
      BookStep(s, i);
    } else {
      OtherStep(s, i);
    }
  }

  lemma OtherStep(s: Tank, i: nat)
    requires Inv(s) && CanStep(s, i)
    requires !Counting(s.fish[i].pc) && !Turning(s.fish[i].pc) && !Picking(s.fish[i].pc)
    ensures Inv(Step(s, i))
  {
    match s.fish[i].pc
    case TakeTurn => TakeTurnStep(s, i);
    case TakeMutex => TakeMutexStep(s, i);
    case Check => CheckStep(s, i);
    case Print => PrintStep(s, i);
    case PassNext(_) => PassStep(s, i);
    case FreeMutex => FreeStep(s, i);
    case WakeGt => WakeStep(s, i);
    case WakeLt => WakeStep(s, i);
    case WakeUs => WakeStep(s, i);
    case LastFree => LastStep(s, i);
  }

  // ---------------------------------------------------------------------
  // Every run ends
  // ---------------------------------------------------------------------

  function Weight(f: Fish): int {
    match f.pc
    case CountPrint => 32 case CountStore(_) => 31 case AdvanceStep => 30 case StepStore(_) => 29
    case PassOn => 28 case ClearStep => 27 case Flip => 26 case FlipStore(_) => 25
    case PickPattern => 24 case PickStep(_) => 23 case PassNext(_) => 22
    case FreeMutex => 21 case TakeTurn => 20 case TakeMutex => 19 case Check => 18 case Print => 17
    case WakeGt => 16 case WakeLt => 15 case WakeUs => 14 case LastFree => 13 case Gone => 12
  }

  function Budget(s: Tank): int { 16 * (s.total - |s.output|) + Sum(Weight, s.fish) }

  lemma WakingIsFree(sem: Sem, fish: seq<Fish>)
    ensures Sum(Weight, Woken(sem, fish)) == Sum(Weight, fish)
  {
    if sem.queue != [] && sem.queue[0] < |fish| {
      SumUpdate(Weight, fish, sem.queue[0], fish[sem.queue[0]].(blocked := false));
    }
  }

  lemma StepSpends(s: Tank, i: nat)
    requires Inv(s) && CanStep(s, i)
    ensures Budget(Step(s, i)) <= Budget(s) - 1
  {
    var pc := s.fish[i].pc;
    hide Inv;
    hide Step;
    hide Budget;
    hide HolderOk;
    if pc.PassNext? || pc.FreeMutex? || pc.LastFree? {
      SpendRelease(s, i);
    } else if pc.WakeGt? || pc.WakeLt? || pc.WakeUs? {
      SpendWake(s, i);
    } else {
      if Picking(pc) {
        Busy(s, i);
        PickHolder(s, i);
      }
      NoCrash(s, i);
      SpendMove(s, i);
    }
  }

  lemma SpendRelease(s: Tank, i: nat)
    requires CanStep(s, i) && (s.fish[i].pc.PassNext? || s.fish[i].pc.FreeMutex? || s.fish[i].pc.LastFree?)
    ensures Budget(Step(s, i)) <= Budget(s) - 1
  {
    hide Woken;
    match s.fish[i].pc
    case PassNext(j) => SpendSignal(s, i, FreeMutex, s.turn[j]);
    case FreeMutex => SpendSignal(s, i, TakeTurn, s.mutex);
    case LastFree => SpendSignal(s, i, Gone, s.mutex);
  }

  lemma NoCrash(s: Tank, i: nat)
    requires CanStep(s, i) && (Picking(s.fish[i].pc) ==> !Step(s, i).crashed)
    ensures !Step(s, i).crashed
  {
  }

  lemma SpendMove(s: Tank, i: nat)
    requires CanStep(s, i) && !Step(s, i).crashed
    requires !s.fish[i].pc.PassNext? && !s.fish[i].pc.FreeMutex? && !s.fish[i].pc.WakeGt? && !s.fish[i].pc.WakeLt?
    requires !s.fish[i].pc.WakeUs? && !s.fish[i].pc.LastFree?
    ensures Budget(Step(s, i)) <= Budget(s) - 1
  {
    SumUpdate(Weight, s.fish, i, Step(s, i).fish[i]);
  }

  lemma SpendWake(s: Tank, i: nat)
    requires CanStep(s, i) && (s.fish[i].pc.WakeGt? || s.fish[i].pc.WakeLt? || s.fish[i].pc.WakeUs?)
    ensures Budget(Step(s, i)) <= Budget(s) - 1
  {
    hide Woken;
    if s.fish[i].pc.WakeGt? {
      SpendSignal(s, i, WakeLt, s.turn[GT]);
    } else if s.fish[i].pc.WakeLt? {
      SpendSignal(s, i, WakeUs, s.turn[LT]);
    } else {
      SpendSignal(s, i, LastFree, s.turn[US]);
    }
  }

  lemma SpendSignal(s: Tank, i: nat, next: Place, sem: Sem)
    requires CanStep(s, i)
    ensures Sum(Weight, Woken(sem, Goto(s, i, next).fish))
         == Sum(Weight, s.fish) - Weight(s.fish[i]) + Weight(Fish(next, false))
  {
    var mid := Goto(s, i, next);
    SumUpdate(Weight, s.fish, i, mid.fish[i]);
    WakingIsFree(sem, mid.fish);
  }

  lemma SameTotal(s: Tank, i: nat)
    requires CanStep(s, i)
    ensures Step(s, i).total == s.total
  {
  }

  lemma {:induction false} RunKeepsInv(s: Tank, who: seq<nat>)
    requires Inv(s) && IsSchedule(s, who)
    ensures Inv(Run(s, who)) && Run(s, who).total == s.total
    ensures |who| + Budget(Run(s, who)) <= Budget(s)
    decreases |who|
  {
    if who != [] {
      hide Inv;
      hide Step;
      hide Weight;
      hide Budget;
      StepKeepsInv(s, who[0]);
      StepSpends(s, who[0]);
      SameTotal(s, who[0]);
      RunKeepsInv(Step(s, who[0]), who[1..]);
    }
  }

  // ---------------------------------------------------------------------
  // The song
  // ---------------------------------------------------------------------

  /** Until all have gone somebody can go on. */
  lemma NoDeadlock(s: Tank)
    requires Inv(s)
    ensures AllGone(s) || exists i :: CanStep(s, i)
  {
    if s.mutex.queue != [] {
      OwnerSteps(s);
    } else if Calm(s) {
      TurnSteps(s);
    } else {
      LeaverSteps(s);
    }
    assert AllGone(s) || CanStep(s, 0) || CanStep(s, 1) || CanStep(s, 2);
  }

  lemma OwnerSteps(s: Tank)
    requires Base(s) && s.mutex.queue != []
    ensures CanStep(s, 0) || CanStep(s, 1) || CanStep(s, 2)
  {
    assert TurnOk(s, 0) && TurnOk(s, 1) && TurnOk(s, 2);
    SumThree(Inside, s.fish);
    SumThree(Queued, s.fish);
  }

  lemma TurnSteps(s: Tank)
    requires Base(s) && s.mutex.queue == [] && Calm(s)
    ensures CanStep(s, 0) || CanStep(s, 1) || CanStep(s, 2)
  {
    assert TurnOk(s, 0) && TurnOk(s, 1) && TurnOk(s, 2);
    hide HolderOk;
  }

  lemma LeaverSteps(s: Tank)
    requires Base(s) && s.mutex.queue == [] && Closing(s)
    ensures AllGone(s) || CanStep(s, 0) || CanStep(s, 1) || CanStep(s, 2)
  {
    assert TurnOk(s, 0) && TurnOk(s, 1) && TurnOk(s, 2);
  }

  /** In every interleaving the output is a prefix of the repeated block, never longer than
      `total`, and the `unreachable` arm is not reached. Every run is at most
      16 * total + 24 steps long; while a process remains one can step; and when all have
      gone exactly `total` characters have been printed. */
  lemma TheSong(total: nat, who: seq<nat>)
    requires IsSchedule(Start(total), who)
    ensures var end := Run(Start(total), who);
            && !end.crashed
            && |end.output| <= total && end.output == Song(|end.output|)
            && |who| <= 16 * total + 24
            && (AllGone(end) ==> end.output == Song(total))
            && (!AllGone(end) ==> exists i :: CanStep(end, i))
  {
    StartInv(total);
    RunKeepsInv(Start(total), who);
    var end := Run(Start(total), who);
    SumThree(Weight, Start(total).fish);
    LeastWeight(end);
    NoDeadlock(end);
    if AllGone(end) {
      Finale(end);
    }
    SongSoFar(end);
    hide Inv;
    hide Step;
    hide Song;
    hide Weight;
  }

  lemma LeastWeight(s: Tank)
    requires Inv(s)
    ensures Sum(Weight, s.fish) >= 36
  {
    hide Calm;
    hide Closing;
    SumThree(Weight, s.fish);
  }

  lemma Finale(s: Tank)
    requires Inv(s) && AllGone(s)
    ensures s.output == Song(s.total)
  {
    hide Song;
    assert Leaving(s.fish[0]);
  }

  lemma SongSoFar(s: Tank)
    requires Inv(s)
    ensures !s.crashed && |s.output| <= s.total && s.output == Song(|s.output|)
  {
  }

  predicate Uncounted(f: Fish) { f.pc.CountPrint? || f.pc.CountStore? }

  /** The counter follows the output: it differs, by one, only while the process that has just
      printed has not yet counted its character. */
  lemma CounterFollows(total: nat, who: seq<nat>)
    requires IsSchedule(Start(total), who)
    ensures var end := Run(Start(total), who);
            end.printed == |end.output|
              - if exists i :: 0 <= i < |end.fish| && Uncounted(end.fish[i]) then 1 else 0
  {
    StartInv(total);
    RunKeepsInv(Start(total), who);
    Behind(Run(Start(total), who));
  }

  lemma Behind(s: Tank)
    requires Inv(s)
    ensures s.printed == |s.output| - if exists i :: 0 <= i < |s.fish| && Uncounted(s.fish[i]) then 1 else 0
  {
    hide Song;
    hide Singer;
    hide TurnOk;
    hide MutexOk;
    if i :| 0 <= i < |s.fish| && Uncounted(s.fish[i]) {
      assert Holds(s.fish[i]) && Holder(s) == i;
    } else if Calm(s) && Holder(s) < 3 {
      assert HolderOk(s, Holder(s));
    }
  }
}
