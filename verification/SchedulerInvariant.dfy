/** What every kernel call keeps: each live process is current, or Ready and queued once, or
    Blocked and on exactly one wait list once. */
module SchedulerInvariant {
  import opened Common
  import opened Semaphores
  import opened Scheduler

  /** A wait list. `InHand` is the list a call has detached and is about to wake. */
  datatype Loc = InHand | OnJoin(target: Pid) | OnSem(data: nat, key: Key)

  type Waits = map<Pid, seq<Pid>>
  type Tables = map<nat, SemTable>

  function Line(w: Waits, t: Tables, hand: seq<Pid>, loc: Loc): seq<Pid> {
    match loc
    case InHand => hand
    case OnJoin(q) => if q in w then w[q] else []
    case OnSem(d, key) => if d in t && key in t[d] then t[d][key].queue else []
  }

  predicate NoDup(s: seq<Pid>) {
    forall i, j :: 0 <= i < j < |s| ==> s[i] != s[j]
  }

  ghost predicate LinesOk(procs: map<Pid, Proc>, w: Waits, t: Tables, hand: seq<Pid>) {
    && (forall loc :: NoDup(Line(w, t, hand, loc)))
    && (forall loc, p :: p in Line(w, t, hand, loc) ==> p in procs && procs[p].status == Blocked)
    && (forall p, l, m :: p in Line(w, t, hand, l) && p in Line(w, t, hand, m) ==> l == m)
  }

  predicate QueueOk(procs: map<Pid, Proc>, ready: seq<Pid>, hole: Option<Pid>) {
    && (forall i :: 0 <= i < |ready| ==> ready[i] in procs && procs[ready[i]].status in {Ready, Dead})
    && (forall i, j :: 0 <= i < j < |ready| && ready[i] == ready[j] ==> procs[ready[i]].status == Dead)
    && (hole.Some? ==> hole.value in procs && hole.value !in ready)
  }

  ghost predicate OnSomeLine(w: Waits, t: Tables, hand: seq<Pid>, p: Pid) {
    exists loc :: p in Line(w, t, hand, loc)
  }

  ghost predicate ProcOk(k: Kernel, hole: Option<Pid>, hand: seq<Pid>, p: Pid)
    requires p in k.procs
  {
    var x := k.procs[p];
    && KERNEL_PID <= p < k.nextPid && x.data in k.sems
    && (x.exitCode.Some? <==> x.status == Dead)
    && match x.status
       case Ready => hole == Some(p) || p in k.ready
       case Running => hole == Some(p)
       case Blocked => hole != Some(p) && OnSomeLine(k.waiters, k.sems, hand, p)
       case Dead => hole != Some(p)
  }

  predicate Ascending(s: seq<Pid>) {
    forall i, j :: 0 <= i < j < |s| ==> s[i] < s[j]
  }

  /** Wait sets are kept ascending, and nobody is joined on a dead process. */
  predicate JoinsOk(procs: map<Pid, Proc>, w: Waits) {
    && (forall q :: q in w ==> Ascending(w[q]))
    && (forall q :: q in w && q in procs && procs[q].status == Dead ==> w[q] == [])
  }

  predicate SemsOk(t: Tables) {
    forall d, key :: d in t && key in t[d] && t[d][key].count > 0 ==> t[d][key].queue == []
  }

  /** Pid 1 is never blocked or dead. */
  predicate InitOk(procs: map<Pid, Proc>) {
    KERNEL_PID in procs && procs[KERNEL_PID].status in {Ready, Running}
  }

  /** `hole` is the process that has the processor, if any; `hand` a detached wait list. */
  ghost predicate Placed(k: Kernel, hole: Option<Pid>, hand: seq<Pid>) {
    && LinesOk(k.procs, k.waiters, k.sems, hand)
    && QueueOk(k.procs, k.ready, hole)
    && (forall p :: p in k.procs ==> ProcOk(k, hole, hand, p))
    && JoinsOk(k.procs, k.waiters)
    && SemsOk(k.sems)
    && InitOk(k.procs)
    && k.nextPid > KERNEL_PID && (forall d :: d in k.sems ==> d < k.nextPid)
  }

  ghost predicate Inv(k: Kernel) {
    Placed(k, Some(k.current), [])
  }

  lemma BootInv(cpu: Context)
    ensures Inv(Boot(cpu))
  {
  }

  // ---------------------------------------------------------------------
  // The parts of a call
  // ---------------------------------------------------------------------

  lemma SavePlaced(k: Kernel)
    requires Inv(k)
    ensures Placed(Save(k), Some(k.current), [])
    ensures k.current in k.procs && Save(k).procs[k.current].status == Ready
    ensures Save(k).procs[k.current].context == k.cpu
  {
    assert ProcOk(k, Some(k.current), [], k.current);
    forall p | p in k.procs ensures ProcOk(Save(k), Some(k.current), [], p) {
      assert ProcOk(k, Some(k.current), [], p);
    }
  }

  /** The process that has the processor goes to the end of the queue. */
  lemma PushPlaced(k: Kernel, c: Pid, hand: seq<Pid>)
    requires Placed(k, Some(c), hand) && IsReady(k, c)
    ensures Placed(PushReady(k, c), None, hand)
  {
    var k' := PushReady(k, c);
    forall p | p in k'.procs ensures ProcOk(k', None, hand, p) {
      assert ProcOk(k, Some(c), hand, p);
    }
  }

  /** Popping an entry that is not Ready loses nobody. */
  lemma PopPlaced(k: Kernel)
    requires Placed(k, None, []) && k.ready != [] && !IsReady(k, k.ready[0])
    ensures Placed(k.(ready := k.ready[1..]), None, [])
  {
    hide Line;
    hide OnSomeLine;
    var k' := k.(ready := k.ready[1..]);
    forall p | p in k'.procs ensures ProcOk(k', None, [], p) {
      assert ProcOk(k, None, [], p);
      if p in k.ready {
        assert k.ready == [k.ready[0]] + k.ready[1..];
      }
    }
  }

  /** The first Ready process leaves the queue and has the processor. */
  lemma TakePlaced(k: Kernel, k': Kernel)
    requires Placed(k, None, []) && k.ready != [] && IsReady(k, k.ready[0])
    requires var next := k.ready[0];
             || k' == k.(ready := k.ready[1..])
             || k' == SetStatus(k.(ready := k.ready[1..]), next, Running)
                        .(current := k'.current, cpu := k'.cpu)
    ensures Placed(k', Some(k.ready[0]), [])
  {
    hide Ascending;
    hide NoDup;
    hide Line;
    hide OnSomeLine;
    var next := k.ready[0];
    TakeQueue(k.procs, k.ready, k'.procs);
    TakeLines(k, next, k'.procs);
    hide LinesOk;
    hide QueueOk;
    forall p | p in k'.procs ensures ProcOk(k', Some(next), [], p) {
      assert ProcOk(k, None, [], p);
      TakeProc(k, k', p);
    }
  }

  lemma TakeProc(k: Kernel, k': Kernel, p: Pid)
    requires k.ready != [] && IsReady(k, k.ready[0]) && k'.procs.Keys == k.procs.Keys && p in k.procs
    requires p != k.ready[0] ==> k'.procs[p] == k.procs[p]
    requires p == k.ready[0] ==>
               && k'.procs[p] == k.procs[p].(status := k'.procs[p].status)
               && k'.procs[p].status in {Ready, Running}
    requires k'.waiters == k.waiters && k'.sems == k.sems && k'.nextPid == k.nextPid && k'.ready == k.ready[1..]
    requires ProcOk(k, None, [], p)
    ensures ProcOk(k', Some(k.ready[0]), [], p)
  {
    hide OnSomeLine;
    assert k.ready == [k.ready[0]] + k.ready[1..];
  }

  lemma TakeLines(k: Kernel, next: Pid, procs': map<Pid, Proc>)
    requires LinesOk(k.procs, k.waiters, k.sems, []) && next in k.procs && k.procs[next].status == Ready
    requires procs'.Keys == k.procs.Keys && forall p :: p in k.procs && p != next ==> procs'[p] == k.procs[p]
    ensures LinesOk(procs', k.waiters, k.sems, [])
  {
  }

  lemma TakeQueue(procs: map<Pid, Proc>, ready: seq<Pid>, procs': map<Pid, Proc>)
    requires QueueOk(procs, ready, None) && ready != [] && procs[ready[0]].status == Ready
    requires procs'.Keys == procs.Keys && forall p :: p in procs && p != ready[0] ==> procs'[p] == procs[p]
    ensures QueueOk(procs', ready[1..], Some(ready[0]))
  {
  }

  /** Switching always finds a Ready process: at the latest, pid 1. */
  lemma {:induction false} SwitchInv(k: Kernel)
    requires Placed(k, None, [])
    ensures Inv(SwitchNext(k))
    decreases |k.ready|
  {
    assert ProcOk(k, None, [], KERNEL_PID);
    var next := k.ready[0];
    if !IsReady(k, next) {
      PopPlaced(k);
      SwitchInv(k.(ready := k.ready[1..]));
    } else {
      TakePlaced(k, SwitchNext(k));
    }
  }

  /** The head of the list in hand becomes Ready and is queued. */
  lemma WakeUpPlaced(k: Kernel, hole: Option<Pid>, hand: seq<Pid>, ret: Option<int>)
    requires Placed(k, hole, hand) && hand != []
    ensures Placed(WakeProc(k, hand[0], ret), hole, hand[1..])
  {
    hide Ascending;
    hide NoDup;
    var w, k' := hand[0], WakeProc(k, hand[0], ret);
    assert w in Line(k.waiters, k.sems, hand, InHand);
    assert ProcOk(k, hole, hand, w);
    assert LinesOk(k'.procs, k.waiters, k.sems, hand[1..]) by {
      WakeUpLines(k, hand, k'.procs);
    }
    assert QueueOk(k'.procs, k'.ready, hole) by {
      WakeUpQueue(k, hole, hand, ret);
    }
    hide LinesOk;
    hide QueueOk;
    forall p | p in k'.procs ensures ProcOk(k', hole, hand[1..], p) {
      WakeUpProc(k, hole, hand, ret, p);
    }
  }

  lemma WakeUpQueue(k: Kernel, hole: Option<Pid>, hand: seq<Pid>, ret: Option<int>)
    requires QueueOk(k.procs, k.ready, hole) && hand != [] && hand[0] in k.procs
    requires k.procs[hand[0]].status == Blocked && hole != Some(hand[0])
    ensures QueueOk(WakeProc(k, hand[0], ret).procs, WakeProc(k, hand[0], ret).ready, hole)
  {
  }

  lemma WakeUpProc(k: Kernel, hole: Option<Pid>, hand: seq<Pid>, ret: Option<int>, p: Pid)
    requires Placed(k, hole, hand) && hand != [] && p in WakeProc(k, hand[0], ret).procs
    ensures ProcOk(WakeProc(k, hand[0], ret), hole, hand[1..], p)
  {
    hide Ascending;
    hide NoDup;
    var w, rest := hand[0], hand[1..];
    assert hand == [w] + rest;
    assert w in Line(k.waiters, k.sems, hand, InHand);
    assert ProcOk(k, hole, hand, p);
    if p != w && k.procs[p].status == Blocked {
      var loc :| p in Line(k.waiters, k.sems, hand, loc);
      assert p in Line(k.waiters, k.sems, rest, loc);
    }
  }

  lemma TailFacts(q: seq<Pid>)
    requires NoDup(q) && q != []
    ensures NoDup(q[1..]) && forall x :: x in q[1..] <==> x in q && x != q[0]
  {
    assert q == [q[0]] + q[1..];
  }

  lemma WakeUpLines(k: Kernel, hand: seq<Pid>, procs: map<Pid, Proc>)
    requires LinesOk(k.procs, k.waiters, k.sems, hand) && hand != []
    requires forall p :: p in k.procs && p != hand[0] ==> p in procs && procs[p] == k.procs[p]
    ensures LinesOk(procs, k.waiters, k.sems, hand[1..])
  {
    assert Line(k.waiters, k.sems, hand, InHand) == hand;
    assert forall l ::
      Line(k.waiters, k.sems, hand[1..], l) == if l == InHand then hand[1..] else Line(k.waiters, k.sems, hand, l);
    DropHead(k.procs, k.waiters, k.sems, hand, procs, k.sems, hand[1..], InHand);
  }

  /** One list loses its head, and with it the head loses its only place. */
  lemma DropHead(procs: map<Pid, Proc>, w: Waits, t: Tables, hand: seq<Pid>,
                 procs': map<Pid, Proc>, t': Tables, hand': seq<Pid>, loc: Loc)
    requires LinesOk(procs, w, t, hand) && Line(w, t, hand, loc) != []
    requires forall l :: Line(w, t', hand', l) == if l == loc then Line(w, t, hand, loc)[1..] else Line(w, t, hand, l)
    requires forall p :: p in procs && p != Line(w, t, hand, loc)[0] ==> p in procs' && procs'[p] == procs[p]
    ensures LinesOk(procs', w, t', hand')
    ensures forall l :: Line(w, t, hand, loc)[0] !in Line(w, t', hand', l)
  {
    hide Line;
    var q := Line(w, t, hand, loc);
    assert NoDup(q);
    TailFacts(q);
    assert q[0] in q;
    forall l ensures NoDup(Line(w, t', hand', l)) && q[0] !in Line(w, t', hand', l) {
      assert NoDup(Line(w, t, hand, l));
    }
    forall l, p | p in Line(w, t', hand', l) ensures p in Line(w, t, hand, l) {
    }
  }

  /** A process that is on no list is taken in hand. */
  lemma TakeInHand(procs: map<Pid, Proc>, w: Waits, t: Tables, p: Pid)
    requires LinesOk(procs, w, t, []) && p in procs && procs[p].status == Blocked
    requires forall l :: p !in Line(w, t, [], l)
    ensures LinesOk(procs, w, t, [p])
  {
    assert forall l :: Line(w, t, [p], l) == if l == InHand then [p] else Line(w, t, [], l);
    hide Line;
    forall l ensures NoDup(Line(w, t, [p], l)) {
      assert NoDup(Line(w, t, [], l));
    }
    forall l, x | x in Line(w, t, [p], l) ensures if l == InHand then x == p else x in Line(w, t, [], l) && x != p {
    }
  }

  lemma {:induction false} WakeAllPlaced(k: Kernel, hole: Option<Pid>, hand: seq<Pid>, ret: int)
    requires Placed(k, hole, hand)
    ensures Placed(WakeAll(k, hand, ret), hole, [])
    decreases |hand|
  {
    if hand != [] {
      WakeUpPlaced(k, hole, hand, Some(ret));
      WakeAllPlaced(WakeProc(k, hand[0], Some(ret)), hole, hand[1..], ret);
    }
  }

  lemma DetachLines(k: Kernel, v: Pid, procs: map<Pid, Proc>)
    requires LinesOk(k.procs, k.waiters, k.sems, [])
    requires v in k.procs && k.procs[v].status != Blocked
    requires forall p :: p in k.procs && p != v ==> p in procs && procs[p] == k.procs[p]
    ensures LinesOk(procs, k.waiters - {v}, k.sems, Waiters(k, v))
  {
    var w, hand := k.waiters - {v}, Waiters(k, v);
    forall p, l | p in Line(w, k.sems, hand, l)
      ensures p in Line(k.waiters, k.sems, [], if l == InHand then OnJoin(v) else l)
      ensures l != OnJoin(v)
    {
    }
    forall l ensures NoDup(Line(w, k.sems, hand, l)) {
      assert NoDup(Line(k.waiters, k.sems, [], if l == InHand then OnJoin(v) else l));
    }
  }

  /** Killing detaches the victim's waiters. */
  lemma MarkDeadPlaced(k: Kernel, v: Pid, ret: int)
    requires Inv(k) && v in k.procs && v != KERNEL_PID && k.procs[v].status != Blocked
    ensures Placed(MarkDead(k, v, ret), if v == k.current then None else Some(k.current), Waiters(k, v))
  {
    var k' := MarkDead(k, v, ret);
    var hole, hand := if v == k.current then None else Some(k.current), Waiters(k, v);
    assert ProcOk(k, Some(k.current), [], v);
    DetachLines(k, v, k'.procs);
    hide Line;
    DeadQueue(k.procs, k.ready, k.current, v, k'.procs[v]);
    forall p | p in k'.procs ensures ProcOk(k', hole, hand, p) {
      assert ProcOk(k, Some(k.current), [], p);
      DetachProc(k, v, ret, p);
    }
  }

  lemma DeadQueue(procs: map<Pid, Proc>, ready: seq<Pid>, c: Pid, v: Pid, x: Proc)
    requires QueueOk(procs, ready, Some(c)) && v in procs && x.status == Dead
    ensures QueueOk(procs[v := x], ready, if v == c then None else Some(c))
  {
  }

  lemma DetachProc(k: Kernel, v: Pid, ret: int, p: Pid)
    requires v in k.procs && p in k.procs && ProcOk(k, Some(k.current), [], v) && ProcOk(k, Some(k.current), [], p)
    requires k.procs[v].status != Blocked
    ensures ProcOk(MarkDead(k, v, ret), if v == k.current then None else Some(k.current), Waiters(k, v), p)
  {
    if p != v && k.procs[p].status == Blocked {
      var loc :| p in Line(k.waiters, k.sems, [], loc);
      var k' := MarkDead(k, v, ret);
      assert p in Line(k'.waiters, k'.sems, Waiters(k, v), if loc == OnJoin(v) then InHand else loc);
    }
  }

  lemma KillPlaced(k: Kernel, v: Pid, ret: int)
    requires Inv(k) && v in k.procs && v != KERNEL_PID && k.procs[v].status != Blocked
    ensures Placed(Kill(k, v, ret), if v == k.current then None else Some(k.current), [])
  {
    MarkDeadPlaced(k, v, ret);
    WakeAllPlaced(MarkDead(k, v, ret), if v == k.current then None else Some(k.current), Waiters(k, v), ret);
  }

  /** One wait list gains the process that has the processor; the others are as before. */
  ghost predicate Joined(k: Kernel, w: Waits, t: Tables, loc: Loc) {
    && loc != InHand
    && (forall l :: l != loc ==> Line(w, t, [], l) == Line(k.waiters, k.sems, [], l))
    && NoDup(Line(w, t, [], loc))
    && (forall p :: p in Line(w, t, [], loc) <==> p in Line(k.waiters, k.sems, [], loc) || p == k.current)
  }

  lemma BlockLines(k: Kernel, procs: map<Pid, Proc>, w: Waits, t: Tables, loc: Loc)
    requires LinesOk(k.procs, k.waiters, k.sems, []) && Joined(k, w, t, loc)
    requires k.current in k.procs && k.procs[k.current].status != Blocked
    requires k.current in procs && procs[k.current].status == Blocked
    requires forall p :: p in k.procs && p != k.current ==> p in procs && procs[p] == k.procs[p]
    ensures LinesOk(procs, w, t, [])
  {
    hide Line;
    forall p, l | p in Line(w, t, [], l) && p != k.current ensures p in Line(k.waiters, k.sems, [], l) {
      if l == loc { assert p in Line(w, t, [], loc); }
    }
    forall l | l != loc ensures k.current !in Line(w, t, [], l) {
      assert Line(w, t, [], l) == Line(k.waiters, k.sems, [], l);
    }
    forall l ensures NoDup(Line(w, t, [], l)) {
      assert NoDup(Line(k.waiters, k.sems, [], l));
    }
  }

  /** The process that has the processor goes onto one wait list. */
  lemma BlockPlaced(k: Kernel, k': Kernel, loc: Loc)
    requires Inv(k) && k.current != KERNEL_PID && Joined(k, k'.waiters, k'.sems, loc)
    requires k'.ready == k.ready && k'.nextPid == k.nextPid
    requires k'.procs.Keys == k.procs.Keys && k'.sems.Keys == k.sems.Keys
    requires forall p :: p in k.procs && p != k.current ==> k'.procs[p] == k.procs[p]
    requires k.current in k.procs && k'.procs[k.current].status == Blocked
    requires k'.procs[k.current].data == k.procs[k.current].data && k'.procs[k.current].exitCode.None?
    requires JoinsOk(k'.procs, k'.waiters) && SemsOk(k'.sems)
    ensures Placed(k', None, [])
  {
    hide Line;
    hide Ascending;
    hide NoDup;
    assert ProcOk(k, Some(k.current), [], k.current);
    BlockLines(k, k'.procs, k'.waiters, k'.sems, loc);
    forall p | p in k'.procs ensures ProcOk(k', None, [], p) {
      assert ProcOk(k, Some(k.current), [], p);
      if p == k.current {
        assert p in Line(k'.waiters, k'.sems, [], loc);
      } else if k.procs[p].status == Blocked {
        var l :| p in Line(k.waiters, k.sems, [], l);
        assert p in Line(k'.waiters, k'.sems, [], l);
      }
    }
  }

  /** Queueing at the end of a list that does not hold the process. */
  lemma AppendJoined(k: Kernel, w: Waits, t: Tables, loc: Loc)
    requires loc != InHand && forall l :: l != loc ==> Line(w, t, [], l) == Line(k.waiters, k.sems, [], l)
    requires Line(w, t, [], loc) == Line(k.waiters, k.sems, [], loc) + [k.current]
    requires NoDup(Line(k.waiters, k.sems, [], loc)) && k.current !in Line(k.waiters, k.sems, [], loc)
    ensures Joined(k, w, t, loc)
  {
  }

  /** Insertion adds one member and keeps the list ascending, hence free of duplicates. */
  lemma {:induction false} InsertFacts(s: seq<Pid>, p: Pid)
    requires Ascending(s)
    ensures Ascending(Insert(s, p)) && NoDup(Insert(s, p))
    ensures forall x :: x in Insert(s, p) <==> x in s || x == p
  {
    if s == [] {
    } else if p > s[0] {
      InsertFacts(s[1..], p);
      var r := Insert(s[1..], p);
      assert s == [s[0]] + s[1..] && Insert(s, p) == [s[0]] + r;
      forall x | x in r ensures s[0] < x {}
      assert forall x :: x in [s[0]] + r <==> x == s[0] || x in r;
    } else if p < s[0] {
      assert Insert(s, p) == [p] + s;
      forall x | x in s ensures s[0] <= x {}
    }
  }

  // ---------------------------------------------------------------------
  // The calls
  // ---------------------------------------------------------------------

  /** A new process, perhaps with a new table: every wait list is as before. */
  lemma AddProcPlaced(k: Kernel, hole: Option<Pid>, x: Proc, t: Tables)
    requires Placed(k, hole, []) && x.status == Ready && x.exitCode.None? && x.data in t
    requires k.sems.Keys <= t.Keys && SemsOk(t) && (forall d :: d in t ==> d <= k.nextPid)
    requires forall loc :: Line(k.waiters, t, [], loc) == Line(k.waiters, k.sems, [], loc)
    ensures Placed(AddProc(k, x).(sems := t), hole, [])
  {
    var k' := AddProc(k, x).(sems := t);
    forall p | p in k.procs ensures p < k.nextPid {
      assert ProcOk(k, hole, [], p);
    }
    AddQueue(k.procs, k.ready, hole, k.nextPid, x);
    SameLines(k.procs, k.waiters, k.sems, t);
    forall p | p in k'.procs ensures ProcOk(k', hole, [], p) {
      if p in k.procs {
        assert ProcOk(k, hole, [], p);
        StillOnLine(k, t, p);
      }
    }
  }

  lemma AddQueue(procs: map<Pid, Proc>, ready: seq<Pid>, hole: Option<Pid>, p: Pid, x: Proc)
    requires QueueOk(procs, ready, hole) && p !in procs && x.status == Ready
    ensures QueueOk(procs[p := x], ready + [p], hole)
  {
  }

  lemma StillOnLine(k: Kernel, t: Tables, p: Pid)
    requires forall loc :: Line(k.waiters, t, [], loc) == Line(k.waiters, k.sems, [], loc)
    ensures OnSomeLine(k.waiters, k.sems, [], p) ==> OnSomeLine(k.waiters, t, [], p)
  {
    if OnSomeLine(k.waiters, k.sems, [], p) {
      var loc :| p in Line(k.waiters, k.sems, [], loc);
      assert p in Line(k.waiters, t, [], loc);
    }
  }

  lemma TimerInv(k: Kernel)
    requires Inv(k)
    ensures Inv(Do(k, Timer))
  {
    SavePlaced(k);
    PushPlaced(Save(k), k.current, []);
    SwitchInv(PushReady(Save(k), k.current));
  }

  lemma ExitInv(k: Kernel, ret: int)
    requires Inv(k) && k.current != KERNEL_PID
    ensures Inv(SwitchNext(Kill(k, k.current, ret)))
  {
    assert ProcOk(k, Some(k.current), [], k.current);
    KillPlaced(k, k.current, ret);
    SwitchInv(Kill(k, k.current, ret));
  }

  /** Changing a context, or Running into Ready, moves nobody. */
  lemma TouchPlaced(k: Kernel, p: Pid, x: Proc)
    requires Inv(k) && p in k.procs && x.status == k.procs[p].status
    requires x.exitCode == k.procs[p].exitCode && x.data == k.procs[p].data
    ensures Inv(SetProc(k, p, x))
  {
    var k' := SetProc(k, p, x);
    forall q | q in k'.procs ensures ProcOk(k', Some(k'.current), [], q) {
      assert ProcOk(k, Some(k.current), [], q);
    }
  }

  lemma ForkPlaced(k: Kernel, offset: int)
    requires Inv(k) && IsReady(k, k.current)
    ensures Placed(Fork(k, offset), Some(k.current), []) && IsReady(Fork(k, offset), k.current)
  {
    var parent := k.procs[k.current];
    var k' := SetProc(k, k.current, ParentOf(parent, k.nextPid));
    assert ProcOk(k, Some(k.current), [], k.current);
    TouchPlaced(k, k.current, ParentOf(parent, k.nextPid));
    AddProcPlaced(k', Some(k.current), ChildOf(parent, offset), k'.sems);
    assert AddProc(k', ChildOf(parent, offset)).(sems := k'.sems) == Fork(k, offset);
  }

  lemma VForkInv(k: Kernel, offset: int)
    requires Inv(k)
    ensures Inv(Do(k, VFork(offset)))
  {
    hide Placed;
    SavePlaced(k);
    ForkPlaced(Save(k), offset);
    PushPlaced(Fork(Save(k), offset), k.current, []);
    SwitchInv(PushReady(Fork(Save(k), offset), k.current));
  }

  lemma SpawnInv(k: Kernel, start: Context)
    requires Inv(k)
    ensures Inv(Do(k, Spawn(start)))
  {
    hide Placed;
    CallerFacts(k);
    var t, x := k.sems[k.nextPid := map[]], Proc(Ready, start, None, 0, k.nextPid);
    assert forall loc :: Line(k.waiters, t, [], loc) == Line(k.waiters, k.sems, [], loc);
    AddProcPlaced(k, Some(k.current), x, t);
    SameParts(AddProc(k, x).(sems := t), Do(k, Spawn(start)));
  }

  /** The registers are not part of the invariant. */
  lemma SameParts(k: Kernel, k': Kernel)
    requires Inv(k) && k' == k.(cpu := k'.cpu)
    ensures Inv(k')
  {
    forall q | q in k.procs ensures ProcOk(k', Some(k.current), [], q) {
      assert ProcOk(k, Some(k.current), [], q);
    }
  }

  /** New tables whose wait lists are the same, whatever their counters. */
  lemma NewTablesInv(k: Kernel, t: Tables)
    requires Inv(k) && t.Keys == k.sems.Keys && SemsOk(t)
    requires forall loc :: Line(k.waiters, t, [], loc) == Line(k.waiters, k.sems, [], loc)
    ensures Inv(k.(sems := t))
  {
    var k' := k.(sems := t);
    SameLines(k.procs, k.waiters, k.sems, t);
    forall q | q in k'.procs ensures ProcOk(k', Some(k'.current), [], q) {
      assert ProcOk(k, Some(k.current), [], q);
      StillOnLine(k, t, q);
    }
  }

  lemma SameLines(procs: map<Pid, Proc>, w: Waits, t: Tables, t': Tables)
    requires LinesOk(procs, w, t, [])
    requires forall loc :: Line(w, t', [], loc) == Line(w, t, [], loc)
    ensures LinesOk(procs, w, t', [])
  {
    forall loc ensures NoDup(Line(w, t', [], loc)) {
      assert NoDup(Line(w, t, [], loc));
    }
    forall loc, p | p in Line(w, t', [], loc) ensures p in Line(w, t, [], loc) {}
  }

  lemma KillInv(k: Kernel, high: nat, p: Pid)
    requires Inv(k) && p in k.procs && Allowed(k, KillPid(high, p))
    ensures Inv(Do(k, KillPid(high, p)))
  {
    if p == k.current && p != KERNEL_PID {
      ExitInv(k, KILLED);
    } else if p != KERNEL_PID {
      hide Placed;
      KillPlaced(k, p, KILLED);
      WakeAllKeeps(MarkDead(k, p, KILLED), Waiters(k, p), KILLED);
    }
  }

  lemma {:induction false} WakeAllKeeps(k: Kernel, ps: seq<Pid>, ret: int)
    ensures var k' := WakeAll(k, ps, ret);
            && k'.current == k.current && k'.cpu == k.cpu && k'.nextPid == k.nextPid
            && k'.waiters == k.waiters && k'.sems == k.sems && k'.procs.Keys == k.procs.Keys
    decreases |ps|
  {
    if ps != [] {
      WakeAllKeeps(WakeProc(k, ps[0], Some(ret)), ps[1..], ret);
    }
  }

  /** What a call may use about the process that makes it. */
  lemma CallerFacts(k: Kernel)
    requires Inv(k)
    ensures k.current in k.procs && k.procs[k.current].status in {Ready, Running}
    ensures k.procs[k.current].exitCode.None? && k.procs[k.current].data in k.sems
    ensures forall loc :: NoDup(Line(k.waiters, k.sems, [], loc)) && k.current !in Line(k.waiters, k.sems, [], loc)
    ensures SemsOk(k.sems) && JoinsOk(k.procs, k.waiters) && (forall d :: d in k.sems ==> d < k.nextPid)
    ensures forall p :: p in k.procs ==> (k.procs[p].exitCode.Some? <==> k.procs[p].status == Dead)
  {
    assert ProcOk(k, Some(k.current), [], k.current);
    forall p | p in k.procs ensures k.procs[p].exitCode.Some? <==> k.procs[p].status == Dead {
      assert ProcOk(k, Some(k.current), [], p);
    }
  }

  lemma WaitPidInv(k: Kernel, q: Pid)
    requires Inv(k) && Allowed(k, WaitPid(q))
    ensures Inv(Do(k, WaitPid(q)))
  {
    hide Placed;
    if ExitCode(k, q).Some? {
      SameParts(k, Do(k, WaitPid(q)));
    } else {
      JoinBlocks(k, q);
      SwitchInv(SetStatus(Save(AddWaiter(k, q)), k.current, Blocked));
    }
  }

  lemma JoinBlocks(k: Kernel, q: Pid)
    requires Inv(k) && k.current != KERNEL_PID && ExitCode(k, q).None?
    ensures Placed(SetStatus(Save(AddWaiter(k, q)), k.current, Blocked), None, [])
  {
    hide Placed;
    CallerFacts(k);
    var k' := SetStatus(Save(AddWaiter(k, q)), k.current, Blocked);
    assert Line(k.waiters, k.sems, [], OnJoin(q)) == Waiters(k, q);
    InsertFacts(Waiters(k, q), k.current);
    assert Joined(k, k'.waiters, k'.sems, OnJoin(q));
    BlockPlaced(k, k', OnJoin(q));
  }

  /** The table of the current process, and what replacing one of its semaphores does. */
  lemma SetKey(k: Kernel, key: Key, sem: Sem)
    requires Inv(k)
    ensures k.current in k.procs && k.procs[k.current].data in k.sems
    ensures Table(k) == k.sems[k.procs[k.current].data]
    ensures var t := SetTable(k, Table(k)[key := sem]).sems;
            && t.Keys == k.sems.Keys
            && (forall loc :: Line(k.waiters, t, [], loc) ==
                  if loc == OnSem(k.procs[k.current].data, key) then sem.queue
                  else Line(k.waiters, k.sems, [], loc))
            && ((sem.count > 0 ==> sem.queue == []) ==> SemsOk(t))
  {
    hide Placed;
    CallerFacts(k);
  }

  /** A semaphore whose queue is empty before and after. */
  lemma QuietTableInv(k: Kernel, key: Key, sem: Sem)
    requires Inv(k) && sem.queue == Line(k.waiters, k.sems, [], OnSem(k.procs[k.current].data, key))
    requires sem.count > 0 ==> sem.queue == []
    ensures Inv(SetTable(k, Table(k)[key := sem]))
  {
    hide Placed;
    SetKey(k, key, sem);
    NewTablesInv(k, SetTable(k, Table(k)[key := sem]).sems);
  }

  /** The processes queued on a semaphore of the current process. */
  function QueueOf(k: Kernel, key: Key): seq<Pid> {
    if key in Table(k) then Table(k)[key].queue else []
  }

  lemma SemNewInv(k: Kernel, key: Key, value: nat)
    requires Inv(k) && QueueOf(k, key) == []
    ensures Inv(Do(k, SemNew(key, value)))
  {
    hide Placed;
    SetKey(k, key, Sem(value, []));
    QuietTableInv(k, key, Sem(value, []));
    SameParts(SetTable(k, Table(k)[key := Sem(value, [])]), Do(k, SemNew(key, value)));
  }

  lemma SemRemoveInv(k: Kernel, key: Key)
    requires Inv(k) && QueueOf(k, key) == []
    ensures Inv(Do(k, SemRemove(key)))
  {
    hide Placed;
    CallerFacts(k);
    SetKey(k, key, Sem(0, []));
    var t := SetTable(k, Table(k) - {key}).sems;
    assert SemsOk(t);
    assert forall loc :: Line(k.waiters, t, [], loc) == Line(k.waiters, k.sems, [], loc);
    NewTablesInv(k, t);
    SameParts(SetTable(k, Table(k) - {key}), Do(k, SemRemove(key)));
  }

  lemma SemWaitInv(k: Kernel, key: Key)
    requires Inv(k) && Allowed(k, SemWait(key))
    ensures Inv(Do(k, SemWait(key)))
  {
    hide Placed;
    CallerFacts(k);
    var r := TableWaitResult(Table(k), key, k.current);
    if r.Block? {
      SemWaitBlocks(k, key);
    } else if r.Granted? {
      var sem := AfterWait(Table(k)[key], k.current);
      SetKey(k, key, sem);
      QuietTableInv(k, key, sem);
      SameParts(SetTable(k, Table(k)[key := sem]), Do(k, SemWait(key)));
    } else {
      SameParts(k, Do(k, SemWait(key)));
    }
  }

  lemma SemWaitBlocks(k: Kernel, key: Key)
    requires Inv(k) && k.current != KERNEL_PID && TableWaitResult(Table(k), key, k.current).Block?
    ensures Inv(Do(k, SemWait(key)))
  {
    hide Placed;
    CallerFacts(k);
    var sem, loc := AfterWait(Table(k)[key], k.current), OnSem(k.procs[k.current].data, key);
    var k' := SetStatus(Save(SetTable(k, Table(k)[key := sem])), k.current, Blocked);
    SetKey(k, key, sem);
    AppendJoined(k, k'.waiters, k'.sems, loc);
    BlockPlaced(k, k', loc);
    SwitchInv(k');
  }

  lemma SemSignalInv(k: Kernel, key: Key)
    requires Inv(k)
    ensures Inv(Do(k, SemSignal(key)))
  {
    hide Placed;
    CallerFacts(k);
    var r := TableSignalResult(Table(k), key);
    if r.WakeUp? {
      SemSignalWakes(k, key);
    } else if r.Granted? {
      var sem := AfterSignal(Table(k)[key]);
      SetKey(k, key, sem);
      QuietTableInv(k, key, sem);
      SameParts(SetTable(k, Table(k)[key := sem]), Do(k, SemSignal(key)));
    } else {
      SameParts(k, Do(k, SemSignal(key)));
    }
  }

  lemma SemSignalWakes(k: Kernel, key: Key)
    requires Inv(k) && TableSignalResult(Table(k), key).WakeUp?
    ensures Inv(Do(k, SemSignal(key)))
  {
    hide Placed;
    var q := QueueOf(k, key);
    var k' := SetTable(k, TableSignal(Table(k), key));
    PopQueuePlaced(k, key);
    WakeUpPlaced(k', Some(k.current), [q[0]], None);
    assert [q[0]][1..] == [];
  }

  /** The head of a semaphore's queue, taken in hand. */
  lemma PopQueuePlaced(k: Kernel, key: Key)
    requires Inv(k) && QueueOf(k, key) != []
    ensures Placed(SetTable(k, TableSignal(Table(k), key)), Some(k.current), [QueueOf(k, key)[0]])
  {
    var q, t := QueueOf(k, key), SetTable(k, TableSignal(Table(k), key)).sems;
    var loc := OnSem(k.procs[k.current].data, key);
    SetKey(k, key, AfterSignal(Table(k)[key]));
    PopQueueLines(k, loc, t);
    forall p | p in k.procs ensures ProcOk(k.(sems := t), Some(k.current), [q[0]], p) {
      assert ProcOk(k, Some(k.current), [], p);
      PopQueueProc(k, loc, t, p);
    }
  }

  lemma PopQueueProc(k: Kernel, loc: Loc, t: Tables, p: Pid)
    requires p in k.procs && ProcOk(k, Some(k.current), [], p) && k.sems.Keys == t.Keys
    requires Line(k.waiters, k.sems, [], loc) != []
    requires forall l :: Line(k.waiters, t, [], l) ==
                         if l == loc then Line(k.waiters, k.sems, [], loc)[1..] else Line(k.waiters, k.sems, [], l)
    ensures ProcOk(k.(sems := t), Some(k.current), [Line(k.waiters, k.sems, [], loc)[0]], p)
  {
    var q := Line(k.waiters, k.sems, [], loc);
    if k.procs[p].status == Blocked {
      var l :| p in Line(k.waiters, k.sems, [], l);
      assert q == [q[0]] + q[1..];
      assert l != InHand;
      assert Line(k.waiters, t, [q[0]], l) == Line(k.waiters, t, [], l);
      assert p in Line(k.waiters, t, [q[0]], if p == q[0] then InHand else l);
    }
  }

  lemma PopQueueLines(k: Kernel, loc: Loc, t: Tables)
    requires LinesOk(k.procs, k.waiters, k.sems, []) && Line(k.waiters, k.sems, [], loc) != []
    requires forall l :: Line(k.waiters, t, [], l) ==
                         if l == loc then Line(k.waiters, k.sems, [], loc)[1..] else Line(k.waiters, k.sems, [], l)
    ensures LinesOk(k.procs, k.waiters, t, [Line(k.waiters, k.sems, [], loc)[0]])
  {
    var q := Line(k.waiters, k.sems, [], loc);
    assert q[0] in q;
    hide Line;
    DropHead(k.procs, k.waiters, k.sems, [], k.procs, t, [], loc);
    TakeInHand(k.procs, k.waiters, t, q[0]);
  }

  // ---------------------------------------------------------------------
  // Every call of every run
  // ---------------------------------------------------------------------

  /** The guard of every call: pid 1 does not exit or block and is not killed, a victim is not blocked, and a semaphore
      that is replaced or removed has nobody queued. */
  predicate Allowed(k: Kernel, call: Call) {
    match call
    case Exit(_) => k.current != KERNEL_PID
    case WaitPid(q) => k.current != KERNEL_PID || ExitCode(k, q).Some?
    case SemWait(key) => k.current != KERNEL_PID || !TableWaitResult(Table(k), key, k.current).Block?
    case KillPid(high, p) =>
      (p == KERNEL_PID ==> IsKernelArgument(high, p)) && (p in k.procs ==> k.procs[p].status != Blocked)
    case SemNew(key, _) => QueueOf(k, key) == []
    case SemRemove(key) => QueueOf(k, key) == []
    case _ => true
  }

  lemma CallInv(k: Kernel, call: Call)
    requires Inv(k) && Allowed(k, call)
    ensures Inv(Do(k, call))
  {
    hide Placed;
    match call
    case Timer => TimerInv(k);
    case Exit(ret) => ExitInv(k, ret);
    case WaitPid(q) => WaitPidInv(k, q);
    case KillPid(high, p) => if p in k.procs { KillInv(k, high, p); } else { CallerFacts(k); }
    case VFork(offset) => VForkInv(k, offset);
    case Spawn(start) => SpawnInv(k, start);
    case SemNew(key, value) => SemNewInv(k, key, value);
    case SemRemove(key) => SemRemoveInv(k, key);
    case SemWait(key) => SemWaitInv(k, key);
    case SemSignal(key) => SemSignalInv(k, key);
    case UserCode(registers) => SameParts(k, Do(k, call));
  }

  /** A run: each call allowed in the state it finds. */
  ghost predicate IsRun(k: Kernel, calls: seq<Call>)
    decreases |calls|
  {
    calls != [] ==> Allowed(k, calls[0]) && IsRun(Do(k, calls[0]), calls[1..])
  }

  lemma {:induction false} RunInv(k: Kernel, calls: seq<Call>)
    requires Inv(k) && IsRun(k, calls)
    ensures Inv(After(k, calls))
    decreases |calls|
  {
    hide Placed;
    if calls != [] {
      CallInv(k, calls[0]);
      RunInv(Do(k, calls[0]), calls[1..]);
    }
  }
}
