/** The kernel's counting semaphores and the per-family table that holds them. */
module Semaphores {
  import opened Common

  type Pid = nat
  type Key = nat

  /** The value of one semaphore: its counter and the processes queued on it. */
  datatype Sem = Sem(count: nat, queue: seq<Pid>)

  datatype SemResult = Granted | NotExist | Block(pid: Pid) | WakeUp(pid: Pid)

  function AfterWait(s: Sem, pid: Pid): Sem {
    if s.count == 0 then s.(queue := s.queue + [pid]) else s.(count := s.count - 1)
  }

  function WaitResult(s: Sem, pid: Pid): SemResult {
    if s.count == 0 then Block(pid) else Granted
  }

  function AfterSignal(s: Sem): Sem {
    if s.queue == [] then s.(count := s.count + 1) else s.(queue := s.queue[1..])
  }

  function SignalResult(s: Sem): SemResult {
    if s.queue == [] then Granted else WakeUp(s.queue[0])
  }

  // ---------------------------------------------------------------------
  // The history law
  // ---------------------------------------------------------------------

  datatype Op = Wait(pid: Pid) | Signal

  /** A semaphore after a history of calls, with the requests it has let through, in order. */
  datatype Ledger = Ledger(sem: Sem, granted: seq<Pid>)

  function Apply(l: Ledger, op: Op): Ledger {
    match op
    case Wait(pid) =>
      Ledger(AfterWait(l.sem, pid), if WaitResult(l.sem, pid).Granted? then l.granted + [pid] else l.granted)
    case Signal =>
      Ledger(AfterSignal(l.sem),
             match SignalResult(l.sem) case WakeUp(pid) => l.granted + [pid] case _ => l.granted)
  }

  function Replay(value: nat, ops: seq<Op>): Ledger {
    if ops == [] then Ledger(Sem(value, []), []) else Apply(Replay(value, ops[..|ops| - 1]), ops[|ops| - 1])
  }

  /** The requests of a history, in arrival order. */
  function Arrivals(ops: seq<Op>): seq<Pid> {
    if ops == [] then []
    else
      var last := ops[|ops| - 1];
      Arrivals(ops[..|ops| - 1]) + if last.Wait? then [last.pid] else []
  }

  function Signals(ops: seq<Op>): nat {
    if ops == [] then 0 else Signals(ops[..|ops| - 1]) + if ops[|ops| - 1].Signal? then 1 else 0
  }

  /** With v units handed out or to be handed out: the first v arrivals have been granted. */
  predicate Lawful(l: Ledger, a: seq<Pid>, v: nat) {
    var g := Min(|a|, v);
    l.granted == a[..g] && l.sem.queue == a[g..] && l.sem.count == v - g
  }

  lemma WaitKeepsLaw(l: Ledger, a: seq<Pid>, v: nat, pid: Pid)
    requires Lawful(l, a, v)
    ensures Lawful(Apply(l, Wait(pid)), a + [pid], v)
  {
    if v <= |a| {
      assert (a + [pid])[..v] == a[..v] && (a + [pid])[v..] == a[v..] + [pid];
    } else {
      assert a[..|a|] == a && (a + [pid])[..|a| + 1] == a + [pid];
    }
  }

  lemma SignalKeepsLaw(l: Ledger, a: seq<Pid>, v: nat)
    requires Lawful(l, a, v)
    ensures Lawful(Apply(l, Signal), a, v + 1)
  {
    if v < |a| {
      assert a[..v] + [a[v..][0]] == a[..v + 1] && a[v..][1..] == a[v + 1..];
    }
  }

  lemma {:induction false} LawHolds(value: nat, ops: seq<Op>)
    ensures Lawful(Replay(value, ops), Arrivals(ops), value + Signals(ops))
  {
    hide Apply;
    if ops == [] {
      assert Replay(value, ops) == Ledger(Sem(value, []), []);
    } else {
      hide Lawful;
      var before := ops[..|ops| - 1];
      LawHolds(value, before);
      match ops[|ops| - 1] {
        case Wait(pid) => WaitKeepsLaw(Replay(value, before), Arrivals(before), value + Signals(before), pid);
        case Signal =>
          SignalKeepsLaw(Replay(value, before), Arrivals(before), value + Signals(before));
          assert Arrivals(before) + [] == Arrivals(before);
      }
    }
  }

  /** After W waits and S signals on a semaphore created with V, exactly the first min(W, V + S)
      requests have been granted, in arrival order; the others are queued, in arrival order. */
  lemma {:induction false} HistoryLaw(value: nat, ops: seq<Op>)
    ensures var l, a, g := Replay(value, ops), Arrivals(ops), Min(|Arrivals(ops)|, value + Signals(ops));
            && l.granted == a[..g]
            && l.sem.queue == a[g..]
            && l.sem.count == value + Signals(ops) - g
  {
    LawHolds(value, ops);
  }

  /** A positive counter means nobody waits, and no request overtakes an earlier one. */
  lemma {:induction false} NoOvertaking(value: nat, ops: seq<Op>)
    ensures Replay(value, ops).sem.count > 0 ==> Replay(value, ops).sem.queue == []
    ensures Replay(value, ops).granted + Replay(value, ops).sem.queue == Arrivals(ops)
  {
    HistoryLaw(value, ops);
  }

  // ---------------------------------------------------------------------
  // The objects
  // ---------------------------------------------------------------------

  class Semaphore {
    var count: nat
    var waitQueue: seq<Pid>

    ghost function Model(): Sem
      reads this
    {
      Sem(count, waitQueue)
    }

    constructor (value: nat)
      ensures Model() == Sem(value, [])
    {
      count := value;
      waitQueue := [];
    }

    method Wait(pid: Pid) returns (r: SemResult)
      modifies this
      ensures Model() == AfterWait(old(Model()), pid)
      ensures r == WaitResult(old(Model()), pid)
    {
      if count == 0 {
        waitQueue := waitQueue + [pid];
        return Block(pid);
      } else {
        count := count - 1;
        return Granted;
      }
    }

    method Signal() returns (r: SemResult)
      modifies this
      ensures Model() == AfterSignal(old(Model()))
      ensures r == SignalResult(old(Model()))
    {
      if waitQueue == [] {
        count := count + 1;
        return Granted;
      } else {
        var pid := waitQueue[0];
        waitQueue := waitQueue[1..];
        return WakeUp(pid);
      }
    }
  }

  type SemTable = map<Key, Sem>

  function TableInsert(t: SemTable, key: Key, value: nat): SemTable {
    t[key := Sem(value, [])]
  }

  function TableWait(t: SemTable, key: Key, pid: Pid): SemTable {
    if key in t then t[key := AfterWait(t[key], pid)] else t
  }

  function TableWaitResult(t: SemTable, key: Key, pid: Pid): SemResult {
    if key in t then WaitResult(t[key], pid) else NotExist
  }

  function TableSignal(t: SemTable, key: Key): SemTable {
    if key in t then t[key := AfterSignal(t[key])] else t
  }

  function TableSignalResult(t: SemTable, key: Key): SemResult {
    if key in t then SignalResult(t[key]) else NotExist
  }

  class SemaphoreSet {
    var sems: map<Key, Semaphore>

    /** Different keys hold different semaphores. */
    ghost predicate Valid()
      reads this
    {
      forall k, l :: k in sems && l in sems && k != l ==> sems[k] != sems[l]
    }

    ghost function Model(): SemTable
      reads this, sems.Values
    {
      map k | k in sems :: sems[k].Model()
    }

    constructor ()
      ensures Valid() && sems == map[] && Model() == map[]
    {
      sems := map[];
    }

    method Insert(key: Key, value: nat) returns (isNew: bool)
      requires Valid()
      modifies this
      ensures Valid() && fresh(sems.Values - old(sems.Values))
      ensures Model() == old(Model())[key := Sem(value, [])]
      ensures isNew == (key !in old(Model()))
    {
      isNew := key !in sems;
      var s := new Semaphore(value);
      sems := sems[key := s];
      assert forall k :: k in sems && k != key ==> sems[k] == old(sems)[k];
    }

    method Remove(key: Key) returns (found: bool)
      requires Valid()
      modifies this
      ensures Valid() && sems.Values <= old(sems.Values)
      ensures Model() == old(Model()) - {key}
      ensures found == (key in old(Model()))
    {
      found := key in sems;
      sems := sems - {key};
    }

    method Wait(key: Key, pid: Pid) returns (r: SemResult)
      requires Valid()
      modifies sems.Values
      ensures Valid()
      ensures Model() == TableWait(old(Model()), key, pid)
      ensures r == TableWaitResult(old(Model()), key, pid)
    {
      if key in sems {
        r := sems[key].Wait(pid);
      } else {
        r := NotExist;
      }
    }

    method Signal(key: Key) returns (r: SemResult)
      requires Valid()
      modifies sems.Values
      ensures Valid()
      ensures Model() == TableSignal(old(Model()), key)
      ensures r == TableSignalResult(old(Model()), key)
    {
      if key in sems {
        r := sems[key].Signal();
      } else {
        r := NotExist;
      }
    }
  }

  const EMPTY_TABLE: SemTable := map[]

  /** All the tables, each under a number that stands for a shared reference to it. */
  class SemDirectory {
    var tables: map<nat, SemaphoreSet>

    ghost function Sems(): set<Semaphore>
      reads this, tables.Values
    {
      set t, k | t in tables.Values && k in t.sems :: t.sems[k]
    }

    ghost function Model(): map<nat, SemTable>
      reads this, tables.Values, Sems()
    {
      map d | d in tables :: assert tables[d] in tables.Values; tables[d].Model()
    }

    /** Different numbers stand for different tables, and these share no semaphore. */
    ghost predicate Valid()
      reads this, tables.Values
    {
      && (forall d :: d in tables ==> tables[d] in tables.Values && tables[d].Valid())
      && (forall d, e :: d in tables && e in tables && d != e ==> Apart(d, e))
    }

    ghost predicate Apart(d: nat, e: nat)
      requires d in tables && e in tables
      reads this, tables[d], tables[e]
    {
      tables[d] != tables[e] && tables[d].sems.Values !! tables[e].sems.Values
    }

    constructor ()
      ensures Valid() && Model() == map[0 := EMPTY_TABLE]
    {
      var t := new SemaphoreSet();
      tables := map[0 := t];
    }

    method Add(d: nat)
      requires Valid()
      modifies this
      ensures Valid() && Model() == old(Model())[d := EMPTY_TABLE]
    {
      var t := new SemaphoreSet();
      Put(d, t);
    }

    method Put(d: nat, t: SemaphoreSet)
      requires Valid() && t !in tables.Values && t.Valid() && t.sems == map[] && t.Model() == EMPTY_TABLE
      modifies this
      ensures Valid() && Model() == old(Model())[d := EMPTY_TABLE]
    {
      hide SemaphoreSet.Model;
      hide SemaphoreSet.Valid;
      ghost var was := tables;
      tables := tables[d := t];
      assert forall e :: e in tables && e != d ==> tables[e] == was[e] && was[e] in was.Values;
    }

    method Insert(d: nat, key: Key, value: nat) returns (isNew: bool)
      requires Valid() && d in tables
      modifies tables[d]
      ensures Valid() && Model() == old(Model())[d := TableInsert(old(Model())[d], key, value)]
      ensures isNew == (key !in old(Model())[d])
    {
      hide SemaphoreSet.Model;
      hide SemaphoreSet.Valid;
      isNew := tables[d].Insert(key, value);
      forall e | e in tables && e != d
        ensures tables[e].Model() == old(tables[e].Model()) && Apart(d, e) && Apart(e, d)
      {
        assert old(Apart(d, e));
      }
    }

    method Remove(d: nat, key: Key) returns (found: bool)
      requires Valid() && d in tables
      modifies tables[d]
      ensures Valid() && Model() == old(Model())[d := old(Model())[d] - {key}]
      ensures found == (key in old(Model())[d])
    {
      hide SemaphoreSet.Model;
      hide SemaphoreSet.Valid;
      found := tables[d].Remove(key);
      forall e | e in tables && e != d
        ensures tables[e].Model() == old(tables[e].Model()) && Apart(d, e) && Apart(e, d)
      {
        assert old(Apart(d, e));
      }
    }

    method Wait(d: nat, key: Key, pid: Pid) returns (r: SemResult)
      requires Valid() && d in tables
      modifies tables[d].sems.Values
      ensures Valid() && Model() == old(Model())[d := TableWait(old(Model())[d], key, pid)]
      ensures r == TableWaitResult(old(Model())[d], key, pid)
    {
      hide SemaphoreSet.Model;
      hide SemaphoreSet.Valid;
      r := tables[d].Wait(key, pid);
      forall e | e in tables && e != d ensures tables[e].Model() == old(tables[e].Model()) {
        assert Apart(d, e);
      }
    }

    method Signal(d: nat, key: Key) returns (r: SemResult)
      requires Valid() && d in tables
      modifies tables[d].sems.Values
      ensures Valid() && Model() == old(Model())[d := TableSignal(old(Model())[d], key)]
      ensures r == TableSignalResult(old(Model())[d], key)
    {
      hide SemaphoreSet.Model;
      hide SemaphoreSet.Valid;
      r := tables[d].Signal(key);
      forall e | e in tables && e != d ensures tables[e].Model() == old(tables[e].Model()) {
        assert Apart(d, e);
      }
    }
  }
}
