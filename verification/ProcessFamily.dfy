/** The memory of a process and everything forked from it: one page table, one heap, a stack each. */
module ProcessFamily {
  import opened Common
  import opened Frames
  import opened Paging
  import opened UserHeap
  import UserStack
  import opened ElfLoader

  type Stack = UserStack.Stack

  /** Only the process that loaded the program holds its code ranges. */
  datatype Member = Member(stack: Stack, code: seq<Range>)

  /** Live processes, in the order in which they were created. */
  datatype Family = Family(vm: Vm, heapEnd: nat, root: Frame, members: seq<Member>)

  // ---------------------------------------------------------------------
  // The life cycle
  // ---------------------------------------------------------------------

  /** Load the code, then set up the stack. None is a panic. */
  function LoadProgram(vm: Vm, mem: Memory, file: File, segments: seq<Segment>): (Vm, Memory, Option<Member>)
    requires AllContained(file, segments)
  {
    var (vm1, mem1, loaded) := LoadElf(vm, mem, file, segments, true);
    if loaded.Err? then (vm1, mem1, None)
    else
      var (vm2, stack) := UserStack.Init(vm1);
      (vm2, mem1, if stack.None? then None else Some(Member(stack.value, loaded.value.0)))
  }

  /** Load a program into a new address space on top of the kernel's pages. None is a panic. */
  function Start(kernel: Vm, mem: Memory, file: File, segments: seq<Segment>): Option<Family>
    requires AllContained(file, segments)
  {
    var (alloc, root) := Take(kernel.alloc);
    if root.None? then None
    else
      var (vm', _, loader) := LoadProgram(kernel.(alloc := alloc), mem, file, segments);
      if loader.None? then None else Some(Family(vm', HEAP_START, root.value, [loader.value]))
  }

  function UnmapRanges(vm: Vm, rs: seq<Range>): (Vm, Result<(), MapError>)
    decreases |rs|
  {
    if rs == [] then (vm, Ok(()))
    else
      var (vm1, r1) := UnmapPages(vm, rs[0].start, Pages(rs[0]));
      if r1.Err? then (vm1, r1) else UnmapRanges(vm1, rs[1..])
  }

  function Pages(r: Range): nat {
    if r.start <= r.end then r.end - r.start + 1 else 0
  }

  /** Dropping one process's memory: its stack, and for the last one also the heap, its code and
      the page table's root. */
  function CleanUpVm(vm: Vm, heapEnd: nat, m: Member, last: bool, root: Frame): (Vm, nat, Result<(), MapError>)
    requires InHeap(heapEnd) && m.stack.start <= m.stack.end
  {
    var (vm1, _, r1) := UserStack.CleanUp(vm, m.stack);
    if r1.Err? || !last then (vm1, heapEnd, r1)
    else
      var (h, r2) := UserHeap.CleanUp(Heap(vm1, heapEnd));
      if r2.Err? then (h.vm, h.end, r2)
      else
        var (vm3, r3) := UnmapRanges(h.vm, m.code);
        if r3.Err? then (vm3, h.end, r3) else (vm3.(alloc := Give(vm3.alloc, root)), h.end, Ok(()))
  }

  datatype Event =
    | SetBrk(newEnd: Option<nat>)
    | Touch(who: nat, page: Page)
    | Fork(who: nat, offset: nat)
    | Drop(who: nat)

  /** The event can happen, and does not panic: a fault is on a page that is not mapped, below the
      stack if it is in its slot, and the search of a fork ends. Everything else may fail. */
  ghost predicate Possible(f: Family, e: Event) {
    Sound(f) &&
    match e
    case SetBrk(_) => f.members != []
    case Touch(i, p) =>
      && i < |f.members| && p !in f.vm.table
      && (UserStack.OnStack(f.members[i].stack, p) ==> p < f.members[i].stack.start)
    case Fork(i, offset) => i < |f.members| && UserStack.VFork(f.vm, f.members[i].stack, offset).1.Some?
    case Drop(i) => i < |f.members|
  }

  /** The bookkeeping of heap and stacks is consistent in itself. */
  predicate Sound(f: Family) {
    InHeap(f.heapEnd) &&
    forall i :: 0 <= i < |f.members| ==> SoundStack(f.members[i].stack) && Whole(f.members[i].code)
  }

  /** No range is empty. */
  predicate Whole(rs: seq<Range>) {
    forall i :: 0 <= i < |rs| ==> rs[i].start <= rs[i].end
  }

  predicate SoundStack(s: Stack) {
    s.start + s.usage == s.end && s.usage > 0
  }

  function After(f: Family, e: Event): Family
    requires Possible(f, e)
  {
    match e
    case SetBrk(newEnd) =>
      var h := Brk(Heap(f.vm, f.heapEnd), newEnd).0;
      f.(vm := h.vm, heapEnd := h.end)
    case Touch(i, p) =>
      var (vm', s, _) := UserStack.Fault(f.vm, f.members[i].stack, p, true);
      f.(vm := vm', members := f.members[i := f.members[i].(stack := s)])
    case Fork(i, offset) =>
      var (vm', s) := UserStack.VFork(f.vm, f.members[i].stack, offset);
      f.(vm := vm', members := f.members + [Member(s.value, [])])
    case Drop(i) =>
      var (vm', end, _) := CleanUpVm(f.vm, f.heapEnd, f.members[i], |f.members| == 1, f.root);
      f.(vm := vm', heapEnd := end, members := f.members[..i] + f.members[i + 1..])
  }

  function StackAt(base: Page, usage: nat): Stack {
    UserStack.Stack(base, base + usage, usage)
  }

  ghost predicate AllPossible(f: Family, es: seq<Event>)
    decreases |es|
  {
    es != [] ==> Possible(f, es[0]) && AllPossible(After(f, es[0]), es[1..])
  }

  function Run(f: Family, es: seq<Event>): Family
    requires AllPossible(f, es)
    decreases |es|
  {
    if es == [] then f else Run(After(f, es[0]), es[1..])
  }

  // ---------------------------------------------------------------------
  // What an event loses
  // ---------------------------------------------------------------------

  /** Pages that stay mapped though nobody owns them, and frames that are nowhere any more. */
  datatype Loss = Loss(ranges: seq<Range>, frames: multiset<Frame>)

  const NOTHING := Loss([], multiset{})

  function Code(rs: seq<Range>): Loss {
    Loss(rs, multiset{})
  }

  function Both(a: Loss, b: Loss): Loss {
    Loss(a.ranges + b.ranges, a.frames + b.frames)
  }

  function Prefix(lo: Page, n: nat): seq<Range> {
    if n == 0 then [] else [Range(lo, lo + n - 1)]
  }

  /** A map that fails leaves the pages it got through, and a frame if it ran into a mapped page. */
  function MapLoss(vm: Vm, lo: Page, n: nat): Loss {
    if MapPages(vm, lo, n, RangeFlags(true)).1.Ok? then NOTHING
    else Loss(Prefix(lo, Mapped(vm, lo, n, RangeFlags(true))), MapLost(vm, lo, n, RangeFlags(true)))
  }

  /** What the attempts lose that fail before a stack is found. */
  function SearchLoss(vm: Vm, base: int, n: nat): Loss
    decreases if base < 0 then 0 else base + 1
  {
    if base < 0 || MapPages(vm, base, n, RangeFlags(true)).1.Ok? then NOTHING
    else
      Both(SearchLoss(MapPages(vm, base, n, RangeFlags(true)).0, base - UserStack.SLOT, n), MapLoss(vm, base, n))
  }

  /** A process that goes while others stay leaves its code behind. */
  function EventLoss(f: Family, e: Event): Loss
    requires Possible(f, e)
  {
    match e
    case SetBrk(newEnd) => if Grows(f, newEnd) then MapLoss(f.vm, HeapEndPage(f), NewPages(f, newEnd)) else NOTHING
    case Touch(i, p) =>
      var s := f.members[i].stack;
      if UserStack.OnStack(s, p) then MapLoss(f.vm, p, s.start - p) else NOTHING
    case Fork(i, offset) =>
      var s := f.members[i].stack;
      SearchLoss(f.vm, UserStack.FirstTry(s, offset), s.usage)
    case Drop(i) => if |f.members| > 1 then Code(f.members[i].code) else NOTHING
  }

  /** The request asks for more pages than the heap has. */
  predicate Grows(f: Family, newEnd: Option<nat>) {
    newEnd.Some? && InHeap(newEnd.value) && HeapCount(newEnd.value) > HeapCount(f.heapEnd)
  }

  /** The page behind the heap, and how many pages the request adds. */
  function HeapEndPage(f: Family): Page
    requires InHeap(f.heapEnd)
  {
    BASE_PAGE + HeapCount(f.heapEnd)
  }

  function NewPages(f: Family, newEnd: Option<nat>): nat
    requires Grows(f, newEnd)
  {
    HeapCount(newEnd.value) - HeapCount(f.heapEnd)
  }

  // ---------------------------------------------------------------------
  // Who owns a page
  // ---------------------------------------------------------------------

  function In(p: Page, lo: Page, n: nat): nat {
    if InRange(p, lo, n) then 1 else 0
  }

  function InRanges(rs: seq<Range>, p: Page): nat {
    if rs == [] then 0 else In(p, rs[0].start, Pages(rs[0])) + InRanges(rs[1..], p)
  }

  function InMember(m: Member, p: Page): nat {
    In(p, m.stack.start, m.stack.usage) + InRanges(m.code, p)
  }

  function InMembers(ms: seq<Member>, p: Page): nat {
    if ms == [] then 0 else InMember(ms[0], p) + InMembers(ms[1..], p)
  }

  function InHeapPages(end: nat, p: Page): nat
    requires InHeap(end)
  {
    HeapCountRange(end);
    In(p, BASE_PAGE, HeapCount(end))
  }

  /** How many owners a page has; `lost` are code ranges whose process is gone. */
  function Owners(f: Family, lost: seq<Range>, p: Page): nat
    requires InHeap(f.heapEnd)
  {
    InHeapPages(f.heapEnd, p) + InMembers(f.members, p) + InRanges(lost, p)
  }

  /** Every page mapped on top of the kernel's has exactly one owner, or has been lost once; no other
      page has any. Every frame is where it was when the program was loaded, in the pool or in the
      table, except those that have been lost. */
  ghost predicate Ledger(f: Family, start: Vm, lost: Loss) {
    && Sound(f) && Whole(lost.ranges)
    && (forall p :: p in start.table ==> p in f.vm.table && f.vm.table[p] == start.table[p])
    && (forall p :: Owners(f, lost.ranges, p) == if p in f.vm.table && p !in start.table then 1 else 0)
    && Balanced(start, f.vm, lost.frames)
  }

  lemma {:induction false} InMembersUpdate(ms: seq<Member>, i: nat, m: Member, p: Page)
    requires i < |ms|
    ensures InMembers(ms[i := m], p) == InMembers(ms, p) - InMember(ms[i], p) + InMember(m, p)
    decreases |ms|
  {
    if i > 0 {
      assert ms[i := m][1..] == ms[1..][i - 1 := m];
      InMembersUpdate(ms[1..], i - 1, m, p);
    } else {
      assert ms[i := m][1..] == ms[1..];
    }
  }

  lemma {:induction false} InMembersAppend(ms: seq<Member>, m: Member, p: Page)
    ensures InMembers(ms + [m], p) == InMembers(ms, p) + InMember(m, p)
    decreases |ms|
  {
    if ms == [] {
      assert ms + [m] == [m];
    } else {
      assert (ms + [m])[1..] == ms[1..] + [m];
      InMembersAppend(ms[1..], m, p);
    }
  }

  lemma {:induction false} InMembersRemove(ms: seq<Member>, i: nat, p: Page)
    requires i < |ms|
    ensures InMembers(ms[..i] + ms[i + 1..], p) == InMembers(ms, p) - InMember(ms[i], p)
    decreases |ms|
  {
    if i == 0 {
      assert ms[..i] + ms[i + 1..] == ms[1..];
    } else {
      assert (ms[..i] + ms[i + 1..])[1..] == ms[1..][..i - 1] + ms[1..][i..];
      InMembersRemove(ms[1..], i - 1, p);
    }
  }

  lemma {:induction false} InRangesJoin(a: seq<Range>, b: seq<Range>, p: Page)
    ensures InRanges(a + b, p) == InRanges(a, p) + InRanges(b, p)
    decreases |a|
  {
    if a == [] {
      assert a + b == b;
    } else {
      assert (a + b)[1..] == a[1..] + b;
      InRangesJoin(a[1..], b, p);
    }
  }

  lemma {:induction false} MemberOf(ms: seq<Member>, i: nat, p: Page)
    requires i < |ms|
    ensures InMember(ms[i], p) <= InMembers(ms, p)
    decreases |ms|
  {
    if i > 0 {
      MemberOf(ms[1..], i - 1, p);
    }
  }

  // ---------------------------------------------------------------------
  // Every event keeps the ledger
  // ---------------------------------------------------------------------

  /** Pages added to the table and to the owners or the lost pages alike; `more` frames are lost. */
  lemma Grow(f: Family, f': Family, start: Vm, lost: Loss, lost': Loss, lo: Page, n: nat, more: multiset<Frame>)
    requires Ledger(f, start, lost) && Sound(f') && Whole(lost'.ranges) && lost'.frames == lost.frames + more
    requires Added(f.vm.table, f'.vm.table, lo, n) && Balanced(f.vm, f'.vm, more) && AllFree(f.vm, lo, n)
    requires forall p :: Owners(f', lost'.ranges, p) == Owners(f, lost.ranges, p) + In(p, lo, n)
    ensures Ledger(f', start, lost')
  {
    hide Owners;
    hide Count;
  }

  /** Pages removed from the table and from the owners alike. */
  lemma Shrink(f: Family, f': Family, start: Vm, lost: Loss, lost': Loss, lo: Page, n: nat)
    requires Ledger(f, start, lost) && Sound(f') && Whole(lost'.ranges) && lost'.frames == lost.frames
    requires Removed(f.vm.table, f'.vm.table, lo, n) && Conserved(f.vm, f'.vm)
    requires forall p :: Owners(f', lost'.ranges, p) == Owners(f, lost.ranges, p) - In(p, lo, n)
    ensures Ledger(f', start, lost')
  {
    hide Count;
    forall p | p in start.table ensures !InRange(p, lo, n) {
      assert Owners(f, lost.ranges, p) == 0;
      assert Owners(f', lost'.ranges, p) == Owners(f, lost.ranges, p) - In(p, lo, n);
    }
    hide Owners;
  }

  lemma SoundOf(f: Family, start: Vm, lost: Loss)
    requires Ledger(f, start, lost)
    ensures Sound(f) && Whole(lost.ranges)
  {
  }

  /** The pages that a map gets through were free. */
  lemma {:induction false} MappedWereFree(vm: Vm, lo: Page, n: nat, flags: Flags)
    ensures AllFree(vm, lo, Mapped(vm, lo, n, flags))
    decreases n
  {
    if n > 0 {
      var (alloc, frame) := Take(vm.alloc);
      if frame.Some? && lo !in vm.table {
        MappedWereFree(Vm(vm.table[lo := Entry(frame.value, flags)], alloc), lo + 1, n - 1, flags);
        var m := Mapped(vm, lo, n, flags);
        forall p | InRange(p, lo, m) ensures p !in vm.table {
          assert p == lo || InRange(p, lo + 1, m - 1);
        }
      }
    }
  }

  /** A map that succeeds, for whoever owns the new pages in f'. */
  lemma MapDone(f: Family, f': Family, start: Vm, lost: Loss, lo: Page, n: nat)
    requires Ledger(f, start, lost) && Sound(f')
    requires var (vm', r) := MapPages(f.vm, lo, n, RangeFlags(true)); r.Ok? && f'.vm == vm'
    requires forall p :: Owners(f', lost.ranges, p) == Owners(f, lost.ranges, p) + In(p, lo, n)
    ensures Ledger(f', start, lost)
  {
    MapExact(f.vm, lo, n, RangeFlags(true));
    MapKeeps(f.vm, lo, n, RangeFlags(true));
    hide Owners;
    hide Count;
    hide Ledger;
    SoundOf(f, start, lost);
    Grow(f, f', start, lost, lost, lo, n, multiset{});
  }

  /** A map that fails: the pages it got through are lost. */
  lemma MapFailed(f: Family, start: Vm, lost: Loss, lo: Page, n: nat)
    requires Ledger(f, start, lost) && MapPages(f.vm, lo, n, RangeFlags(true)).1.Err?
    ensures Ledger(f.(vm := MapPages(f.vm, lo, n, RangeFlags(true)).0), start, Both(MapLoss(f.vm, lo, n), lost))
  {
    var flags, loss := RangeFlags(true), MapLoss(f.vm, lo, n);
    var f', j := f.(vm := MapPages(f.vm, lo, n, flags).0), Mapped(f.vm, lo, n, flags);
    MapKeeps(f.vm, lo, n, flags);
    MapBalance(f.vm, lo, n, flags);
    MappedWereFree(f.vm, lo, n, flags);
    SoundOf(f, start, lost);
    forall p ensures Owners(f', Prefix(lo, j) + lost.ranges, p) == Owners(f, lost.ranges, p) + In(p, lo, j) {
      InRangesJoin(Prefix(lo, j), lost.ranges, p);
      InPrefix(lo, j, p);
    }
    hide Owners;
    hide Count;
    hide Ledger;
    Grow(f, f', start, lost, Both(loss, lost), lo, j, loss.frames);
  }

  lemma InPrefix(lo: Page, n: nat, p: Page)
    ensures InRanges(Prefix(lo, n), p) == In(p, lo, n)
  {
    if n > 0 {
      assert InRanges([Range(lo, lo + n - 1)], p) == In(p, lo, n) + InRanges([], p);
    }
  }

  lemma NothingMore(lost: Loss)
    ensures Both(NOTHING, lost) == lost
  {
    assert [] + lost.ranges == lost.ranges;
  }

  lemma HeapGrown(f: Family, f': Family, lost: seq<Range>)
    requires InHeap(f.heapEnd) && InHeap(f'.heapEnd) && f'.members == f.members
    requires HeapCount(f'.heapEnd) >= HeapCount(f.heapEnd)
    ensures 0 <= HeapCount(f.heapEnd)
    ensures forall p :: Owners(f', lost, p) == Owners(f, lost, p)
              + In(p, BASE_PAGE + HeapCount(f.heapEnd), HeapCount(f'.heapEnd) - HeapCount(f.heapEnd))
  {
    HeapCountRange(f.heapEnd);
  }

  lemma GrowthKeepsLedger(f: Family, start: Vm, lost: Loss, newEnd: Option<nat>)
    requires Ledger(f, start, lost) && Possible(f, SetBrk(newEnd)) && Grows(f, newEnd)
    ensures Ledger(After(f, SetBrk(newEnd)), start, Both(MapLoss(f.vm, HeapEndPage(f), NewPages(f, newEnd)), lost))
  {
    hide Ledger;
    hide Owners;
    hide Count;
    var lo, n := HeapEndPage(f), NewPages(f, newEnd);
    if MapPages(f.vm, lo, n, RangeFlags(true)).1.Ok? {
      var f' := After(f, SetBrk(newEnd));
      HeapGrown(f, f', lost.ranges);
      MapDone(f, f', start, lost, lo, n);
      NothingMore(lost);
    } else {
      MapFailed(f, start, lost, lo, n);
    }
  }

  lemma BrkKeepsLedger(f: Family, start: Vm, lost: Loss, newEnd: Option<nat>)
    requires Ledger(f, start, lost) && Possible(f, SetBrk(newEnd))
    ensures Ledger(After(f, SetBrk(newEnd)), start, Both(EventLoss(f, SetBrk(newEnd)), lost))
  {
    hide Ledger;
    hide Owners;
    hide Count;
    hide MapLoss;
    SoundOf(f, start, lost);
    NothingMore(lost);
    if Grows(f, newEnd) {
      GrowthKeepsLedger(f, start, lost, newEnd);
    } else if newEnd.Some? && InHeap(newEnd.value) {
      ShrinkKeepsLedger(f, start, lost, newEnd.value);
    }
  }

  lemma HeapMapped(f: Family, start: Vm, lost: Loss)
    requires Ledger(f, start, lost)
    ensures InHeap(f.heapEnd) && 0 <= HeapCount(f.heapEnd) && AllMapped(f.vm, BASE_PAGE, HeapCount(f.heapEnd))
  {
    HeapCountRange(f.heapEnd);
    forall p | InRange(p, BASE_PAGE, HeapCount(f.heapEnd)) ensures p in f.vm.table {
      Owned(f, start, lost, p);
    }
  }

  lemma ShrinkKeepsLedger(f: Family, start: Vm, lost: Loss, newEnd: nat)
    requires Ledger(f, start, lost) && Possible(f, SetBrk(Some(newEnd)))
    requires InHeap(newEnd) && HeapCount(newEnd) <= HeapCount(f.heapEnd)
    ensures Ledger(After(f, SetBrk(Some(newEnd))), start, lost)
  {
    hide Ledger;
    hide Owners;
    hide Count;
    hide MapPages;
    var new_, n := HeapCount(newEnd), HeapCount(f.heapEnd) - HeapCount(newEnd);
    HeapCountRange(newEnd);
    HeapMapped(f, start, lost);
    assert AllMapped(f.vm, BASE_PAGE + new_, n);
    UnmapExact(f.vm, BASE_PAGE + new_, n);
    var f' := After(f, SetBrk(Some(newEnd)));
    SoundOf(f, start, lost);
    assert f' == f.(vm := UnmapPages(f.vm, BASE_PAGE + new_, n).0, heapEnd := newEnd);
    HeapGrown(f', f, lost.ranges);
    Shrink(f, f', start, lost, lost, BASE_PAGE + new_, n);
  }

  function DownTo(s: Stack, p: Page): Stack
    requires p <= s.end
  {
    UserStack.Stack(p, s.end, s.end - p)
  }

  lemma TouchOwners(f: Family, f': Family, lost: seq<Range>, i: nat, p: Page)
    requires InHeap(f.heapEnd) && f'.heapEnd == f.heapEnd && i < |f.members|
    requires SoundStack(f.members[i].stack) && p < f.members[i].stack.start
    requires f'.members == f.members[i := f.members[i].(stack := DownTo(f.members[i].stack, p))]
    ensures forall q :: Owners(f', lost, q) == Owners(f, lost, q) + In(q, p, f.members[i].stack.start - p)
  {
    forall q ensures Owners(f', lost, q) == Owners(f, lost, q) + In(q, p, f.members[i].stack.start - p) {
      InMembersUpdate(f.members, i, f'.members[i], q);
    }
  }

  lemma TouchKeepsLedger(f: Family, start: Vm, lost: Loss, i: nat, p: Page)
    requires Ledger(f, start, lost) && Possible(f, Touch(i, p))
    ensures Ledger(After(f, Touch(i, p)), start, Both(EventLoss(f, Touch(i, p)), lost))
  {
    hide Ledger;
    hide Owners;
    hide MapPages;
    NothingMore(lost);
    var f', s := After(f, Touch(i, p)), f.members[i].stack;
    if UserStack.OnStack(s, p) {
      if MapPages(f.vm, p, s.start - p, RangeFlags(true)).1.Ok? {
        TouchOwners(f, f', lost.ranges, i, p);
        SoundAfter(f, f', i, p);
        MapDone(f, f', start, lost, p, s.start - p);
      } else {
        assert f' == f.(vm := MapPages(f.vm, p, s.start - p, RangeFlags(true)).0);
        MapFailed(f, start, lost, p, s.start - p);
      }
    } else {
      assert f' == f;
    }
  }

  lemma SoundAfter(f: Family, f': Family, i: nat, p: Page)
    requires Sound(f) && i < |f.members| && p < f.members[i].stack.start && f'.heapEnd == f.heapEnd
    requires f'.members == f.members[i := f.members[i].(stack := DownTo(f.members[i].stack, p))]
    ensures Sound(f')
  {
  }

  /** Attempts that fail lose what each of them loses; the one that succeeds adds a stack. */
  lemma {:induction false} SearchKeepsLedger(f: Family, start: Vm, lost: Loss, base: int, n: nat)
    requires Ledger(f, start, lost) && n > 0 && UserStack.Search(f.vm, base, n).1.Some?
    ensures var (vm', b) := UserStack.Search(f.vm, base, n);
            Ledger(f.(vm := vm', members := f.members + [Member(StackAt(b.value, n), [])]), start,
                   Both(SearchLoss(f.vm, base, n), lost))
    decreases if base < 0 then 0 else base + 1
  {
    hide Ledger;
    hide MapLoss;
    var (vm', r) := MapPages(f.vm, base, n, RangeFlags(true));
    if r.Ok? {
      StackAdded(f, start, lost, base, n);
      NothingMore(lost);
    } else {
      var loss, rest := MapLoss(f.vm, base, n), SearchLoss(vm', base - UserStack.SLOT, n);
      MapFailed(f, start, lost, base, n);
      SearchKeepsLedger(f.(vm := vm'), start, Both(loss, lost), base - UserStack.SLOT, n);
      assert Both(Both(rest, loss), lost) == Both(rest, Both(loss, lost)) by {
        assert (rest.ranges + loss.ranges) + lost.ranges == rest.ranges + (loss.ranges + lost.ranges);
      }
    }
  }

  lemma StackAdded(f: Family, start: Vm, lost: Loss, base: Page, n: nat)
    requires Ledger(f, start, lost) && n > 0 && MapPages(f.vm, base, n, RangeFlags(true)).1.Ok?
    ensures var vm' := MapPages(f.vm, base, n, RangeFlags(true)).0;
            Ledger(f.(vm := vm', members := f.members + [Member(StackAt(base, n), [])]), start, lost)
  {
    var child := Member(StackAt(base, n), []);
    var f' := f.(vm := MapPages(f.vm, base, n, RangeFlags(true)).0, members := f.members + [child]);
    SoundOf(f, start, lost);
    forall q ensures Owners(f', lost.ranges, q) == Owners(f, lost.ranges, q) + In(q, base, n) {
      InMembersAppend(f.members, child, q);
    }
    hide Ledger;
    hide Owners;
    MapDone(f, f', start, lost, base, n);
  }

  lemma ForkKeepsLedger(f: Family, start: Vm, lost: Loss, i: nat, offset: nat)
    requires Ledger(f, start, lost) && Possible(f, Fork(i, offset))
    ensures Ledger(After(f, Fork(i, offset)), start, Both(EventLoss(f, Fork(i, offset)), lost))
  {
    hide Ledger;
    hide SearchLoss;
    var s := f.members[i].stack;
    SearchKeepsLedger(f, start, lost, UserStack.FirstTry(s, offset), s.usage);
  }

  lemma Owned(f: Family, start: Vm, lost: Loss, p: Page)
    requires Ledger(f, start, lost) && Owners(f, lost.ranges, p) >= 1
    ensures p in f.vm.table
  {
  }

  /** The stack goes; the code ranges, if the process holds any, are left without an owner. */
  lemma StackGone(f: Family, start: Vm, lost: Loss, i: nat)
    requires Ledger(f, start, lost) && i < |f.members|
    ensures var (vm1, _, r1) := UserStack.CleanUp(f.vm, f.members[i].stack);
            && r1.Ok?
            && Ledger(Family(vm1, f.heapEnd, f.root, f.members[..i] + f.members[i + 1..]), start,
                      Both(Code(f.members[i].code), lost))
  {
    var s, code := f.members[i].stack, f.members[i].code;
    forall p | InRange(p, s.start, s.usage) ensures p in f.vm.table {
      MemberOf(f.members, i, p);
      Owned(f, start, lost, p);
    }
    UnmapExact(f.vm, s.start, s.usage);
    var f' := Family(UserStack.CleanUp(f.vm, s).0, f.heapEnd, f.root, f.members[..i] + f.members[i + 1..]);
    forall p ensures Owners(f', code + lost.ranges, p) == Owners(f, lost.ranges, p) - In(p, s.start, s.usage) {
      InMembersRemove(f.members, i, p);
      InRangesJoin(code, lost.ranges, p);
    }
    Shrink(f, f', start, lost, Both(Code(code), lost), s.start, s.usage);
  }

  lemma HeapGone(f: Family, start: Vm, lost: Loss)
    requires Ledger(f, start, lost)
    ensures var (h, r) := UserHeap.CleanUp(Heap(f.vm, f.heapEnd));
            r.Ok? && h.end == HEAP_START && Ledger(f.(vm := h.vm, heapEnd := h.end), start, lost)
  {
    HeapMapped(f, start, lost);
    CleanUpExact(Heap(f.vm, f.heapEnd));
    var h := UserHeap.CleanUp(Heap(f.vm, f.heapEnd)).0;
    HeapGrown(f.(heapEnd := HEAP_START), f, lost.ranges);
    Shrink(f, f.(vm := h.vm, heapEnd := h.end), start, lost, lost, BASE_PAGE, HeapCount(f.heapEnd));
  }

  lemma FirstRangeMapped(f: Family, start: Vm, rs: seq<Range>, lost: Loss)
    requires Ledger(f, start, Both(Code(rs), lost)) && rs != []
    ensures AllMapped(f.vm, rs[0].start, Pages(rs[0]))
  {
    forall p | InRange(p, rs[0].start, Pages(rs[0])) ensures p in f.vm.table {
      InRangesJoin(rs, lost.ranges, p);
      Owned(f, start, Both(Code(rs), lost), p);
    }
  }

  lemma FirstRangeOwned(f: Family, f1: Family, rs: seq<Range>, lost: seq<Range>)
    requires rs != [] && InHeap(f.heapEnd) && f1.heapEnd == f.heapEnd && f1.members == f.members
    ensures forall p :: Owners(f1, rs[1..] + lost, p) == Owners(f, rs + lost, p) - In(p, rs[0].start, Pages(rs[0]))
  {
    forall p ensures Owners(f1, rs[1..] + lost, p) == Owners(f, rs + lost, p) - In(p, rs[0].start, Pages(rs[0])) {
      InRangesJoin(rs, lost, p);
      InRangesJoin(rs[1..], lost, p);
    }
  }

  lemma {:induction false} CodeGone(f: Family, start: Vm, rs: seq<Range>, lost: Loss)
    requires Ledger(f, start, Both(Code(rs), lost))
    ensures var (vm', r) := UnmapRanges(f.vm, rs);
            r.Ok? && Ledger(f.(vm := vm'), start, lost)
    decreases |rs|
  {
    if rs == [] {
      NothingMore(lost);
    } else {
      hide Ledger;
      hide Owners;
      hide Count;
      SoundOf(f, start, Both(Code(rs), lost));
      var lo, n := rs[0].start, Pages(rs[0]);
      FirstRangeMapped(f, start, rs, lost);
      UnmapExact(f.vm, lo, n);
      var f1 := f.(vm := UnmapPages(f.vm, lo, n).0);
      FirstRangeOwned(f, f1, rs, lost.ranges);
      assert rs[1..] + lost.ranges == (rs + lost.ranges)[1..];
      Shrink(f, f1, start, Both(Code(rs), lost), Both(Code(rs[1..]), lost), lo, n);
      CodeGone(f1, start, rs[1..], lost);
    }
  }

  function Returned(vm: Vm, root: Frame): Vm {
    vm.(alloc := Give(vm.alloc, root))
  }

  lemma RootReturned(f: Family, start: Vm, lost: Loss)
    requires Ledger(f, start, lost)
    ensures Ledger(f.(vm := Returned(f.vm, f.root)), Returned(start, f.root), lost)
  {
    GiveThenTake(f.vm.alloc, f.root);
    GiveThenTake(start.alloc, f.root);
    forall fr ensures Count(Returned(start, f.root), fr) == Count(Returned(f.vm, f.root), fr) + lost.frames[fr] {
      assert Count(start, fr) == Count(f.vm, fr) + lost.frames[fr];
    }
    hide Owners;
  }

  lemma DropKeepsLedger(f: Family, start: Vm, lost: Loss, i: nat)
    requires Ledger(f, start, lost) && Possible(f, Drop(i)) && |f.members| > 1
    ensures Ledger(After(f, Drop(i)), start, Both(EventLoss(f, Drop(i)), lost))
  {
    StackGone(f, start, lost, i);
  }

  /** The last process to go also frees the heap, its code and the root. */
  lemma LastDrop(f: Family, start: Vm, lost: Loss)
    requires Ledger(f, start, lost) && |f.members| == 1
    ensures Possible(f, Drop(0)) && After(f, Drop(0)).heapEnd == HEAP_START
    ensures Ledger(After(f, Drop(0)), Returned(start, f.root), lost)
  {
    hide Ledger;
    hide Owners;
    hide Count;
    var m := f.members[0];
    assert Sound(f) by { SoundOf(f, start, lost); }
    StackGone(f, start, lost, 0);
    var f1 := Family(UserStack.CleanUp(f.vm, m.stack).0, f.heapEnd, f.root, []);
    assert f.members[..0] + f.members[1..] == [];
    HeapGone(f1, start, Both(Code(m.code), lost));
    var h := UserHeap.CleanUp(Heap(f1.vm, f1.heapEnd)).0;
    var f2 := f1.(vm := h.vm, heapEnd := h.end);
    CodeGone(f2, start, m.code, lost);
    var f3 := f2.(vm := UnmapRanges(f2.vm, m.code).0);
    RootReturned(f3, start, lost);
    assert After(f, Drop(0)) == f3.(vm := Returned(f3.vm, f3.root));
  }

  // ---------------------------------------------------------------------
  // Whole lives
  // ---------------------------------------------------------------------

  /** Where the books start from after an event: the last process to go gives the root back. */
  function StartOf(f: Family, start: Vm, e: Event): Vm {
    if e.Drop? && |f.members| == 1 then Returned(start, f.root) else start
  }

  /** Every event, whether what it asks for succeeds or fails, loses exactly what EventLoss says. */
  lemma EventKeepsLedger(f: Family, start: Vm, lost: Loss, e: Event)
    requires Ledger(f, start, lost) && Possible(f, e)
    ensures Ledger(After(f, e), StartOf(f, start, e), Both(EventLoss(f, e), lost))
    ensures e.Drop? && |f.members| == 1 ==> After(f, e).heapEnd == HEAP_START
  {
    hide Ledger;
    match e
    case SetBrk(newEnd) => BrkKeepsLedger(f, start, lost, newEnd);
    case Touch(i, p) => TouchKeepsLedger(f, start, lost, i, p);
    case Fork(i, offset) => ForkKeepsLedger(f, start, lost, i, offset);
    case Drop(i) =>
      if |f.members| > 1 {
        DropKeepsLedger(f, start, lost, i);
      } else {
        LastDrop(f, start, lost);
        NothingMore(lost);
      }
  }

  lemma NobodyLeft(f: Family, e: Event)
    requires Possible(f, e)
    ensures f.members != [] && After(f, e).root == f.root
    ensures After(f, e).members == [] <==> e.Drop? && |f.members| == 1
  {
  }

  function LossAfter(f: Family, es: seq<Event>, lost: Loss): Loss
    requires AllPossible(f, es)
    decreases |es|
  {
    if es == [] then lost else LossAfter(After(f, es[0]), es[1..], Both(EventLoss(f, es[0]), lost))
  }

  lemma {:induction false} RunKeepsLedger(f: Family, start: Vm, lost: Loss, es: seq<Event>)
    requires Ledger(f, start, lost) && AllPossible(f, es) && f.members != []
    ensures var end := if Run(f, es).members == [] then Returned(start, f.root) else start;
            Ledger(Run(f, es), end, LossAfter(f, es, lost))
    ensures Run(f, es).members == [] ==> Run(f, es).heapEnd == HEAP_START
    decreases |es|
  {
    if es != [] {
      hide Ledger;
      hide After;
      hide Possible;
      hide EventLoss;
      var f1 := After(f, es[0]);
      NobodyLeft(f, es[0]);
      EventKeepsLedger(f, start, lost, es[0]);
      if f1.members == [] {
        if es[1..] != [] {
          NobodyLeft(f1, es[1]);
        }
      } else {
        RunKeepsLedger(f1, start, Both(EventLoss(f, es[0]), lost), es[1..]);
      }
    }
  }

  // ---------------------------------------------------------------------
  // When nothing is lost
  // ---------------------------------------------------------------------

  /** A map of these pages loses nothing: all are free and there are enough frames, or there is none. */
  predicate Safe(vm: Vm, lo: Page, n: nat) {
    (Lead(vm.table, lo, n) == n && n <= |Pool(vm.alloc)|) || |Pool(vm.alloc)| == 0
  }

  /** What an event maps is safe; a fork must find its first slot free. */
  ghost predicate Careful(f: Family, e: Event)
    requires Possible(f, e)
  {
    match e
    case SetBrk(newEnd) => Grows(f, newEnd) ==> Safe(f.vm, HeapEndPage(f), NewPages(f, newEnd))
    case Touch(i, p) =>
      var s := f.members[i].stack;
      UserStack.OnStack(s, p) ==> Safe(f.vm, p, s.start - p)
    case Fork(i, offset) =>
      var s := f.members[i].stack;
      UserStack.FirstTry(s, offset) >= 0 && Lead(f.vm.table, UserStack.FirstTry(s, offset), s.usage) == s.usage
    case Drop(_) => true
  }

  ghost predicate AllCareful(f: Family, es: seq<Event>)
    requires AllPossible(f, es)
    decreases |es|
  {
    es != [] ==> Careful(f, es[0]) && AllCareful(After(f, es[0]), es[1..])
  }

  /** Whoever holds code is never dropped while others are alive. */
  ghost predicate LoaderLast(f: Family, es: seq<Event>)
    requires AllPossible(f, es)
    decreases |es|
  {
    es != [] ==> !LeavesCode(f, es[0]) && LoaderLast(After(f, es[0]), es[1..])
  }

  predicate LeavesCode(f: Family, e: Event) {
    e.Drop? && |f.members| > 1 && e.who < |f.members| && f.members[e.who].code != []
  }

  lemma SafeExactly(vm: Vm, lo: Page, n: nat)
    ensures MapLoss(vm, lo, n) == NOTHING <==> Safe(vm, lo, n)
  {
    var flags := RangeFlags(true);
    MapExact(vm, lo, n, flags);
    TakeCounts(vm.alloc);
    if MapPages(vm, lo, n, flags).1.Err? {
      assert n > 0;
      if Mapped(vm, lo, n, flags) == 0 && Take(vm.alloc).1.Some? {
        assert MapLost(vm, lo, n, flags) == multiset{Take(vm.alloc).1.value};
      }
    }
  }

  /** Without a frame no attempt succeeds. */
  lemma {:induction false} NoFrameNoStack(vm: Vm, base: int, n: nat)
    requires n > 0 && |Pool(vm.alloc)| == 0
    ensures UserStack.Search(vm, base, n).1.None?
    decreases if base < 0 then 0 else base + 1
  {
    if base >= 0 {
      TakeCounts(vm.alloc);
      assert MapPages(vm, base, n, RangeFlags(true)) == (vm, Err(FrameAllocationFailed));
      NoFrameNoStack(vm, base - UserStack.SLOT, n);
    }
  }

  lemma SearchSafe(vm: Vm, base: int, n: nat)
    requires n > 0 && UserStack.Search(vm, base, n).1.Some?
    ensures base >= 0 && (SearchLoss(vm, base, n) == NOTHING <==> Lead(vm.table, base, n) == n)
  {
    MapExact(vm, base, n, RangeFlags(true));
    if MapPages(vm, base, n, RangeFlags(true)).1.Err? {
      SafeExactly(vm, base, n);
      if |Pool(vm.alloc)| == 0 {
        NoFrameNoStack(vm, base, n);
      }
      EnoughForOne(vm, base, n);
      var (loss, rest) := (MapLoss(vm, base, n),
        SearchLoss(MapPages(vm, base, n, RangeFlags(true)).0, base - UserStack.SLOT, n));
      assert Both(rest, loss).ranges == [] ==> loss.ranges == [];
      assert Both(rest, loss).frames == multiset{} ==> loss.frames == multiset{};
    }
  }

  /** If an attempt fails and a later one succeeds, the first has run into a mapped page. */
  lemma EnoughForOne(vm: Vm, base: Page, n: nat)
    requires n > 0 && UserStack.Search(vm, base, n).1.Some? && MapPages(vm, base, n, RangeFlags(true)).1.Err?
    ensures Lead(vm.table, base, n) < n
  {
    UserStack.Attempt(vm, base, n, RangeFlags(true));
    var vm' := MapPages(vm, base, n, RangeFlags(true)).0;
    if |Pool(vm'.alloc)| == 0 {
      NoFrameNoStack(vm', base - UserStack.SLOT, n);
    }
  }

  lemma LossExactly(f: Family, e: Event)
    requires Possible(f, e)
    ensures EventLoss(f, e) == NOTHING <==> Careful(f, e) && !LeavesCode(f, e)
  {
    hide MapLoss;
    hide SearchLoss;
    match e
    case SetBrk(newEnd) =>
      if Grows(f, newEnd) {
        SafeExactly(f.vm, HeapEndPage(f), NewPages(f, newEnd));
      }
    case Touch(i, p) =>
      var s := f.members[i].stack;
      if UserStack.OnStack(s, p) {
        SafeExactly(f.vm, p, s.start - p);
      }
    case Fork(i, offset) =>
      var s := f.members[i].stack;
      SearchSafe(f.vm, UserStack.FirstTry(s, offset), s.usage);
    case Drop(_) =>
  }

  lemma BothNothing(a: Loss, b: Loss)
    ensures Both(a, b) == NOTHING <==> a == NOTHING && b == NOTHING
  {
    assert forall fr :: (a.frames + b.frames)[fr] == a.frames[fr] + b.frames[fr];
  }

  lemma {:induction false} NothingLost(f: Family, es: seq<Event>, lost: Loss)
    requires AllPossible(f, es)
    ensures LossAfter(f, es, lost) == NOTHING <==> lost == NOTHING && LoaderLast(f, es) && AllCareful(f, es)
    decreases |es|
  {
    hide EventLoss;
    hide Careful;
    hide LeavesCode;
    hide Possible;
    hide After;
    if es != [] {
      LossExactly(f, es[0]);
      BothNothing(EventLoss(f, es[0]), lost);
      NothingLost(After(f, es[0]), es[1..], Both(EventLoss(f, es[0]), lost));
    }
  }

  // ---------------------------------------------------------------------
  // The program that has just been loaded
  // ---------------------------------------------------------------------

  lemma {:induction false} RangesAreImage(vm: Vm, file: File, segments: seq<Segment>, p: Page)
    requires Loadable(vm, file, segments)
    ensures InRanges(Ranges(segments), p) == if InImage(segments, p) then 1 else 0
    decreases |segments|
  {
    if segments != [] {
      RestLoadable(vm, vm, file, segments);
      RangesAreImage(vm, file, segments[1..], p);
      ImageOfRest(segments, p);
      if InSegment(segments[0], p) {
        FirstIsApart(vm, file, segments, p);
      }
      var head := if Loads(segments[0]) then [SegmentRange(segments[0])] else [];
      InRangesJoin(head, Ranges(segments[1..]), p);
      if Loads(segments[0]) {
        assert InRanges(head, p) == In(p, head[0].start, Pages(head[0])) + InRanges([], p);
        assert Pages(head[0]) == PageCount(segments[0]);
      }
    }
  }

  lemma FirstIsApart(vm: Vm, file: File, segments: seq<Segment>, p: Page)
    requires Loadable(vm, file, segments) && segments != [] && InSegment(segments[0], p)
    ensures !InImage(segments[1..], p)
  {
    forall i | 0 <= i < |segments[1..]| ensures !InSegment(segments[1..][i], p) {
      assert !InSegment(segments[i + 1], p);
    }
  }

  /** A loaded program starts with balanced books. */
  lemma StartLedger(kernel: Vm, mem: Memory, file: File, segments: seq<Segment>)
    requires Exclusive(kernel) && Loadable(kernel, file, segments)
    ensures AllContained(file, segments)
    ensures var f := Start(kernel, mem, file, segments);
            f.Some? ==> Take(kernel.alloc).1 == Some(f.value.root)
                        && |f.value.members| == 1 && f.value.members[0].code == Ranges(segments)
                        && Ledger(f.value, kernel.(alloc := Take(kernel.alloc).0), NOTHING)
  {
    LoadableContained(kernel, file, segments);
    var start := kernel.(alloc := Take(kernel.alloc).0);
    RootTaken(kernel);
    ElfImage(start, mem, file, segments, true);
    hide Loadable;
    hide LoadElf;
    hide Outcome;
    hide Ledger;
    hide Take;
    var (vm1, mem1, loaded) := LoadElf(start, mem, file, segments, true);
    if loaded.Ok? && UserStack.Init(vm1).1.Some? && Take(kernel.alloc).1.Some? {
      var f := Family(UserStack.Init(vm1).0, HEAP_START, Take(kernel.alloc).1.value,
                      [Member(UserStack.Init(vm1).1.value, Ranges(segments))]);
      assert Start(kernel, mem, file, segments) == Some(f);
      FirstLedger(start, mem, vm1, mem1, f, file, segments);
    }
  }

  /** A program is started exactly if there are frames for its pages, its stack and the root, and the
      page of its stack, the last below 0x4000_0000_0000, is not taken. */
  lemma StartsExactly(kernel: Vm, mem: Memory, file: File, segments: seq<Segment>)
    requires Exclusive(kernel) && Loadable(kernel, file, segments) && AllContained(file, segments)
    ensures Start(kernel, mem, file, segments).Some? <==>
            && TotalPages(segments) + 2 <= |Pool(kernel.alloc)|
            && 0x3_FFFF_FFFF !in kernel.table && !InImage(segments, 0x3_FFFF_FFFF)
  {
    hide Loadable;
    hide LoadElf;
    hide Ranges;
    hide InImage;
    hide Take;
    hide Pool;
    var start := kernel.(alloc := Take(kernel.alloc).0);
    TakeCounts(kernel.alloc);
    if Take(kernel.alloc).1.Some? {
      RootTaken(kernel);
      LoadableStill(kernel, start, file, segments);
      ElfImage(start, mem, file, segments, true);
      var vm1 := LoadElf(start, mem, file, segments, true).0;
      UserStack.InitExact(vm1);
    }
  }

  lemma LoadableStill(kernel: Vm, start: Vm, file: File, segments: seq<Segment>)
    requires Loadable(kernel, file, segments) && start.table == kernel.table
    ensures Loadable(start, file, segments)
  {
  }

  lemma FirstLedger(start: Vm, mem: Memory, vm1: Vm, mem1: Memory, f: Family, file: File, segments: seq<Segment>)
    requires Loadable(start, file, segments) && Outcome(start, mem, vm1, mem1, file, segments, true)
    requires UserStack.Init(vm1) == (f.vm, Some(StackAt(UserStack.TOP - 1, 1)))
    requires f.heapEnd == HEAP_START && f.members == [Member(StackAt(UserStack.TOP - 1, 1), Ranges(segments))]
    ensures Ledger(f, start, NOTHING)
  {
    hide Loadable;
    hide Outcome;
    hide Count;
    ImageFacts(start, mem, vm1, mem1, file, segments);
    UserStack.InitExact(vm1);
    FirstOwners(start, vm1, f, file, segments);
    ConservedChain(start, vm1, f.vm);
    WholeRanges(segments);
    hide Owners;
  }

  lemma {:induction false} WholeRanges(segments: seq<Segment>)
    ensures Whole(Ranges(segments))
    decreases |segments|
  {
    if segments != [] {
      WholeRanges(segments[1..]);
      if Loads(segments[0]) {
        var s := segments[0];
        assert PageOf(s.virt) <= PageOf(s.virt + s.memSize - 1);
      }
    }
  }

  lemma RootTaken(kernel: Vm)
    requires Exclusive(kernel)
    ensures Exclusive(kernel.(alloc := Take(kernel.alloc).0))
  {
    TakeFacts(kernel.alloc);
    forall fr ensures Count(kernel.(alloc := Take(kernel.alloc).0), fr) <= 1 {
      assert Count(kernel, fr) <= 1;
    }
  }

  lemma ImageFacts(vm: Vm, mem: Memory, vm': Vm, mem': Memory, file: File, segments: seq<Segment>)
    requires Outcome(vm, mem, vm', mem', file, segments, true)
    ensures Conserved(vm, vm') && ImageAdded(vm.table, vm'.table, segments)
    ensures forall p :: p in vm.table ==> p in vm'.table && vm'.table[p] == vm.table[p]
  {
  }

  lemma FirstOwners(start: Vm, vm1: Vm, f: Family, file: File, segments: seq<Segment>)
    requires Loadable(start, file, segments) && ImageAdded(start.table, vm1.table, segments)
    requires forall p :: p in start.table ==> p in vm1.table && vm1.table[p] == start.table[p]
    requires Added(vm1.table, f.vm.table, UserStack.TOP - 1, 1) && UserStack.TOP - 1 !in vm1.table
    requires f.heapEnd == HEAP_START && f.members == [Member(StackAt(UserStack.TOP - 1, 1), Ranges(segments))]
    ensures forall p :: p in start.table ==> p in f.vm.table && f.vm.table[p] == start.table[p]
    ensures forall p :: Owners(f, [], p) == if p in f.vm.table && p !in start.table then 1 else 0
  {
    forall p ensures Owners(f, [], p) == if p in f.vm.table && p !in start.table then 1 else 0 {
      RangesAreImage(start, file, segments, p);
      assert InMembers(f.members, p) == InMember(f.members[0], p) + InMembers([], p);
      assert p in vm1.table <==> p in start.table || InImage(segments, p);
      if InImage(segments, p) {
        var i :| 0 <= i < |segments| && InSegment(segments[i], p);
        assert p !in start.table;
      }
    }
  }

  // ---------------------------------------------------------------------
  // Conservation
  // ---------------------------------------------------------------------

  /** A run of a family from loading its program until all its processes are gone. */
  ghost predicate IsLife(kernel: Vm, mem: Memory, file: File, segments: seq<Segment>, es: seq<Event>) {
    && Exclusive(kernel) && Loadable(kernel, file, segments) && AllContained(file, segments)
    && var f := Start(kernel, mem, file, segments);
       f.Some? && AllPossible(f.value, es) && Run(f.value, es).members == []
  }

  /** Whatever fails on the way, at the end the page table is the kernel's with exactly the lost pages
      on top, and every frame is in the pool or the table as often as before, but for the lost ones. */
  lemma FamilyBalance(kernel: Vm, mem: Memory, file: File, segments: seq<Segment>, es: seq<Event>)
    requires IsLife(kernel, mem, file, segments, es)
    ensures var f := Start(kernel, mem, file, segments).value;
            var end, loss := Run(f, es).vm, LossAfter(f, es, NOTHING);
            && (forall p :: p in kernel.table ==> p in end.table && end.table[p] == kernel.table[p])
            && (forall p :: InRanges(loss.ranges, p) == if p in end.table && p !in kernel.table then 1 else 0)
            && Balanced(kernel, end, loss.frames)
  {
    var f := Start(kernel, mem, file, segments).value;
    StartLedger(kernel, mem, file, segments);
    var start := kernel.(alloc := Take(kernel.alloc).0);
    RunKeepsLedger(f, start, NOTHING, es);
    RootBack(kernel, f.root);
    hide Start;
    hide Run;
    EndOfBooks(Run(f, es), Returned(start, f.root), LossAfter(f, es, NOTHING));
    forall fr ensures Count(Returned(start, f.root), fr) == Count(kernel, fr) {}
  }

  /** At the end the page table is the kernel's and every frame can be allocated again exactly when no
      process that holds code was dropped before the last one and every map was safe. */
  lemma FamilyConserves(kernel: Vm, mem: Memory, file: File, segments: seq<Segment>, es: seq<Event>)
    requires IsLife(kernel, mem, file, segments, es)
    ensures var f := Start(kernel, mem, file, segments).value;
            var end, kept := Run(f, es).vm, LoaderLast(f, es) && AllCareful(f, es);
            && (kept ==> end.table == kernel.table && Pool(end.alloc) == Pool(kernel.alloc))
            && (!kept ==> Pool(end.alloc) != Pool(kernel.alloc))
  {
    var f := Start(kernel, mem, file, segments).value;
    FamilyBalance(kernel, mem, file, segments, es);
    NothingLost(f, es, NOTHING);
    var loss := LossAfter(f, es, NOTHING);
    assert Sound(Run(f, es)) && Whole(loss.ranges) by { LossIsWhole(kernel, mem, file, segments, es); }
    hide IsLife;
    hide Start;
    hide Run;
    LossShows(kernel, Run(f, es).vm, loss);
  }

  lemma LossIsWhole(kernel: Vm, mem: Memory, file: File, segments: seq<Segment>, es: seq<Event>)
    requires IsLife(kernel, mem, file, segments, es)
    ensures var f := Start(kernel, mem, file, segments).value;
            Sound(Run(f, es)) && Whole(LossAfter(f, es, NOTHING).ranges)
  {
    var f := Start(kernel, mem, file, segments).value;
    StartLedger(kernel, mem, file, segments);
    RunKeepsLedger(f, kernel.(alloc := Take(kernel.alloc).0), NOTHING, es);
  }

  /** If the only process, which holds code, forks and goes before its child, its code is never freed. */
  lemma LoaderFirst(f: Family, offset: nat)
    requires |f.members| == 1 && f.members[0].code != [] && Possible(f, Fork(0, offset))
    ensures var es := [Fork(0, offset), Drop(0), Drop(0)];
            AllPossible(f, es) && Run(f, es).members == [] && !LoaderLast(f, es)
  {
    var es := [Fork(0, offset), Drop(0), Drop(0)];
    var f1 := After(f, es[0]);
    var f2 := After(f1, Drop(0));
    assert es[1..] == [Drop(0), Drop(0)] && es[1..][1..] == [Drop(0)] && [Drop(0)][1..] == [];
    assert f1.members[0] == f.members[0] && |f1.members| == 2;
    assert f2.members == [f1.members[1]];
    assert AllPossible(f1, es[1..]);
    var f3 := After(f2, Drop(0));
    assert Run(f2, [Drop(0)]) == Run(f3, []) == f3;
    assert Run(f, es) == Run(f1, es[1..]) == f3;
  }

  lemma RootBack(kernel: Vm, root: Frame)
    requires Take(kernel.alloc).1 == Some(root)
    ensures Pool(Give(Take(kernel.alloc).0, root)) == Pool(kernel.alloc)
  {
    TakeFacts(kernel.alloc);
    GiveThenTake(Take(kernel.alloc).0, root);
  }

  lemma {:induction false} SubsetCount(a: set<Page>, b: set<Page>)
    requires a <= b
    ensures |a| <= |b|
    decreases a
  {
    if x :| x in a {
      SubsetCount(a - {x}, b - {x});
    }
  }

  lemma EndOfBooks(f: Family, start: Vm, lost: Loss)
    requires Ledger(f, start, lost) && f.members == [] && f.heapEnd == HEAP_START
    ensures forall p :: p in start.table ==> p in f.vm.table && f.vm.table[p] == start.table[p]
    ensures forall p :: InRanges(lost.ranges, p) == if p in f.vm.table && p !in start.table then 1 else 0
    ensures Balanced(start, f.vm, lost.frames)
  {
    forall p ensures InRanges(lost.ranges, p) == Owners(f, lost.ranges, p) {}
  }

  /** Without a loss everything is back; any loss keeps frames out of the pool. */
  lemma LossShows(kernel: Vm, end: Vm, loss: Loss)
    requires forall p :: p in kernel.table ==> p in end.table && end.table[p] == kernel.table[p]
    requires forall p :: InRanges(loss.ranges, p) == if p in end.table && p !in kernel.table then 1 else 0
    requires Balanced(kernel, end, loss.frames) && Whole(loss.ranges)
    ensures if loss == NOTHING then end.table == kernel.table && Pool(end.alloc) == Pool(kernel.alloc)
            else Pool(end.alloc) != Pool(kernel.alloc)
  {
    if loss == NOTHING {
      forall p ensures p in end.table <==> p in kernel.table {
        assert InRanges(loss.ranges, p) == 0;
      }
      assert end.table == kernel.table;
      SamePool(kernel, end);
    } else if loss.ranges != [] {
      var p := loss.ranges[0].start;
      assert InRange(p, p, Pages(loss.ranges[0]));
      assert InRanges(loss.ranges, p) >= 1;
      FewerInPool(kernel, end, loss, end.table[p].frame);
    } else {
      var fr :| fr in loss.frames;
      FewerInPool(kernel, end, loss, fr);
    }
  }

  lemma FewerInPool(kernel: Vm, end: Vm, loss: Loss, fr: Frame)
    requires forall p :: p in kernel.table ==> p in end.table && end.table[p] == kernel.table[p]
    requires Balanced(kernel, end, loss.frames)
    requires fr in loss.frames || exists p :: p in end.table && p !in kernel.table && end.table[p].frame == fr
    ensures Pool(end.alloc)[fr] < Pool(kernel.alloc)[fr]
  {
    assert Count(kernel, fr) == Count(end, fr) + loss.frames[fr];
    SubsetCount(Users(kernel.table, fr), Users(end.table, fr));
    if p :| p in end.table && p !in kernel.table && end.table[p].frame == fr {
      SubsetCount(Users(kernel.table, fr), Users(end.table, fr) - {p});
    }
  }

  // ---------------------------------------------------------------------
  // The object
  // ---------------------------------------------------------------------

  class ProcessVm {
    const table: PageTable
    const stack: UserStack.StackHandle
    const heap: HeapHandle
    var code: seq<Range>
    var codeUsage: nat

    ghost function Model(): Member
      reads this, stack
    {
      Member(stack.Model(), code)
    }

    constructor (table: PageTable)
      ensures this.table == table && Model() == Member(UserStack.EMPTY, []) && codeUsage == 0
      ensures fresh(stack) && fresh(heap) && fresh(heap.end) && heap.end.value == HEAP_START
    {
      this.table := table;
      stack := new UserStack.StackHandle(UserStack.EMPTY);
      heap := new HeapHandle.Empty();
      code := [];
      codeUsage := 0;
    }

    /** A forked process: the same page table, the same heap end, a stack of its own, no code. */
    constructor Forked(parent: ProcessVm, s: Stack)
      ensures table == parent.table && heap.end == parent.heap.end
      ensures Model() == Member(s, []) && codeUsage == 0 && fresh(stack)
    {
      table := parent.table;
      stack := new UserStack.StackHandle(s);
      heap := new HeapHandle.Fork(parent.heap);
      code := [];
      codeUsage := 0;
    }

    /** False is a panic. */
    method Load(file: File, segments: seq<Segment>, a: FrameAllocator, ram: Ram) returns (ok: bool)
      requires AllContained(file, segments)
      modifies this, stack, table, ram, a`used, a`remaining, a`recycled
      ensures (Pair(table, a), ram.data, if ok then Some(Model()) else None)
           == LoadProgram(old(Pair(table, a)), old(ram.data), file, segments)
      ensures ok ==> codeUsage == LoadElf(old(Pair(table, a)), old(ram.data), file, segments, true).2.value.1
    {
      var loaded := LoadElfFile(file, segments, table, a, ram, true);
      if loaded.Err? {
        return false;
      }
      code, codeUsage := loaded.value.0, loaded.value.1;
      ok := stack.InitStack(table, a);
    }

    method ForkVm(offset: nat, a: FrameAllocator, ram: Ram) returns (child: Option<ProcessVm>)
      requires UserStack.StackOk(Pair(table, a), stack.Model())
      modifies table, ram, a`used, a`remaining, a`recycled
      ensures Pair(table, a) == UserStack.VFork(old(Pair(table, a)), stack.Model(), offset).0
      ensures child.Some? ==> child.value.table == table && child.value.heap.end == heap.end
      ensures (if child.None? then None else Some(child.value.Model()))
           == ForkedMember(UserStack.VFork(old(Pair(table, a)), stack.Model(), offset).1)
    {
      var s := stack.Fork(table, a, ram, offset);
      if s.None? {
        return None;
      }
      var c := new ProcessVm.Forked(this, s.value);
      return Some(c);
    }

    /** `last`: no other process uses the page table. */
    method CleanUp(last: bool, root: Frame, a: FrameAllocator) returns (r: Result<(), MapError>)
      requires InHeap(heap.end.value) && stack.start <= stack.end
      modifies stack`usage, heap.end, table, a`recycled
      ensures (Pair(table, a), heap.end.value, r)
           == CleanUpVm(old(Pair(table, a)), old(heap.end.value), old(Model()), last, root)
    {
      r := stack.CleanUpStack(table, a);
      if r.Err? || !last {
        return r;
      }
      r := heap.CleanUpHeap(table, a);
      if r.Err? {
        return r;
      }
      r := UnmapCode(code, table, a);
      if r.Err? {
        return r;
      }
      a.DeallocateFrame(root);
      return Ok(());
    }
  }

  function ForkedMember(s: Option<Stack>): Option<Member> {
    if s.None? then None else Some(Member(s.value, []))
  }

  method UnmapCode(code: seq<Range>, t: PageTable, a: FrameAllocator) returns (r: Result<(), MapError>)
    modifies t, a`recycled
    ensures (Pair(t, a), r) == UnmapRanges(old(Pair(t, a)), code)
  {
    var i := 0;
    assert code[0..] == code;
    while i < |code|
      invariant 0 <= i <= |code|
      invariant UnmapRanges(Pair(t, a), code[i..]) == UnmapRanges(old(Pair(t, a)), code)
    {
      assert code[i..][0] == code[i] && code[i..][1..] == code[i + 1..];
      if code[i].start <= code[i].end {
        r := UnmapRange(code[i].start, code[i].end, t, a);
        if r.Err? {
          return r;
        }
      } else {
        assert UnmapPages(Pair(t, a), code[i].start, 0) == (Pair(t, a), Ok(()));
      }
      i := i + 1;
    }
    return Ok(());
  }
}
