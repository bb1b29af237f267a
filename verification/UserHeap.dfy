/** The heap shared by a process and those it forked, grown and shrunk by `brk`. */
module UserHeap {
  import opened Common
  import opened Frames
  import opened Paging

  const HEAP_START := 0x2000_0000_0000
  const HEAP_PAGES := 0x100000
  const HEAP_SIZE := HEAP_PAGES * PAGE_SIZE
  const BASE_PAGE: Page := HEAP_START / PAGE_SIZE

  /** Pages of a heap that ends at `end`: none, or all up to and including the page of `end`. */
  function HeapCount(end: nat): int {
    if end == HEAP_START then 0 else end / PAGE_SIZE - BASE_PAGE + 1
  }

  predicate InHeap(end: nat) {
    HEAP_START <= end <= HEAP_START + HEAP_SIZE
  }

  lemma HeapCountRange(end: nat)
    requires InHeap(end)
    ensures 0 <= HeapCount(end) <= HEAP_PAGES + 1
    ensures HeapCount(end) == 0 <==> end == HEAP_START
  {
  }

  /** The address space and the heap's end, before and after a call. */
  datatype Heap = Heap(vm: Vm, end: nat)

  function Brk(h: Heap, newEnd: Option<nat>): (Heap, Option<nat>)
    requires InHeap(h.end)
  {
    if newEnd.None? then (h, Some(h.end))
    else if !InHeap(newEnd.value) then (h, None)
    else
      var cur, new_ := HeapCount(h.end), HeapCount(newEnd.value);
      if new_ > cur then
        var (vm', r) := MapPages(h.vm, BASE_PAGE + cur, new_ - cur, RangeFlags(true));
        if r.Ok? then (Heap(vm', newEnd.value), newEnd) else (h.(vm := vm'), None)
      else if new_ < cur then
        var (vm', r) := UnmapPages(h.vm, BASE_PAGE + new_, cur - new_);
        if r.Ok? then (Heap(vm', newEnd.value), newEnd) else (h.(vm := vm'), None)
      else (h.(end := newEnd.value), newEnd)
  }

  function CleanUp(h: Heap): (Heap, Result<(), MapError>)
    requires InHeap(h.end)
  {
    if h.end == HEAP_START then (h, Ok(()))
    else
      var (vm', r) := UnmapPages(h.vm, BASE_PAGE, h.end / PAGE_SIZE - BASE_PAGE + 1);
      (Heap(vm', HEAP_START), r)
  }

  function BrkAll(h: Heap, ends: seq<Option<nat>>): Heap
    requires InHeap(h.end)
    decreases |ends|
  {
    if ends == [] then h
    else
      BrkInHeap(h, ends[0]);
      BrkAll(Brk(h, ends[0]).0, ends[1..])
  }

  lemma BrkInHeap(h: Heap, newEnd: Option<nat>)
    requires InHeap(h.end)
    ensures InHeap(Brk(h, newEnd).0.end)
  {
  }

  /** Everything up to the end of the heap is mapped. */
  ghost predicate Backed(h: Heap) {
    InHeap(h.end) && AllMapped(h.vm, BASE_PAGE, HeapCount(h.end))
  }

  /** Of the pages a heap can have, exactly those up to its end are mapped. */
  ghost predicate Exact(h: Heap) {
    InHeap(h.end) &&
    forall p :: InRange(p, BASE_PAGE, HEAP_PAGES + 1) ==>
      (p in h.vm.table <==> InRange(p, BASE_PAGE, HeapCount(h.end)))
  }

  /** Whatever fails, the pages up to the end stay mapped and the other pages outside the heap
      are untouched. */
  lemma BrkKeepsBacked(h: Heap, newEnd: Option<nat>)
    requires Backed(h)
    ensures Backed(Brk(h, newEnd).0)
    ensures forall p :: !InRange(p, BASE_PAGE, HEAP_PAGES + 1) ==>
      (p in Brk(h, newEnd).0.vm.table <==> p in h.vm.table)
      && (p in h.vm.table ==> Brk(h, newEnd).0.vm.table[p] == h.vm.table[p])
  {
    if newEnd.Some? && InHeap(newEnd.value) {
      var cur, new_ := HeapCount(h.end), HeapCount(newEnd.value);
      if new_ > cur {
        MapKeeps(h.vm, BASE_PAGE + cur, new_ - cur, RangeFlags(true));
      } else if new_ < cur {
        UnmapExact(h.vm, BASE_PAGE + new_, cur - new_);
      }
    }
  }

  lemma {:induction false} BrkAllKeepsBacked(h: Heap, ends: seq<Option<nat>>)
    requires Backed(h)
    ensures Backed(BrkAll(h, ends))
    decreases |ends|
  {
    if ends != [] {
      BrkKeepsBacked(h, ends[0]);
      BrkAllKeepsBacked(Brk(h, ends[0]).0, ends[1..]);
    }
  }

  /** The request is only a query, or lies in the heap's range and the pages it adds are available. */
  predicate Affordable(h: Heap, newEnd: Option<nat>) {
    newEnd.Some? ==>
      InHeap(newEnd.value) && HeapCount(newEnd.value) - HeapCount(h.end) <= |Pool(h.vm.alloc)|
  }

  lemma GrowExact(h: Heap, newEnd: nat)
    requires Exact(h) && InHeap(newEnd) && HeapCount(newEnd) > HeapCount(h.end)
    ensures var (h', r) := Brk(h, Some(newEnd));
            && (r.Some? <==> Affordable(h, Some(newEnd)))
            && (r.Some? ==> Exact(h') && Conserved(h.vm, h'.vm))
  {
    var cur, n := HeapCount(h.end), HeapCount(newEnd) - HeapCount(h.end);
    MapExact(h.vm, BASE_PAGE + cur, n, RangeFlags(true));
    MapKeeps(h.vm, BASE_PAGE + cur, n, RangeFlags(true));
    assert AllFree(h.vm, BASE_PAGE + cur, n);
    hide Conserved;
  }

  lemma ShrinkExact(h: Heap, newEnd: nat)
    requires Exact(h) && InHeap(newEnd) && HeapCount(newEnd) < HeapCount(h.end)
    ensures var (h', r) := Brk(h, Some(newEnd));
            && r.Some? && Exact(h') && Conserved(h.vm, h'.vm)
  {
    var new_, n := HeapCount(newEnd), HeapCount(h.end) - HeapCount(newEnd);
    UnmapExact(h.vm, BASE_PAGE + new_, n);
    assert AllMapped(h.vm, BASE_PAGE + new_, n);
    hide Conserved;
  }

  /** On an exact heap a request succeeds exactly when it is in range and there are enough frames
      for the pages it adds; a success leaves the heap exact and loses no frame. */
  lemma BrkExact(h: Heap, newEnd: Option<nat>)
    requires Exact(h)
    ensures var (h', r) := Brk(h, newEnd);
            && (r.Some? <==> Affordable(h, newEnd))
            && (r.Some? ==> r == Some(h'.end) && Exact(h') && Conserved(h.vm, h'.vm))
            && (r.Some? && newEnd.Some? ==> h'.end == newEnd.value)
            && (r.None? ==> h'.end == h.end)
  {
    if newEnd.Some? && InHeap(newEnd.value) {
      var cur, new_ := HeapCount(h.end), HeapCount(newEnd.value);
      if new_ > cur {
        GrowExact(h, newEnd.value);
      } else if new_ < cur {
        ShrinkExact(h, newEnd.value);
      }
    }
  }

  /** Every request of the list succeeds. */
  ghost predicate AllGranted(h: Heap, ends: seq<Option<nat>>)
    requires InHeap(h.end)
    decreases |ends|
  {
    ends != [] ==>
      var (h', r) := Brk(h, ends[0]);
      r.Some? && (BrkInHeap(h, ends[0]); AllGranted(h', ends[1..]))
  }

  /** Under any sequence of granted requests, by any of the processes that share the heap, the
      mapped heap pages are exactly those up to the end, at most HEAP_PAGES + 1 of them. */
  lemma {:induction false} HeapStaysExact(h: Heap, ends: seq<Option<nat>>)
    requires Exact(h) && AllGranted(h, ends)
    ensures Exact(BrkAll(h, ends)) && Conserved(h.vm, BrkAll(h, ends).vm)
    ensures HeapCount(BrkAll(h, ends).end) <= HEAP_PAGES + 1
    decreases |ends|
  {
    if ends != [] {
      BrkExact(h, ends[0]);
      HeapStaysExact(Brk(h, ends[0]).0, ends[1..]);
    }
  }

  /** Cleaning up unmaps exactly the heap's pages and conserves the frames. */
  lemma CleanUpExact(h: Heap)
    requires Backed(h)
    ensures var (h', r) := CleanUp(h);
            && r.Ok? && h'.end == HEAP_START && Conserved(h.vm, h'.vm)
            && Removed(h.vm.table, h'.vm.table, BASE_PAGE, HeapCount(h.end))
            && (Exact(h) ==> Exact(h'))
  {
    UnmapExact(h.vm, BASE_PAGE, HeapCount(h.end));
  }

  // ---------------------------------------------------------------------
  // In addresses
  // ---------------------------------------------------------------------

  /** The pages from that of the heap's first byte, 0x2000_0000_0000, to that of its end. */
  predicate HeapPage(end: nat, p: Page) {
    end != 0x2000_0000_0000 && 0x2000_0000_0000 / 4096 <= p <= end / 4096
  }

  /** The pages that a heap can have. */
  predicate HeapRegion(p: Page) {
    0x2000_0000_0000 / 4096 <= p <= 0x2001_0000_0000 / 4096
  }

  predicate MappedAt(t: map<Page, Entry>, address: nat) {
    address / 4096 in t
  }

  /** An exact heap ends in its 4 GiB region; of the pages that a heap can have, exactly those from its
      first byte to its end are mapped. */
  lemma ExactPages(h: Heap)
    ensures Exact(h) <==>
            && 0x2000_0000_0000 <= h.end <= 0x2001_0000_0000
            && forall p :: HeapRegion(p) ==>
                 (p in h.vm.table <==> HeapPage(h.end, p))
  {
    if InHeap(h.end) {
      HeapCountRange(h.end);
      forall p ensures InRange(p, BASE_PAGE, HeapCount(h.end)) <==> HeapPage(h.end, p) {}
      forall p ensures InRange(p, BASE_PAGE, HEAP_PAGES + 1) <==> HeapRegion(p) {}
    }
  }

  /** A heap is backed if every address from its first byte to its end is mapped. */
  lemma BackedAddresses(h: Heap)
    ensures Backed(h) <==>
            && 0x2000_0000_0000 <= h.end <= 0x2001_0000_0000
            && forall a: nat :: 0x2000_0000_0000 <= a <= h.end != 0x2000_0000_0000 ==> MappedAt(h.vm.table, a)
  {
    if InHeap(h.end) {
      HeapCountRange(h.end);
      if Backed(h) {
        forall a: nat | 0x2000_0000_0000 <= a <= h.end && h.end != 0x2000_0000_0000 ensures MappedAt(h.vm.table, a) {
          assert InRange(a / 4096, BASE_PAGE, HeapCount(h.end));
        }
      } else {
        var p: Page :| InRange(p, BASE_PAGE, HeapCount(h.end)) && p !in h.vm.table;
        assert p * 4096 / 4096 == p;
        assert !MappedAt(h.vm.table, p * 4096);
      }
    }
  }

  /** A request of an exact heap succeeds exactly if it is a query, or its address is in the region and
      there are frames for the pages between the ends; then the end is the one asked for, and the pages
      from the first byte to it are those that are mapped. */
  lemma BrkInAddresses(h: Heap, newEnd: nat)
    requires Exact(h)
    ensures var (h', r) := Brk(h, Some(newEnd));
            var used := if h.end == 0x2000_0000_0000 then 0 else (h.end - 0x2000_0000_0000) / 4096 + 1;
            var wanted := if newEnd == 0x2000_0000_0000 then 0 else (newEnd - 0x2000_0000_0000) / 4096 + 1;
            && (r.Some? <==> 0x2000_0000_0000 <= newEnd <= 0x2001_0000_0000 && wanted - used <= |Pool(h.vm.alloc)|)
            && (r.Some? ==> r.value == h'.end == newEnd)
            && (r.Some? ==> forall p :: HeapRegion(p) ==>
                              (p in h'.vm.table <==> HeapPage(newEnd, p)))
    ensures Brk(h, None) == (h, Some(h.end))
  {
    BrkExact(h, Some(newEnd));
    ExactPages(Brk(h, Some(newEnd)).0);
  }

  /** The same after any sequence of granted requests; after any sequence at all, every address up to
      the end is mapped. */
  lemma HeapInAddresses(h: Heap, ends: seq<Option<nat>>)
    requires Exact(h)
    ensures AllGranted(h, ends) ==>
              forall p :: HeapRegion(p) ==>
                (p in BrkAll(h, ends).vm.table <==> HeapPage(BrkAll(h, ends).end, p))
    ensures forall a: nat :: 0x2000_0000_0000 <= a <= BrkAll(h, ends).end != 0x2000_0000_0000 ==>
              MappedAt(BrkAll(h, ends).vm.table, a)
  {
    HeapCountRange(h.end);
    assert Backed(h);
    BrkAllKeepsBacked(h, ends);
    BackedAddresses(BrkAll(h, ends));
    if AllGranted(h, ends) {
      HeapStaysExact(h, ends);
      ExactPages(BrkAll(h, ends));
    }
  }

  /** Cleaning up unmaps exactly the pages from the first byte to the end. */
  lemma CleanUpInAddresses(h: Heap)
    requires Backed(h)
    ensures var h' := CleanUp(h).0;
            h'.end == 0x2000_0000_0000 &&
            forall p :: p in h'.vm.table <==> p in h.vm.table && !HeapPage(h.end, p)
  {
    HeapCountRange(h.end);
    CleanUpExact(h);
    forall p ensures InRange(p, BASE_PAGE, HeapCount(h.end)) <==> HeapPage(h.end, p) {}
  }

  /** The pages that a request adds are writable and open to the user. */
  lemma BrkIsWritable(h: Heap, newEnd: Option<nat>)
    requires InHeap(h.end)
    ensures var t' := Brk(h, newEnd).0.vm.table;
            forall p :: p in t' && p !in h.vm.table ==> t'[p].flags.writable && t'[p].flags.user
  {
    if newEnd.Some? && InHeap(newEnd.value) {
      var cur, new_ := HeapCount(h.end), HeapCount(newEnd.value);
      if new_ > cur {
        RangesAreWritable(h.vm, BASE_PAGE + cur, new_ - cur, true);
      } else if new_ < cur {
        UnmapAddsNothing(h.vm, BASE_PAGE + new_, cur - new_);
      }
    }
  }

  lemma {:induction false} UnmapAddsNothing(vm: Vm, lo: Page, n: nat)
    ensures forall p :: p in UnmapPages(vm, lo, n).0.table ==> p in vm.table
    decreases n
  {
    if n > 0 && lo in vm.table {
      UnmapAddsNothing(Vm(vm.table - {lo}, Give(vm.alloc, vm.table[lo].frame)), lo + 1, n - 1);
    }
  }

  // ---------------------------------------------------------------------
  // Requests that fail
  // ---------------------------------------------------------------------

  /** A request leaves an exact heap exact if and only if it is out of range, or affordable, or there
      is no frame at all. In all other cases it fails and leaves the page behind the end mapped. */
  lemma FailedBrkExact(h: Heap, newEnd: Option<nat>)
    requires Exact(h)
    ensures Exact(Brk(h, newEnd).0) <==>
            (newEnd.Some? && !InHeap(newEnd.value)) || Affordable(h, newEnd) || |Pool(h.vm.alloc)| == 0
    ensures !Exact(Brk(h, newEnd).0) ==>
            Brk(h, newEnd).0.end == h.end && BASE_PAGE + HeapCount(h.end) in Brk(h, newEnd).0.vm.table
  {
    BrkExact(h, newEnd);
    if newEnd.Some? && InHeap(newEnd.value) && !Affordable(h, newEnd) {
      FailedGrowth(h, newEnd.value);
    }
  }

  lemma FailedGrowth(h: Heap, newEnd: nat)
    requires Exact(h) && InHeap(newEnd) && !Affordable(h, Some(newEnd))
    ensures var h' := Brk(h, Some(newEnd)).0;
            && h'.end == h.end
            && (if |Pool(h.vm.alloc)| == 0 then h' == h
                else BASE_PAGE + HeapCount(h.end) in h'.vm.table && !Exact(h'))
  {
    var lo, n := BASE_PAGE + HeapCount(h.end), HeapCount(newEnd) - HeapCount(h.end);
    MapExact(h.vm, lo, n, RangeFlags(true));
    MapKeeps(h.vm, lo, n, RangeFlags(true));
    TakeFacts(h.vm.alloc);
    assert InRange(lo, BASE_PAGE, HEAP_PAGES + 1);
    if |Pool(h.vm.alloc)| > 0 {
      assert lo !in h.vm.table;
      assert Mapped(h.vm, lo, n, RangeFlags(true)) >= 1;
      assert InRange(lo, lo, Mapped(h.vm, lo, n, RangeFlags(true)));
    }
  }

  /** Under any sequence of requests the heap never grows past a page that was left mapped. */
  lemma {:induction false} NeverPast(h: Heap, ends: seq<Option<nat>>, c: nat)
    requires Backed(h) && HeapCount(h.end) <= c <= HEAP_PAGES && BASE_PAGE + c in h.vm.table
    ensures var h' := BrkAll(h, ends);
            Backed(h') && HeapCount(h'.end) <= c && BASE_PAGE + c in h'.vm.table
    decreases |ends|
  {
    if ends != [] {
      BrkKeepsBacked(h, ends[0]);
      NotPast(h, ends[0], c);
      NeverPast(Brk(h, ends[0]).0, ends[1..], c);
    }
  }

  lemma NotPast(h: Heap, newEnd: Option<nat>, c: nat)
    requires Backed(h) && HeapCount(h.end) <= c <= HEAP_PAGES && BASE_PAGE + c in h.vm.table
    ensures var h' := Brk(h, newEnd).0;
            InHeap(h'.end) && HeapCount(h'.end) <= c && BASE_PAGE + c in h'.vm.table
  {
    if newEnd.Some? && InHeap(newEnd.value) {
      var cur, new_ := HeapCount(h.end), HeapCount(newEnd.value);
      if new_ > cur {
        MapExact(h.vm, BASE_PAGE + cur, new_ - cur, RangeFlags(true));
        MapKeeps(h.vm, BASE_PAGE + cur, new_ - cur, RangeFlags(true));
        assert new_ > c ==> InRange(BASE_PAGE + c, BASE_PAGE + cur, new_ - cur);
      } else if new_ < cur {
        UnmapExact(h.vm, BASE_PAGE + new_, cur - new_);
      }
    }
  }

  /** A request that fails while there is a frame does lasting damage: whatever is asked for later,
      the heap never again grows past its present pages, and cleaning up leaves a page mapped. */
  lemma DamageStays(h: Heap, newEnd: nat, ends: seq<Option<nat>>)
    requires Exact(h) && InHeap(newEnd) && !Affordable(h, Some(newEnd)) && |Pool(h.vm.alloc)| > 0
    ensures var h' := BrkAll(Brk(h, Some(newEnd)).0, ends);
            && InHeap(h'.end) && HeapCount(h'.end) <= HeapCount(h.end)
            && BASE_PAGE + HeapCount(h.end) in CleanUp(h').0.vm.table
  {
    FailedBrkExact(h, Some(newEnd));
    BrkKeepsBacked(h, Some(newEnd));
    NeverPast(Brk(h, Some(newEnd)).0, ends, HeapCount(h.end));
    CleanUpExact(BrkAll(Brk(h, Some(newEnd)).0, ends));
  }

  // ---------------------------------------------------------------------
  // The object: the end is a cell shared by all the processes of the family
  // ---------------------------------------------------------------------

  class EndCell {
    var value: nat

    constructor ()
      ensures value == HEAP_START
    {
      value := HEAP_START;
    }
  }

  class HeapHandle {
    const end: EndCell

    constructor Empty()
      ensures fresh(end) && end.value == HEAP_START
    {
      end := new EndCell();
    }

    /** A forked process shares the end, not a copy of it. */
    constructor Fork(parent: HeapHandle)
      ensures end == parent.end
    {
      end := parent.end;
    }

    ghost function Model(t: PageTable, a: FrameAllocator): Heap
      reads this, end, t, a
    {
      Heap(Pair(t, a), end.value)
    }

    method BrkTo(newEnd: Option<nat>, t: PageTable, a: FrameAllocator) returns (r: Option<nat>)
      requires InHeap(end.value)
      modifies end, t, a`used, a`remaining, a`recycled
      ensures (Model(t, a), r) == Brk(old(Model(t, a)), newEnd)
    {
      if newEnd.None? {
        return Some(end.value);
      }
      if newEnd.value > HEAP_START + HEAP_SIZE || newEnd.value < HEAP_START {
        return None;
      }
      var curPage := end.value / PAGE_SIZE;
      if end.value != HEAP_START {
        curPage := curPage + 1;
      }
      var newPage := newEnd.value / PAGE_SIZE;
      if newEnd.value != HEAP_START {
        newPage := newPage + 1;
      }
      if newPage > curPage {
        var m := MapRange(curPage, newPage - 1, t, a, true);
        if m.Err? {
          return None;
        }
      } else if newPage < curPage {
        var m := UnmapRange(newPage, curPage - 1, t, a);
        if m.Err? {
          return None;
        }
      }
      end.value := newEnd.value;
      return newEnd;
    }

    method CleanUpHeap(t: PageTable, a: FrameAllocator) returns (r: Result<(), MapError>)
      requires InHeap(end.value)
      modifies end, t, a`recycled
      ensures (Model(t, a), r) == CleanUp(old(Model(t, a)))
    {
      if end.value == HEAP_START {
        return Ok(());
      }
      var last := end.value / PAGE_SIZE;
      end.value := HEAP_START;
      r := UnmapRange(BASE_PAGE, last, t, a);
    }
  }
}
