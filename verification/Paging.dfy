/** Mapping and unmapping page ranges. The page table is a partial map from pages to entries. */
module Paging {
  import opened Common
  import opened Frames

  type Page = nat

  datatype Flags = Flags(writable: bool, executable: bool, user: bool)

  datatype Entry = Entry(frame: Frame, flags: Flags)

  datatype MapError = FrameAllocationFailed | PageAlreadyMapped | PageNotMapped

  /** A page table and the allocator behind it. */
  datatype Vm = Vm(table: map<Page, Entry>, alloc: Alloc)

  /** p is one of the pages lo, lo + 1, ..., lo + n - 1. */
  predicate InRange(p: Page, lo: Page, n: nat) {
    lo <= p < lo + n
  }

  /** t' is t with exactly the pages of a range added. */
  ghost predicate Added(t: map<Page, Entry>, t': map<Page, Entry>, lo: Page, n: nat) {
    && (forall p :: p in t' <==> p in t || InRange(p, lo, n))
    && (forall p :: p in t && p in t' ==> t'[p] == t[p])
  }

  /** t' is t without exactly the pages of a range. */
  ghost predicate Removed(t: map<Page, Entry>, t': map<Page, Entry>, lo: Page, n: nat) {
    && (forall p :: p in t' <==> p in t && !InRange(p, lo, n))
    && (forall p :: p in t' && p in t ==> t'[p] == t[p])
  }

  function RangeFlags(user: bool): Flags {
    Flags(true, true, user)
  }

  /** Map n pages from lo, one new frame each. On an error the pages already mapped stay
      mapped, and a frame taken for a page that is mapped already is lost. */
  function MapPages(vm: Vm, lo: Page, n: nat, flags: Flags): (Vm, Result<(), MapError>)
    decreases n
  {
    if n == 0 then (vm, Ok(()))
    else
      var (alloc, frame) := Take(vm.alloc);
      if frame.None? then (vm, Err(FrameAllocationFailed))
      else if lo in vm.table then (vm.(alloc := alloc), Err(PageAlreadyMapped))
      else MapPages(Vm(vm.table[lo := Entry(frame.value, flags)], alloc), lo + 1, n - 1, flags)
  }

  /** Unmap n pages from lo and recycle their frames, up to the first page that is not mapped. */
  function UnmapPages(vm: Vm, lo: Page, n: nat): (Vm, Result<(), MapError>)
    decreases n
  {
    if n == 0 then (vm, Ok(()))
    else if lo !in vm.table then (vm, Err(PageNotMapped))
    else UnmapPages(Vm(vm.table - {lo}, Give(vm.alloc, vm.table[lo].frame)), lo + 1, n - 1)
  }

  // ---------------------------------------------------------------------
  // Where the frames are
  // ---------------------------------------------------------------------

  function Users(t: map<Page, Entry>, f: Frame): set<Page> {
    set p | p in t && t[p].frame == f
  }

  /** How often a frame occurs: in the pool, and in the table. */
  function Count(vm: Vm, f: Frame): nat {
    Pool(vm.alloc)[f] + |Users(vm.table, f)|
  }

  ghost predicate Conserved(vm: Vm, vm': Vm) {
    forall f :: Count(vm', f) == Count(vm, f)
  }

  lemma UsersAdd(t: map<Page, Entry>, p: Page, e: Entry, f: Frame)
    requires p !in t
    ensures |Users(t[p := e], f)| == |Users(t, f)| + if e.frame == f then 1 else 0
  {
    assert Users(t[p := e], f) == Users(t, f) + if e.frame == f then {p} else {};
  }

  lemma UsersRemove(t: map<Page, Entry>, p: Page, f: Frame)
    requires p in t
    ensures |Users(t - {p}, f)| == |Users(t, f)| - if t[p].frame == f then 1 else 0
  {
    assert Users(t - {p}, f) == Users(t, f) - if t[p].frame == f then {p} else {};
  }

  ghost predicate AllFree(vm: Vm, lo: Page, n: nat) {
    forall p :: InRange(p, lo, n) ==> p !in vm.table
  }

  ghost predicate AllMapped(vm: Vm, lo: Page, n: nat) {
    forall p :: InRange(p, lo, n) ==> p in vm.table
  }

  /** Mapping succeeds exactly when every page is free and there are enough frames; then no
      frame is lost. */
  lemma {:induction false} MapExact(vm: Vm, lo: Page, n: nat, flags: Flags)
    ensures var (vm', r) := MapPages(vm, lo, n, flags);
            && (r.Ok? <==> AllFree(vm, lo, n) && n <= |Pool(vm.alloc)|)
            && (r.Ok? ==> |Pool(vm'.alloc)| == |Pool(vm.alloc)| - n && Conserved(vm, vm'))
    decreases n
  {
    if n > 0 {
      TakeFacts(vm.alloc);
      var (alloc, frame) := Take(vm.alloc);
      assert InRange(lo, lo, n);
      if frame.Some? && lo !in vm.table {
        var mid := Vm(vm.table[lo := Entry(frame.value, flags)], alloc);
        MapExact(mid, lo + 1, n - 1, flags);
        forall f ensures Count(mid, f) == Count(vm, f) {
          UsersAdd(vm.table, lo, Entry(frame.value, flags), f);
        }
        assert AllFree(vm, lo, n) <==> AllFree(mid, lo + 1, n - 1) by {
          forall p | p != lo ensures InRange(p, lo, n) <==> InRange(p, lo + 1, n - 1) {}
        }
      }
    }
  }

  /** How many pages a mapping gets through. */
  function Mapped(vm: Vm, lo: Page, n: nat, flags: Flags): (j: nat)
    ensures j <= n && (j == n <==> MapPages(vm, lo, n, flags).1.Ok?)
    decreases n
  {
    if n == 0 then 0
    else
      var (alloc, frame) := Take(vm.alloc);
      if frame.None? || lo in vm.table then 0
      else 1 + Mapped(Vm(vm.table[lo := Entry(frame.value, flags)], alloc), lo + 1, n - 1, flags)
  }

  /** Entries that were there stay as they are, whether or not mapping succeeds; the pages added
      are the first ones of the range. */
  lemma {:induction false} MapKeeps(vm: Vm, lo: Page, n: nat, flags: Flags)
    ensures var vm' := MapPages(vm, lo, n, flags).0;
            && Added(vm.table, vm'.table, lo, Mapped(vm, lo, n, flags))
            && (forall p :: p in vm'.table && p !in vm.table ==> vm'.table[p].flags == flags)
    decreases n
  {
    if n > 0 {
      var (alloc, frame) := Take(vm.alloc);
      if frame.Some? && lo !in vm.table {
        var mid := Vm(vm.table[lo := Entry(frame.value, flags)], alloc);
        MapKeeps(mid, lo + 1, n - 1, flags);
      }
    }
  }

  /** Each page mapped costs a frame, and a failure at most one more. */
  lemma {:induction false} MapCosts(vm: Vm, lo: Page, n: nat, flags: Flags)
    ensures var j, left := Mapped(vm, lo, n, flags), |Pool(MapPages(vm, lo, n, flags).0.alloc)|;
            |Pool(vm.alloc)| - j - (if j < n then 1 else 0) <= left <= |Pool(vm.alloc)| - j
    decreases n
  {
    if n > 0 {
      TakeFacts(vm.alloc);
      var (alloc, frame) := Take(vm.alloc);
      if frame.Some? && lo !in vm.table {
        MapCosts(Vm(vm.table[lo := Entry(frame.value, flags)], alloc), lo + 1, n - 1, flags);
      }
    }
  }

  /** The frame lost if mapping runs into a mapped page: it has been taken and is not given back. */
  function MapLost(vm: Vm, lo: Page, n: nat, flags: Flags): multiset<Frame>
    decreases n
  {
    if n == 0 then multiset{}
    else
      var (alloc, frame) := Take(vm.alloc);
      if frame.None? then multiset{}
      else if lo in vm.table then multiset{frame.value}
      else MapLost(Vm(vm.table[lo := Entry(frame.value, flags)], alloc), lo + 1, n - 1, flags)
  }

  /** Nothing but these frames has gone. */
  ghost predicate Balanced(vm: Vm, vm': Vm, lost: multiset<Frame>) {
    forall f :: Count(vm, f) == Count(vm', f) + lost[f]
  }

  /** Running into a mapped page loses exactly one frame; otherwise none is lost. */
  lemma {:induction false} MapBalance(vm: Vm, lo: Page, n: nat, flags: Flags)
    ensures var (vm', r) := MapPages(vm, lo, n, flags);
            && Balanced(vm, vm', MapLost(vm, lo, n, flags))
            && |MapLost(vm, lo, n, flags)| == if r == Err(PageAlreadyMapped) then 1 else 0
    decreases n
  {
    hide Count;
    if n > 0 {
      TakenIsGone(vm);
      var (alloc, frame) := Take(vm.alloc);
      if frame.Some? && lo !in vm.table {
        var mid := Vm(vm.table[lo := Entry(frame.value, flags)], alloc);
        MapBalance(mid, lo + 1, n - 1, flags);
        TakenIsMapped(vm, lo, flags);
      }
    }
  }

  lemma TakenIsGone(vm: Vm)
    ensures var (alloc, frame) := Take(vm.alloc);
            Balanced(vm, vm.(alloc := alloc), if frame.Some? then multiset{frame.value} else multiset{})
  {
    TakeFacts(vm.alloc);
  }

  lemma TakenIsMapped(vm: Vm, lo: Page, flags: Flags)
    requires lo !in vm.table && Take(vm.alloc).1.Some?
    ensures var (alloc, frame) := Take(vm.alloc);
            Conserved(vm, Vm(vm.table[lo := Entry(frame.value, flags)], alloc))
  {
    TakeFacts(vm.alloc);
    var (alloc, frame) := Take(vm.alloc);
    var mid := Vm(vm.table[lo := Entry(frame.value, flags)], alloc);
    forall f ensures Count(mid, f) == Count(vm, f) {
      UsersAdd(vm.table, lo, Entry(frame.value, flags), f);
    }
  }

  /** What is mapped for heaps and stacks is writable, and open to the user if it is to be. */
  lemma RangesAreWritable(vm: Vm, lo: Page, n: nat, user: bool)
    ensures var vm' := MapPages(vm, lo, n, RangeFlags(user)).0;
            forall p :: p in vm'.table && p !in vm.table ==>
              vm'.table[p].flags.writable && vm'.table[p].flags.executable && vm'.table[p].flags.user == user
  {
    MapKeeps(vm, lo, n, RangeFlags(user));
  }

  /** Unmapping succeeds exactly when every page is mapped. Then exactly these pages are gone;
      in any case no frame is lost. */
  lemma {:induction false} UnmapExact(vm: Vm, lo: Page, n: nat)
    ensures var (vm', r) := UnmapPages(vm, lo, n);
            && (r.Ok? <==> AllMapped(vm, lo, n))
            && (r.Ok? ==> Removed(vm.table, vm'.table, lo, n))
            && Conserved(vm, vm')
    decreases n
  {
    if n > 0 {
      assert InRange(lo, lo, n);
      if lo in vm.table {
        var mid := Vm(vm.table - {lo}, Give(vm.alloc, vm.table[lo].frame));
        UnmapExact(mid, lo + 1, n - 1);
        forall f ensures Count(mid, f) == Count(vm, f) {
          UsersRemove(vm.table, lo, f);
          GiveThenTake(vm.alloc, vm.table[lo].frame);
        }
        assert AllMapped(vm, lo, n) <==> AllMapped(mid, lo + 1, n - 1) by {
          forall p | p != lo ensures InRange(p, lo, n) <==> InRange(p, lo + 1, n - 1) {}
        }
      }
    }
  }

  /** Unmapping what has just been mapped undoes it: the same table, the same frames available. */
  lemma MapThenUnmap(vm: Vm, lo: Page, n: nat, flags: Flags)
    requires MapPages(vm, lo, n, flags).1.Ok?
    ensures var (vm', r) := UnmapPages(MapPages(vm, lo, n, flags).0, lo, n);
            r.Ok? && vm'.table == vm.table && Pool(vm'.alloc) == Pool(vm.alloc)
  {
    var mid := MapPages(vm, lo, n, flags).0;
    MapExact(vm, lo, n, flags);
    MapKeeps(vm, lo, n, flags);
    UnmapExact(mid, lo, n);
    SamePool(vm, UnmapPages(mid, lo, n).0);
  }

  /** With the same table and nothing lost, the same frames are available. */
  lemma SamePool(vm: Vm, vm': Vm)
    requires vm'.table == vm.table && Conserved(vm, vm')
    ensures Pool(vm'.alloc) == Pool(vm.alloc)
  {
    forall f ensures Pool(vm'.alloc)[f] == Pool(vm.alloc)[f] {
      assert Count(vm', f) == Count(vm, f);
    }
  }

  lemma ConservedChain(a: Vm, b: Vm, c: Vm)
    requires Conserved(a, b) && Conserved(b, c)
    ensures Conserved(a, c)
  {
  }

  /** Free pages at lo before the first mapped one, at most n. */
  function Lead(t: map<Page, Entry>, lo: Page, n: nat): (r: nat)
    ensures r <= n && (r == n <==> forall p :: InRange(p, lo, n) ==> p !in t)
    decreases n
  {
    if n == 0 then 0
    else if lo in t then assert InRange(lo, lo, n); 0
    else
      assert forall p :: InRange(p, lo, n) <==> p == lo || InRange(p, lo + 1, n - 1);
      1 + Lead(t, lo + 1, n - 1)
  }

  lemma {:induction false} SameLead(t: map<Page, Entry>, t': map<Page, Entry>, lo: Page, n: nat)
    requires forall p :: InRange(p, lo, n) ==> (p in t <==> p in t')
    ensures Lead(t, lo, n) == Lead(t', lo, n)
    decreases n
  {
    if n > 0 {
      assert InRange(lo, lo, n);
      forall p | InRange(p, lo + 1, n - 1) ensures p in t <==> p in t' {
        assert InRange(p, lo, n);
      }
      SameLead(t, t', lo + 1, n - 1);
    }
  }

  /** Mapping runs into a mapped page exactly if there is one in the range and the frames last to it. */
  lemma {:induction false} CollidesExactly(vm: Vm, lo: Page, n: nat, flags: Flags)
    ensures MapPages(vm, lo, n, flags).1 == Err(PageAlreadyMapped) <==>
            Lead(vm.table, lo, n) < n && Lead(vm.table, lo, n) < |Pool(vm.alloc)|
    decreases n
  {
    hide Pool;
    hide Take;
    if n > 0 {
      TakeCounts(vm.alloc);
      var (alloc, frame) := Take(vm.alloc);
      if frame.Some? && lo !in vm.table {
        var t' := vm.table[lo := Entry(frame.value, flags)];
        SameLead(vm.table, t', lo + 1, n - 1);
        CollidesExactly(Vm(t', alloc), lo + 1, n - 1, flags);
      }
    }
  }

  /** Frames are conserved exactly if the whole range is free, or the frames run out before its first
      mapped page or just there. */
  lemma MapConserves(vm: Vm, lo: Page, n: nat, flags: Flags)
    ensures Conserved(vm, MapPages(vm, lo, n, flags).0) <==>
            Lead(vm.table, lo, n) == n || |Pool(vm.alloc)| <= Lead(vm.table, lo, n)
  {
    CollidesExactly(vm, lo, n, flags);
    MapBalance(vm, lo, n, flags);
    var vm', lost := MapPages(vm, lo, n, flags).0, MapLost(vm, lo, n, flags);
    if f :| f in lost {
      assert Count(vm, f) == Count(vm', f) + lost[f];
    }
  }

  /** One mapped page and one frame are enough to lose the frame. */
  lemma MappedPageLoses(vm: Vm, lo: Page, flags: Flags)
    requires lo in vm.table && |Pool(vm.alloc)| > 0
    ensures !Conserved(vm, MapPages(vm, lo, 1, flags).0)
  {
    MapConserves(vm, lo, 1, flags);
  }

  /** No frame is in two places. */
  ghost predicate Exclusive(vm: Vm) {
    forall f :: Count(vm, f) <= 1
  }

  lemma OneUser(vm: Vm, p: Page, q: Page)
    requires Exclusive(vm) && p in vm.table && q in vm.table && vm.table[p].frame == vm.table[q].frame
    ensures p == q
  {
    var users := Users(vm.table, vm.table[p].frame);
    assert Count(vm, vm.table[p].frame) <= 1;
    assert |users - {p}| == |users| - 1;
    assert users - {p} == {};
    assert q in users;
  }

  // ---------------------------------------------------------------------
  // Physical memory
  // ---------------------------------------------------------------------

  type Bytes = seq<bv8>

  /** What every frame holds. */
  type Memory = Frame -> Bytes

  function Write(mem: Memory, frame: Frame, data: Bytes): Memory {
    (f: Frame) => if f == frame then data else mem(f)
  }

  class Ram {
    var data: Memory

    constructor (data: Memory)
      ensures this.data == data
    {
      this.data := data;
    }
  }

  // ---------------------------------------------------------------------
  // The page table object and the range loops
  // ---------------------------------------------------------------------

  class PageTable {
    var entries: map<Page, Entry>

    constructor (entries: map<Page, Entry>)
      ensures this.entries == entries
    {
      this.entries := entries;
    }

    method MapTo(page: Page, frame: Frame, flags: Flags) returns (r: Result<(), MapError>)
      modifies this
      ensures r == if page in old(entries) then Err(PageAlreadyMapped) else Ok(())
      ensures entries == if page in old(entries) then old(entries) else old(entries)[page := Entry(frame, flags)]
    {
      if page in entries {
        return Err(PageAlreadyMapped);
      }
      entries := entries[page := Entry(frame, flags)];
      return Ok(());
    }

    method Unmap(page: Page) returns (r: Result<Frame, MapError>)
      modifies this
      ensures r == if page in old(entries) then Ok(old(entries)[page].frame) else Err(PageNotMapped)
      ensures entries == if page in old(entries) then old(entries) - {page} else old(entries)
    {
      if page !in entries {
        return Err(PageNotMapped);
      }
      r := Ok(entries[page].frame);
      entries := entries - {page};
    }
  }

  ghost function Pair(t: PageTable, a: FrameAllocator): Vm
    reads t, a
  {
    Vm(t.entries, a.Model())
  }

  /** Map the pages start ..= end. */
  method MapRange(start: Page, end: int, t: PageTable, a: FrameAllocator, user: bool)
    returns (r: Result<(), MapError>)
    requires end >= start - 1
    modifies t, a`used, a`remaining, a`recycled
    ensures (Pair(t, a), r) == MapPages(old(Pair(t, a)), start, end - start + 1, RangeFlags(user))
  {
    var flags := Flags(true, true, user);
    var page := start;
    while page <= end
      invariant start <= page <= end + 1
      invariant MapPages(Pair(t, a), page, end - page + 1, flags)
             == MapPages(old(Pair(t, a)), start, end - start + 1, flags)
    {
      var frame := a.AllocateFrame();
      if frame == None {
        return Err(FrameAllocationFailed);
      }
      var m := t.MapTo(page, frame.value, flags);
      if m.Err? {
        return m;
      }
      page := page + 1;
    }
    return Ok(());
  }

  /** Unmap the pages start ..= end and recycle their frames. */
  method UnmapRange(start: Page, end: int, t: PageTable, a: FrameAllocator) returns (r: Result<(), MapError>)
    requires end >= start - 1
    modifies t, a`recycled
    ensures (Pair(t, a), r) == UnmapPages(old(Pair(t, a)), start, end - start + 1)
  {
    var page := start;
    while page <= end
      invariant start <= page <= end + 1
      invariant UnmapPages(Pair(t, a), page, end - page + 1)
             == UnmapPages(old(Pair(t, a)), start, end - start + 1)
    {
      var frame := t.Unmap(page);
      if frame.Err? {
        return Err(frame.error);
      }
      a.DeallocateFrame(frame.value);
      page := page + 1;
    }
    return Ok(());
  }
}
