/** User stacks: one per process, each in its own 4 GiB slot of a shared address space. */
module UserStack {
  import opened Common
  import opened Frames
  import opened Paging

  /** Pages in a slot, and the page just above the first slot. */
  const SLOT: nat := 0x10_0000
  const TOP: Page := 0x4_0000_0000

  /** `end` is the first page after the stack. */
  datatype Stack = Stack(start: Page, end: Page, usage: nat)

  // ---------------------------------------------------------------------
  // The operations
  // ---------------------------------------------------------------------

  const EMPTY := Stack(TOP - 1, TOP - 1, 0)

  /** The first stack of an address space is its topmost page; None is the panic of `unwrap`. */
  function Init(vm: Vm): (Vm, Option<Stack>) {
    var (vm', r) := MapPages(vm, TOP - 1, 1, RangeFlags(true));
    (vm', if r.Ok? then Some(Stack(TOP - 1, TOP, 1)) else None)
  }

  /** Try to map n pages, slot after slot downwards. None: the base address underflows. */
  function Search(vm: Vm, base: int, n: nat): (r: (Vm, Option<Page>))
    ensures r.1.Some? ==> r.1.value <= base
    decreases if base < 0 then 0 else base + 1
  {
    if base < 0 then (vm, None)
    else
      var (vm', m) := MapPages(vm, base, n, RangeFlags(true));
      if m.Ok? then (vm', Some(base)) else Search(vm', base - SLOT, n)
  }

  /** The base address the search for a child's stack starts from. */
  function FirstTry(s: Stack, offset: nat): int {
    s.start - offset * SLOT
  }

  /** The child's stack: as large as the parent's, at the first base where mapping succeeds. */
  function VFork(vm: Vm, s: Stack, offset: nat): (Vm, Option<Stack>) {
    var (vm', base) := Search(vm, FirstTry(s, offset), s.usage);
    (vm', if base.None? then None else Some(Stack(base.value, base.value + s.usage, s.usage)))
  }

  ghost predicate Has(t: map<Page, Entry>, lo: Page, n: nat) {
    forall p :: InRange(p, lo, n) ==> p in t
  }

  lemma HasFirst(t: map<Page, Entry>, lo: Page, n: nat)
    requires Has(t, lo, n) && n > 0
    ensures lo in t && Has(t, lo + 1, n - 1)
  {
    assert InRange(lo, lo, n);
    var next, m := lo + 1, n - 1;
    forall p: Page | InRange(p, next, m) ensures p in t {
      assert InRange(p, lo, n);
    }
  }

  function CopyPages(t: map<Page, Entry>, mem: Memory, from: Page, to: Page, n: nat): Memory
    requires Has(t, from, n) && Has(t, to, n)
    decreases n
  {
    if n == 0 then mem
    else
      HasFirst(t, from, n); HasFirst(t, to, n);
      CopyPages(t, Write(mem, t[to].frame, mem(t[from].frame)), from + 1, to + 1, n - 1)
  }

  predicate OnStack(s: Stack, p: Page) {
    p / SLOT == s.start / SLOT
  }

  /** A fault on a page that is not mapped: extend the stack down to that page. */
  function Fault(vm: Vm, s: Stack, p: Page, user: bool): (Vm, Stack, bool)
    requires OnStack(s, p) ==> p <= s.start <= s.end
  {
    if !OnStack(s, p) then (vm, s, false)
    else
      var (vm', r) := MapPages(vm, p, s.start - p, RangeFlags(user));
      if r.Err? then (vm', s, false) else (vm', Stack(p, s.end, s.end - p), true)
  }

  function CleanUp(vm: Vm, s: Stack): (Vm, Stack, Result<(), MapError>)
    requires s.start <= s.end
  {
    if s.usage == 0 then (vm, s, Ok(()))
    else
      var (vm', r) := UnmapPages(vm, s.start, s.end - s.start);
      (vm', if r.Ok? then s.(usage := 0) else s, r)
  }

  // ---------------------------------------------------------------------
  // Where the search ends
  // ---------------------------------------------------------------------

  /** An attempt either succeeds, or loses the pages before the first mapped one and one more
      frame, or uses up all the frames. */
  lemma {:induction false} Attempt(vm: Vm, lo: Page, n: nat, flags: Flags)
    ensures var (vm', r) := MapPages(vm, lo, n, flags);
            var free, lead := |Pool(vm.alloc)|, Lead(vm.table, lo, n);
            && (r.Ok? <==> lead == n && n <= free)
            && (r.Err? ==> |Pool(vm'.alloc)| == if lead < n && lead < free then free - lead - 1 else 0)
    decreases n
  {
    hide Pool;
    hide Take;
    if n > 0 {
      TakeCounts(vm.alloc);
      var (alloc, frame) := Take(vm.alloc);
      if frame.Some? && lo !in vm.table {
        var t' := vm.table[lo := Entry(frame.value, flags)];
        SameLead(vm.table, t', lo + 1, n - 1);
        Attempt(Vm(t', alloc), lo + 1, n - 1, flags);
      }
    }
  }

  /** Of the slots from base downwards, number m is the first whose n pages are all free. */
  ghost predicate FirstFree(t: map<Page, Entry>, base: int, n: nat, m: nat)
    decreases m
  {
    && base >= 0
    && (Lead(t, base, n) == n <==> m == 0)
    && (m > 0 ==> FirstFree(t, base - SLOT, n, m - 1))
  }

  /** Frames lost in the m slots that are skipped. */
  ghost function Waste(t: map<Page, Entry>, base: int, n: nat, m: nat): nat
    decreases m
  {
    if m == 0 || base < 0 then 0 else Lead(t, base, n) + 1 + Waste(t, base - SLOT, n, m - 1)
  }

  lemma {:induction false} SameSearch(t: map<Page, Entry>, t': map<Page, Entry>, base: int, n: nat, m: nat)
    requires n <= SLOT && forall p: Page :: p < base + SLOT ==> (p in t <==> p in t')
    ensures FirstFree(t, base, n, m) == FirstFree(t', base, n, m)
    ensures Waste(t, base, n, m) == Waste(t', base, n, m)
    decreases m
  {
    if base >= 0 {
      SameLead(t, t', base, n);
      if m > 0 {
        SameSearch(t, t', base - SLOT, n, m - 1);
      }
    }
  }

  /** The search ends in slot m exactly when m is the first slot, counting down, whose pages are
      free, and the frames suffice for the child and for what the skipped slots cost. */
  lemma {:induction false} SearchExact(vm: Vm, base: int, n: nat, m: nat)
    requires 0 < n <= SLOT
    ensures (Search(vm, base, n).1.Some? && Search(vm, base, n).1.value == base - m * SLOT) <==>
            (FirstFree(vm.table, base, n, m) && Waste(vm.table, base, n, m) + n <= |Pool(vm.alloc)|)
    decreases m
  {
    if base >= 0 {
      var (vm', r) := MapPages(vm, base, n, RangeFlags(true));
      Attempt(vm, base, n, RangeFlags(true));
      if r.Err? && m > 0 {
        MapKeeps(vm, base, n, RangeFlags(true));
        SameSearch(vm.table, vm'.table, base - SLOT, n, m - 1);
        SearchExact(vm', base - SLOT, n, m - 1);
        assert base - SLOT - (m - 1) * SLOT == base - m * SLOT;
      }
    }
  }

  /** Whatever happens on the way: old entries stay, the pages found were free and are now mapped,
      and no frame comes to be used twice. */
  lemma {:induction false} SearchKeeps(vm: Vm, base: int, n: nat)
    requires 0 < n <= SLOT
    ensures var (vm', r) := Search(vm, base, n);
            && (forall p :: p in vm.table ==> p in vm'.table && vm'.table[p] == vm.table[p])
            && (forall f :: Count(vm', f) <= Count(vm, f))
            && (r.Some? ==> AllFree(vm, r.value, n) && AllMapped(vm', r.value, n))
    ensures var r := Search(vm, base, n).1; r.Some? ==> (base - r.value) % SLOT == 0
    decreases if base < 0 then 0 else base + 1
  {
    if base >= 0 {
      var (vm', m) := MapPages(vm, base, n, RangeFlags(true));
      MapKeeps(vm, base, n, RangeFlags(true));
      MapBalance(vm, base, n, RangeFlags(true));
      MapExact(vm, base, n, RangeFlags(true));
      if m.Err? {
        SearchKeeps(vm', base - SLOT, n);
      }
    }
  }

  // ---------------------------------------------------------------------
  // Stacks that share an address space
  // ---------------------------------------------------------------------

  /** A live stack ends at the top of its slot, lies in that slot and is mapped. */
  ghost predicate StackOk(vm: Vm, s: Stack) {
    && s.start + s.usage == s.end
    && 1 <= s.usage <= SLOT
    && s.end % SLOT == 0
    && AllMapped(vm, s.start, s.usage)
  }

  ghost predicate Separate(vm: Vm, ss: seq<Stack>) {
    && (forall i :: 0 <= i < |ss| ==> StackOk(vm, ss[i]))
    && (forall i, j :: 0 <= i < j < |ss| ==> ss[i].end != ss[j].end)
  }

  lemma Slots(s: Stack, p: Page)
    requires s.start + s.usage == s.end && 1 <= s.usage <= SLOT && s.end % SLOT == 0
    ensures InRange(p, s.start, s.usage) ==> p / SLOT == s.end / SLOT - 1
    ensures p / SLOT == s.start / SLOT ==> p < s.end
    ensures s.start / SLOT == s.end / SLOT - 1
  {
  }

  /** No page belongs to two live stacks; they are in different slots. */
  lemma SlotsDiffer(vm: Vm, ss: seq<Stack>, i: nat, j: nat, p: Page, q: Page)
    requires Separate(vm, ss) && i < j < |ss|
    requires InRange(p, ss[i].start, ss[i].usage) && InRange(q, ss[j].start, ss[j].usage)
    ensures p / SLOT != q / SLOT
  {
    Slots(ss[i], p);
    Slots(ss[j], q);
  }

  lemma InitExact(vm: Vm)
    ensures var (vm', r) := Init(vm);
            && (r.Some? <==> TOP - 1 !in vm.table && |Pool(vm.alloc)| > 0)
            && (r.Some? ==> Separate(vm', [r.value]) && Conserved(vm, vm') && Added(vm.table, vm'.table, TOP - 1, 1))
  {
    MapExact(vm, TOP - 1, 1, RangeFlags(true));
    MapKeeps(vm, TOP - 1, 1, RangeFlags(true));
    assert InRange(TOP - 1, TOP - 1, 1);
  }

  lemma TableOnly(vm: Vm, vm': Vm, s: Stack)
    requires StackOk(vm, s) && forall p :: InRange(p, s.start, s.usage) && p in vm.table ==> p in vm'.table
    ensures StackOk(vm', s)
  {
  }

  lemma KeepAll(vm: Vm, vm': Vm, ss: seq<Stack>)
    requires Separate(vm, ss) && forall p :: p in vm.table ==> p in vm'.table
    ensures Separate(vm', ss)
  {
    forall j | 0 <= j < |ss| ensures StackOk(vm', ss[j]) {
      TableOnly(vm, vm', ss[j]);
    }
  }

  lemma JoinSlot(vm: Vm, vm': Vm, ss: seq<Stack>, c: Stack)
    requires Separate(vm, ss) && Separate(vm', ss) && StackOk(vm', c) && AllFree(vm, c.start, c.usage)
    ensures Separate(vm', ss + [c])
  {
    forall j | 0 <= j < |ss| ensures ss[j].end != c.end {
      assert StackOk(vm, ss[j]);
      assert InRange(ss[j].end - 1, ss[j].start, ss[j].usage);
      assert InRange(c.end - 1, c.start, c.usage);
    }
  }

  /** The child's stack takes a slot that no live stack is in. */
  lemma VForkSeparates(vm: Vm, ss: seq<Stack>, i: nat, offset: nat)
    requires Separate(vm, ss) && i < |ss|
    ensures var (vm', r) := VFork(vm, ss[i], offset);
            && (r.Some? ==> Separate(vm', ss + [r.value]) && r.value.usage == ss[i].usage)
            && (r.None? ==> Separate(vm', ss))
  {
    var s := ss[i];
    var (vm', r) := VFork(vm, s, offset);
    SearchKeeps(vm, FirstTry(s, offset), s.usage);
    hide Separate;
    hide AllFree;
    KeepAll(vm, vm', ss);
    if r.Some? {
      ChildSlot(s, r.value, offset);
      JoinSlot(vm, vm', ss, r.value);
    }
  }

  lemma ChildSlot(s: Stack, c: Stack, offset: nat)
    requires s.start + s.usage == s.end && s.end % SLOT == 0 && c.start + s.usage == c.end
    requires (s.start - offset * SLOT - c.start) % SLOT == 0
    ensures c.end % SLOT == 0
  {
    assert (s.start - offset * SLOT - c.start) == SLOT * ((s.start - offset * SLOT - c.start) / SLOT);
    assert s.end == SLOT * (s.end / SLOT);
    assert c.end == SLOT * (s.end / SLOT - offset - (s.start - offset * SLOT - c.start) / SLOT);
  }

  /** A fault on an unmapped page is handled exactly when the page is in the stack's slot, the gap
      is free and there are enough frames. Then the page is mapped and part of the stack. */
  lemma FaultExact(vm: Vm, s: Stack, p: Page, user: bool)
    requires StackOk(vm, s) && p !in vm.table
    ensures OnStack(s, p) ==> p < s.start < s.end
    ensures var (vm', s', ok) := Fault(vm, s, p, user);
            && (ok <==> OnStack(s, p) && AllFree(vm, p, s.start - p) && s.start - p <= |Pool(vm.alloc)|)
            && (ok ==> StackOk(vm', s') && InRange(p, s'.start, s'.usage) && s'.end == s.end)
            && (ok ==> Conserved(vm, vm') && Added(vm.table, vm'.table, p, s.start - p))
            && (ok ==> forall q :: q in vm'.table && q !in vm.table ==> vm'.table[q].flags == RangeFlags(user))
            && (!ok ==> s' == s)
            && (!OnStack(s, p) ==> vm' == vm)
  {
    if OnStack(s, p) {
      Slots(s, p);
      assert !InRange(p, s.start, s.usage);
      MapExact(vm, p, s.start - p, RangeFlags(user));
      MapKeeps(vm, p, s.start - p, RangeFlags(user));
      forall q | InRange(q, p, s.end - p) ensures InRange(q, p, s.start - p) || InRange(q, s.start, s.usage) {}
    }
  }

  // ---------------------------------------------------------------------
  // In page numbers
  // ---------------------------------------------------------------------

  /** The first stack is the page below 0x4000_0000_0000, writable and open to the user. */
  lemma FirstStack(vm: Vm)
    ensures var (vm', r) := Init(vm);
            r.Some? ==>
              && r.value == Stack(0x4000_0000_0000 / 4096 - 1, 0x4000_0000_0000 / 4096, 1)
              && r.value.start in vm'.table && r.value.start !in vm.table
              && vm'.table[r.value.start].flags.writable && vm'.table[r.value.start].flags.user
  {
    InitExact(vm);
    RangesAreWritable(vm, TOP - 1, 1, true);
    assert InRange(TOP - 1, TOP - 1, 1);
  }

  /** A fault on an unmapped page is handled exactly if the page is one of the 0x10_0000 that end where
      the stack ends, everything from it to the stack is free, and there are frames; then these pages
      are mapped, writable, and open to the user unless it is the kernel's, and the stack starts there. */
  lemma FaultInPages(vm: Vm, s: Stack, p: Page, user: bool)
    requires StackOk(vm, s) && p !in vm.table
    ensures OnStack(s, p) ==> p <= s.start <= s.end
    ensures var (vm', s', ok) := Fault(vm, s, p, user);
            && (ok <==> s.end <= p + 0x10_0000 && p < s.start
                        && (forall q :: p <= q < s.start ==> q !in vm.table) && s.start - p <= |Pool(vm.alloc)|)
            && (ok ==> s' == Stack(p, s.end, s.end - p))
            && (ok ==> forall q :: p <= q < s.end ==> q in vm'.table)
            && (ok ==> forall q :: p <= q < s.start && q in vm'.table ==>
                         vm'.table[q].flags.writable && vm'.table[q].flags.user == user)
  {
    FaultExact(vm, s, p, user);
    OnStackIs(s, p);
    var (vm', s', ok) := Fault(vm, s, p, user);
    if OnStack(s, p) {
      RangesAreWritable(vm, p, s.start - p, user);
      if forall q: Page :: p <= q < s.start ==> q !in vm.table {
        assert AllFree(vm, p, s.start - p);
      } else {
        var q: Page :| p <= q < s.start && q in vm.table;
        assert InRange(q, p, s.start - p);
      }
      if ok {
        forall q | p <= q < s.end ensures q in vm'.table {
          assert InRange(q, s'.start, s'.usage);
        }
      }
    }
  }

  lemma OnStackIs(s: Stack, p: Page)
    requires s.start + s.usage == s.end && 1 <= s.usage <= SLOT && s.end % SLOT == 0
    ensures OnStack(s, p) <==> s.end <= p + 0x10_0000 && p < s.end
  {
    Slots(s, p);
    assert s.end == SLOT * (s.end / SLOT);
  }

  /** If the slot that is `offset` slots of 0x10_0000 pages below the parent's is free where the child
      needs it and there are frames, the child gets the parent's place in it. */
  lemma ChildIsBelow(vm: Vm, s: Stack, offset: nat)
    requires s.start >= offset * 0x10_0000
    requires forall q :: InRange(q, s.start - offset * 0x10_0000, s.usage) ==> q !in vm.table
    requires s.usage <= |Pool(vm.alloc)|
    ensures VFork(vm, s, offset).1
         == Some(Stack(s.start - offset * 0x10_0000, s.start - offset * 0x10_0000 + s.usage, s.usage))
  {
    MapExact(vm, s.start - offset * 0x10_0000, s.usage, RangeFlags(true));
  }

  /** The pages that a search adds are writable and open to the user. */
  lemma {:induction false} SearchIsWritable(vm: Vm, base: int, n: nat)
    ensures var t' := Search(vm, base, n).0.table;
            && (forall p :: p in vm.table ==> p in t' && t'[p] == vm.table[p])
            && (forall p :: p in t' && p !in vm.table ==> t'[p].flags.writable && t'[p].flags.user)
    decreases if base < 0 then 0 else base + 1
  {
    if base >= 0 {
      MapKeeps(vm, base, n, RangeFlags(true));
      var (vm', m) := MapPages(vm, base, n, RangeFlags(true));
      if m.Err? {
        SearchIsWritable(vm', base - SLOT, n);
      }
    }
  }

  lemma FaultSeparates(vm: Vm, ss: seq<Stack>, i: nat, p: Page, user: bool)
    requires Separate(vm, ss) && i < |ss| && p !in vm.table
    ensures OnStack(ss[i], p) ==> p < ss[i].start < ss[i].end
    ensures Separate(Fault(vm, ss[i], p, user).0, ss[i := Fault(vm, ss[i], p, user).1])
  {
    FaultExact(vm, ss[i], p, user);
    var (vm', s', ok) := Fault(vm, ss[i], p, user);
    if OnStack(ss[i], p) {
      MapKeeps(vm, p, ss[i].start - p, RangeFlags(user));
    }
    forall j | 0 <= j < |ss| ensures StackOk(vm', ss[j]) {
      TableOnly(vm, vm', ss[j]);
    }
  }

  /** Cleaning up cannot fail; it removes exactly the stack's pages and loses no frame. */
  lemma CleanUpExact(vm: Vm, s: Stack)
    requires StackOk(vm, s)
    ensures s.start <= s.end
    ensures var (vm', s', r) := CleanUp(vm, s);
            && r.Ok? && s'.usage == 0 && Conserved(vm, vm')
            && Removed(vm.table, vm'.table, s.start, s.usage)
  {
    UnmapExact(vm, s.start, s.usage);
  }

  lemma CleanUpSeparates(vm: Vm, ss: seq<Stack>, i: nat)
    requires Separate(vm, ss) && i < |ss|
    ensures ss[i].start <= ss[i].end && Separate(CleanUp(vm, ss[i]).0, ss[..i] + ss[i + 1..])
  {
    CleanUpExact(vm, ss[i]);
    var vm' := CleanUp(vm, ss[i]).0;
    var rest := ss[..i] + ss[i + 1..];
    forall j | 0 <= j < |ss| && j != i ensures StackOk(vm', ss[j]) {
      forall p | InRange(p, ss[j].start, ss[j].usage) ensures !InRange(p, ss[i].start, ss[i].usage) {
        Slots(ss[i], p);
        Slots(ss[j], p);
      }
      TableOnly(vm, vm', ss[j]);
    }
    forall j | 0 <= j < |rest| ensures StackOk(vm', rest[j]) {
      assert rest[j] == ss[if j < i then j else j + 1];
    }
  }

  // ---------------------------------------------------------------------
  // The copy
  // ---------------------------------------------------------------------

  ghost predicate SameAt(t: map<Page, Entry>, mem: Memory, mem': Memory, p: Page) {
    p in t && mem'(t[p].frame) == mem(t[p].frame)
  }

  ghost predicate CopiedAt(t: map<Page, Entry>, mem: Memory, mem': Memory, from: Page, to: Page, i: nat) {
    to + i in t && from + i in t && mem'(t[to + i].frame) == mem(t[from + i].frame)
  }

  /** The n pages at `to` hold what the n pages at `from` held; all other mapped pages are as before. */
  ghost predicate Copied(t: map<Page, Entry>, mem: Memory, mem': Memory, from: Page, to: Page, n: nat) {
    && (forall i :: 0 <= i < n ==> CopiedAt(t, mem, mem', from, to, i))
    && (forall p :: p in t && !InRange(p, to, n) ==> SameAt(t, mem, mem', p))
  }

  ghost predicate Apart(from: Page, to: Page, n: nat) {
    forall p :: InRange(p, from, n) ==> !InRange(p, to, n)
  }

  lemma {:induction false} CopyExact(vm: Vm, mem: Memory, from: Page, to: Page, n: nat)
    requires Exclusive(vm) && AllMapped(vm, from, n) && AllMapped(vm, to, n) && Apart(from, to, n)
    ensures Copied(vm.table, mem, CopyPages(vm.table, mem, from, to, n), from, to, n)
    decreases n
  {
    if n > 0 {
      assert InRange(from, from, n) && InRange(to, to, n);
      Narrow(vm, from, to, n);
      var mid := Write(mem, vm.table[to].frame, mem(vm.table[from].frame));
      CopyExact(vm, mid, from + 1, to + 1, n - 1);
      CopyStep(vm, mem, CopyPages(vm.table, mid, from + 1, to + 1, n - 1), from, to, n);
    }
  }

  lemma Narrow(vm: Vm, from: Page, to: Page, n: nat)
    requires n > 0 && AllMapped(vm, from, n) && AllMapped(vm, to, n) && Apart(from, to, n)
    ensures AllMapped(vm, from + 1, n - 1) && AllMapped(vm, to + 1, n - 1) && Apart(from + 1, to + 1, n - 1)
  {
    var from1, to1, m := from + 1, to + 1, n - 1;
    assert AllMapped(vm, from1, m) && AllMapped(vm, to1, m);
    forall p: Page | InRange(p, from1, m) ensures !InRange(p, to1, m) {
      assert InRange(p, from, n);
      assert !InRange(p, to, n);
    }
  }

  lemma CopyStep(vm: Vm, mem: Memory, mem': Memory, from: Page, to: Page, n: nat)
    requires Exclusive(vm) && AllMapped(vm, from, n) && AllMapped(vm, to, n) && Apart(from, to, n) && n > 0
    requires from in vm.table && to in vm.table
    requires Copied(vm.table, Write(mem, vm.table[to].frame, mem(vm.table[from].frame)), mem', from + 1, to + 1, n - 1)
    ensures Copied(vm.table, mem, mem', from, to, n)
  {
    var mid := Write(mem, vm.table[to].frame, mem(vm.table[from].frame));
    forall p | p in vm.table && !InRange(p, to, n) ensures SameAt(vm.table, mem, mem', p) {
      assert SameAt(vm.table, mid, mem', p);
      if vm.table[p].frame == vm.table[to].frame {
        OneUser(vm, p, to);
      }
    }
    forall i | 0 <= i < n ensures CopiedAt(vm.table, mem, mem', from, to, i) {
      if i == 0 {
        assert SameAt(vm.table, mid, mem', to);
      } else {
        assert CopiedAt(vm.table, mid, mem', from + 1, to + 1, i - 1);
        assert InRange(from + i, from, n);
        if vm.table[from + i].frame == vm.table[to].frame {
          OneUser(vm, from + i, to);
        }
      }
    }
  }

  /** A forked process starts with its parent's stack: the same bytes, page for page, and nothing
      else that is mapped has changed. */
  lemma ChildHasTheStack(vm: Vm, mem: Memory, s: Stack, offset: nat)
    requires StackOk(vm, s) && Exclusive(vm) && VFork(vm, s, offset).1.Some?
    ensures var (vm', c) := VFork(vm, s, offset);
            && AllMapped(vm', s.start, s.usage) && AllMapped(vm', c.value.start, s.usage)
            && AllFree(vm, c.value.start, s.usage)
            && var mem' := CopyPages(vm'.table, mem, s.start, c.value.start, s.usage);
               Copied(vm'.table, mem, mem', s.start, c.value.start, s.usage)
  {
    hide CopyPages;
    hide Copied;
    hide Count;
    hide Search;
    var (vm', c) := VFork(vm, s, offset);
    SearchKeeps(vm, FirstTry(s, offset), s.usage);
    assert Exclusive(vm') by {
      forall f ensures Count(vm', f) <= 1 {
        assert Count(vm, f) <= 1;
      }
    }
    CopyExact(vm', mem, s.start, c.value.start, s.usage);
  }

  // ---------------------------------------------------------------------
  // The object
  // ---------------------------------------------------------------------

  lemma VForkHas(vm: Vm, s: Stack, offset: nat)
    requires StackOk(vm, s)
    ensures var (vm', r) := Search(vm, FirstTry(s, offset), s.usage);
            r.Some? ==> Has(vm'.table, s.start, s.usage) && Has(vm'.table, r.value, s.usage)
  {
    SearchKeeps(vm, FirstTry(s, offset), s.usage);
  }

  class StackHandle {
    var start: Page
    var end: Page
    var usage: nat

    ghost function Model(): Stack
      reads this
    {
      Stack(start, end, usage)
    }

    constructor (s: Stack)
      ensures Model() == s
    {
      start, end, usage := s.start, s.end, s.usage;
    }

    /** False is the panic of `unwrap`. */
    method InitStack(t: PageTable, a: FrameAllocator) returns (ok: bool)
      modifies this, t, a`used, a`remaining, a`recycled
      ensures Pair(t, a) == Init(old(Pair(t, a))).0
      ensures ok == Init(old(Pair(t, a))).1.Some?
      ensures Model() == if ok then Init(old(Pair(t, a))).1.value else old(Model())
    {
      var r := MapRange(TOP - 1, TOP - 1, t, a, true);
      if r.Err? {
        return false;
      }
      start, end, usage := TOP - 1, TOP, 1;
      return true;
    }

    /** Search a slot for the child's stack, then copy the contents. */
    method Fork(t: PageTable, a: FrameAllocator, ram: Ram, offset: nat) returns (child: Option<Stack>)
      requires StackOk(Pair(t, a), Model())
      modifies t, ram, a`used, a`remaining, a`recycled
      ensures (Pair(t, a), child) == VFork(old(Pair(t, a)), Model(), offset)
      ensures child.Some? ==> Has(t.entries, start, usage) && Has(t.entries, child.value.start, usage)
      ensures ram.data == if child.None? then old(ram.data)
                          else CopyPages(t.entries, old(ram.data), start, child.value.start, usage)
    {
      VForkHas(Pair(t, a), Model(), offset);
      hide CopyPages;
      hide Search;
      hide StackOk;
      hide Has;
      hide Pair;
      var base := MapBelow(FirstTry(Stack(start, end, usage), offset), usage, t, a);
      if base.None? {
        return None;
      }
      CopyNonoverlapping(t, ram, start, base.value, usage);
      return Some(Stack(base.value, base.value + usage, usage));
    }

    /** Handle a fault on a page that is not mapped. */
    method HandlePageFault(p: Page, t: PageTable, a: FrameAllocator, user: bool) returns (ok: bool)
      requires StackOk(Pair(t, a), Model()) && p !in t.entries
      modifies this, t, a`used, a`remaining, a`recycled
      ensures old(OnStack(Model(), p)) ==> p < old(start) < old(end)
      ensures (Pair(t, a), Model(), ok) == Fault(old(Pair(t, a)), old(Model()), p, user)
    {
      FaultExact(Pair(t, a), Model(), p, user);
      if p / SLOT != start / SLOT {
        return false;
      }
      var r := MapRange(p, start - 1, t, a, user);
      if r.Err? {
        return false;
      }
      start := p;
      usage := end - start;
      return true;
    }

    method CleanUpStack(t: PageTable, a: FrameAllocator) returns (r: Result<(), MapError>)
      requires start <= end
      modifies this`usage, t, a`recycled
      ensures (Pair(t, a), Model(), r) == CleanUp(old(Pair(t, a)), old(Model()))
    {
      if usage == 0 {
        return Ok(());
      }
      if end - start > 0 {
        r := UnmapRange(start, end - 1, t, a);
        if r.Err? {
          return r;
        }
        assert r.value == ();
      } else {
        assert UnmapPages(old(Pair(t, a)), start, 0) == (Pair(t, a), Ok(()));
      }
      usage := 0;
      return Ok(());
    }
  }

  /** Map n pages at base, or a whole number of slots below it. */
  method MapBelow(base: int, n: nat, t: PageTable, a: FrameAllocator) returns (r: Option<Page>)
    modifies t, a`used, a`remaining, a`recycled
    ensures (Pair(t, a), r) == Search(old(Pair(t, a)), base, n)
  {
    var next := base;
    while next >= 0
      invariant Search(Pair(t, a), next, n) == Search(old(Pair(t, a)), base, n)
      decreases next + SLOT
    {
      var m := MapRange(next, next + n - 1, t, a, true);
      if m.Ok? {
        return Some(next);
      }
      next := next - SLOT;
    }
    return None;
  }

  /** Copy n pages through the page table. */
  method CopyNonoverlapping(t: PageTable, ram: Ram, from: Page, to: Page, n: nat)
    requires Has(t.entries, from, n) && Has(t.entries, to, n)
    modifies ram
    ensures ram.data == CopyPages(t.entries, old(ram.data), from, to, n)
  {
    hide Has;
    var i := 0;
    while i < n
      invariant 0 <= i <= n
      invariant Has(t.entries, from + i, n - i) && Has(t.entries, to + i, n - i)
      invariant CopyPages(t.entries, ram.data, from + i, to + i, n - i)
             == CopyPages(t.entries, old(ram.data), from, to, n)
    {
      HasFirst(t.entries, from + i, n - i);
      HasFirst(t.entries, to + i, n - i);
      ram.data := Write(ram.data, t.entries[to + i].frame, ram.data(t.entries[from + i].frame));
      i := i + 1;
    }
  }
}
