/** Loading the segments of an ELF file into an address space. */
module ElfLoader {
  import opened Common
  import opened Frames
  import opened Paging

  datatype Segment = Segment(
    load: bool, virt: nat, memSize: nat, fileSize: nat, offset: nat, execute: bool, write: bool)

  /** What counting the bytes left below zero does: a build with overflow checks panics, one without
      goes on with a huge count; `behind` is then the memory behind the file. */
  datatype Overrun = Checked | Wraps(behind: nat -> bv8)

  /** A file in memory, to be loaded by a build of that kind. */
  datatype File = File(bytes: Bytes, overrun: Overrun)

  /** The pages start ..= end. */
  datatype Range = Range(start: Page, end: Page)

  function PageOf(addr: nat): Page {
    addr / PAGE_SIZE
  }

  function Size(pages: nat): nat {
    pages * PAGE_SIZE
  }

  function Zeros(n: nat): (r: Bytes)
    ensures |r| == n && forall k :: 0 <= k < n ==> r[k] == 0
  {
    seq(n, _ => 0)
  }

  // ---------------------------------------------------------------------
  // Filling new pages
  // ---------------------------------------------------------------------

  /** Map one new page after the other from lo on, each holding the next block. */
  function Fill(vm: Vm, mem: Memory, lo: Page, blocks: seq<Bytes>, flags: Flags): (Vm, Memory, Result<(), MapError>)
    decreases |blocks|
  {
    if blocks == [] then (vm, mem, Ok(()))
    else
      var (alloc, frame) := Take(vm.alloc);
      if frame.None? then (vm, mem, Err(FrameAllocationFailed))
      else
        var mem' := Write(mem, frame.value, blocks[0]);
        if lo in vm.table then (vm.(alloc := alloc), mem', Err(PageAlreadyMapped))
        else Fill(Vm(vm.table[lo := Entry(frame.value, flags)], alloc), mem', lo + 1, blocks[1..], flags)
  }

  lemma {:induction false} FillMaps(vm: Vm, mem: Memory, lo: Page, blocks: seq<Bytes>, flags: Flags)
    ensures var (vm', _, r) := Fill(vm, mem, lo, blocks, flags); (vm', r) == MapPages(vm, lo, |blocks|, flags)
    decreases |blocks|
  {
    if blocks != [] {
      var (alloc, frame) := Take(vm.alloc);
      if frame.Some? && lo !in vm.table {
        FillMaps(Vm(vm.table[lo := Entry(frame.value, flags)], alloc), Write(mem, frame.value, blocks[0]),
                 lo + 1, blocks[1..], flags);
      }
    }
  }

  /** The page holds this block. */
  ghost predicate Holds(t: map<Page, Entry>, mem: Memory, p: Page, block: Bytes) {
    p in t && mem(t[p].frame) == block
  }

  ghost predicate HoldsAll(t: map<Page, Entry>, mem: Memory, lo: Page, blocks: seq<Bytes>) {
    forall i :: 0 <= i < |blocks| ==> Holds(t, mem, lo + i, blocks[i])
  }

  /** All pages mapped in t are mapped alike in t' and hold what they held. */
  ghost predicate Undisturbed(t: map<Page, Entry>, mem: Memory, t': map<Page, Entry>, mem': Memory) {
    forall p :: p in t ==> p in t' && t'[p] == t[p] && mem'(t[p].frame) == mem(t[p].frame)
  }

  lemma OneMore(vm: Vm, lo: Page, flags: Flags)
    requires Exclusive(vm) && lo !in vm.table && Take(vm.alloc).1.Some?
    ensures Exclusive(Vm(vm.table[lo := Entry(Take(vm.alloc).1.value, flags)], Take(vm.alloc).0))
  {
    TakeFacts(vm.alloc);
    var (alloc, frame) := Take(vm.alloc);
    var mid := Vm(vm.table[lo := Entry(frame.value, flags)], alloc);
    forall f ensures Count(mid, f) <= 1 {
      UsersAdd(vm.table, lo, Entry(frame.value, flags), f);
      assert Count(vm, f) <= 1;
    }
  }

  /** A page mapped to a new frame disturbs no other page. */
  lemma FirstBlock(vm: Vm, mem: Memory, lo: Page, block: Bytes, flags: Flags)
    requires Exclusive(vm) && lo !in vm.table && Take(vm.alloc).1.Some?
    ensures var (alloc, frame) := Take(vm.alloc);
            var t' := vm.table[lo := Entry(frame.value, flags)];
            Undisturbed(vm.table, mem, t', Write(mem, frame.value, block))
            && Holds(t', Write(mem, frame.value, block), lo, block)
  {
    var (alloc, frame) := Take(vm.alloc);
    var mid := Vm(vm.table[lo := Entry(frame.value, flags)], alloc);
    OneMore(vm, lo, flags);
    forall p | p in vm.table ensures vm.table[p].frame != frame.value {
      if vm.table[p].frame == frame.value {
        assert mid.table[p] == vm.table[p];
        OneUser(mid, p, lo);
      }
    }
  }

  lemma UndisturbedChain(t: map<Page, Entry>, m: Memory, t1: map<Page, Entry>, m1: Memory,
                         t2: map<Page, Entry>, m2: Memory)
    requires Undisturbed(t, m, t1, m1) && Undisturbed(t1, m1, t2, m2)
    ensures Undisturbed(t, m, t2, m2)
  {
  }

  /** A successful fill leaves each block in its page and disturbs nothing. */
  lemma {:induction false} FillExact(vm: Vm, mem: Memory, lo: Page, blocks: seq<Bytes>, flags: Flags)
    requires Exclusive(vm) && Fill(vm, mem, lo, blocks, flags).2.Ok?
    ensures var (vm', mem', _) := Fill(vm, mem, lo, blocks, flags);
            HoldsAll(vm'.table, mem', lo, blocks) && Undisturbed(vm.table, mem, vm'.table, mem')
    decreases |blocks|
  {
    if blocks != [] {
      var (alloc, frame) := Take(vm.alloc);
      var mid := Vm(vm.table[lo := Entry(frame.value, flags)], alloc);
      var mem1 := Write(mem, frame.value, blocks[0]);
      OneMore(vm, lo, flags);
      FirstBlock(vm, mem, lo, blocks[0], flags);
      FillExact(mid, mem1, lo + 1, blocks[1..], flags);
      var (vm', mem', _) := Fill(mid, mem1, lo + 1, blocks[1..], flags);
      assert Fill(vm, mem, lo, blocks, flags) == Fill(mid, mem1, lo + 1, blocks[1..], flags);
      UndisturbedChain(vm.table, mem, mid.table, mem1, vm'.table, mem');
      forall i | 0 <= i < |blocks| ensures Holds(vm'.table, mem', lo + i, blocks[i]) {
        if i > 0 {
          assert Holds(vm'.table, mem', lo + 1 + (i - 1), blocks[1..][i - 1]);
        }
      }
    }
  }

  lemma {:induction false} FillJoin(vm: Vm, mem: Memory, lo: Page, a: seq<Bytes>, b: seq<Bytes>, flags: Flags)
    requires Fill(vm, mem, lo, a, flags).2.Ok?
    ensures var (vm', mem', _) := Fill(vm, mem, lo, a, flags);
            Fill(vm, mem, lo, a + b, flags) == Fill(vm', mem', lo + |a|, b, flags)
    decreases |a|
  {
    if a == [] {
      assert a + b == b;
    } else {
      var (alloc, frame) := Take(vm.alloc);
      assert (a + b)[1..] == a[1..] + b;
      FillJoin(Vm(vm.table[lo := Entry(frame.value, flags)], alloc), Write(mem, frame.value, a[0]),
               lo + 1, a[1..], b, flags);
    }
  }

  lemma {:induction false} FillFails(vm: Vm, mem: Memory, lo: Page, a: seq<Bytes>, b: seq<Bytes>, flags: Flags)
    requires Fill(vm, mem, lo, a, flags).2.Err?
    ensures Fill(vm, mem, lo, a + b, flags) == Fill(vm, mem, lo, a, flags)
    decreases |a|
  {
    var (alloc, frame) := Take(vm.alloc);
    if frame.Some? && lo !in vm.table {
      assert (a + b)[1..] == a[1..] + b;
      FillFails(Vm(vm.table[lo := Entry(frame.value, flags)], alloc), Write(mem, frame.value, a[0]),
                lo + 1, a[1..], b, flags);
    }
  }

  // ---------------------------------------------------------------------
  // One segment
  // ---------------------------------------------------------------------

  predicate Loads(s: Segment) {
    s.load && s.memSize > 0
  }

  function SegmentFlags(s: Segment, user: bool): Flags {
    Flags(s.write, s.execute, user)
  }

  /** Pages touched by the file part, and by the whole segment. */
  function FilePageCount(s: Segment): nat
    requires s.fileSize > 0
  {
    PageOf(s.virt + s.fileSize - 1) - PageOf(s.virt) + 1
  }

  function PageCount(s: Segment): nat
    requires s.memSize > 0
  {
    PageOf(s.virt + s.memSize - 1) - PageOf(s.virt) + 1
  }

  /** The file contains the bytes of the segment. */
  predicate Contains(file: File, s: Segment) {
    s.offset + s.fileSize <= |file.bytes|
  }

  /** The byte at a distance from the start of the file, even behind its end. */
  function ByteFrom(file: File, k: nat): bv8
    requires k < |file.bytes| || file.overrun.Wraps?
  {
    if k < |file.bytes| then file.bytes[k] else file.overrun.behind(k - |file.bytes|)
  }

  /** The page of bytes at a distance from the start of the file. */
  function PageFrom(file: File, at: nat): (r: Bytes)
    requires file.overrun.Wraps?
    ensures |r| == PAGE_SIZE
  {
    seq(PAGE_SIZE, k requires 0 <= k < PAGE_SIZE => ByteFrom(file, at + k))
  }

  /** The last page of the file part starts behind the file's bytes, so that counting the bytes left
      for it is a subtraction below zero. */
  predicate Underflows(s: Segment) {
    s.fileSize > 0 && (FilePageCount(s) - 1) * PAGE_SIZE > s.fileSize
  }

  predicate Panics(file: File, s: Segment) {
    Underflows(s) && file.overrun.Checked?
  }

  /** Pages of the file part that are filled. */
  function FilledCount(file: File, s: Segment): nat {
    if s.fileSize == 0 then 0 else if Panics(file, s) then FilePageCount(s) - 1 else FilePageCount(s)
  }

  lemma FilledPages(file: File, s: Segment, i: nat)
    requires i < FilledCount(file, s)
    ensures i * PAGE_SIZE <= s.fileSize || file.overrun.Wraps?
  {
  }

  /** What is copied to page i of the file part: the next bytes of the file, then zeros; if the count
      of the bytes left has wrapped, a whole page from behind the segment's bytes. */
  function FileBlock(file: File, s: Segment, i: nat): (r: Bytes)
    requires Contains(file, s) && i < FilledCount(file, s)
    ensures |r| == PAGE_SIZE
  {
    var at := i * PAGE_SIZE;
    FilledPages(file, s, i);
    if s.fileSize < at then
      PageFrom(file, s.offset + at)
    else
      var n := if s.fileSize - at < PAGE_SIZE then s.fileSize - at else PAGE_SIZE;
      file.bytes[s.offset + at..s.offset + at + n] + Zeros(PAGE_SIZE - n)
  }

  function FileBlocks(file: File, s: Segment): (r: seq<Bytes>)
    requires Contains(file, s)
    ensures |r| == FilledCount(file, s)
    ensures forall i :: 0 <= i < |r| ==> r[i] == FileBlock(file, s, i)
  {
    seq(FilledCount(file, s), i requires 0 <= i < FilledCount(file, s) => FileBlock(file, s, i))
  }

  function AlignUp(addr: nat): nat {
    (addr + PAGE_SIZE - 1) / PAGE_SIZE * PAGE_SIZE
  }

  function BssStart(s: Segment): Page {
    PageOf(AlignUp(s.virt + s.fileSize))
  }

  /** Pages from the first page boundary after the file part to the end of the segment. */
  function BssCount(s: Segment): nat {
    if s.memSize > s.fileSize && BssStart(s) <= PageOf(s.virt + s.memSize - 1)
    then PageOf(s.virt + s.memSize - 1) - BssStart(s) + 1 else 0
  }

  /** Map zeroed pages, leaving alone those that are mapped already. */
  function LoadBss(vm: Vm, mem: Memory, lo: Page, n: nat, flags: Flags): (Vm, Memory, Result<(), MapError>)
    decreases n
  {
    if n == 0 then (vm, mem, Ok(()))
    else if lo in vm.table then LoadBss(vm, mem, lo + 1, n - 1, flags)
    else
      var (alloc, frame) := Take(vm.alloc);
      if frame.None? then (vm, mem, Err(FrameAllocationFailed))
      else LoadBss(Vm(vm.table[lo := Entry(frame.value, flags)], alloc),
                   Write(mem, frame.value, Zeros(PAGE_SIZE)), lo + 1, n - 1, flags)
  }

  /** `Underflow` is the panic of the subtraction that counts the bytes left. */
  datatype LoadError = Unmapped(error: MapError) | Underflow

  /** The file part: fill its pages; where the count underflows, a frame has been taken already. */
  function LoadFilePart(vm: Vm, mem: Memory, file: File, s: Segment, flags: Flags)
    : (Vm, Memory, Result<(), LoadError>)
    requires Contains(file, s)
  {
    var (vm1, mem1, r1) := Fill(vm, mem, PageOf(s.virt), FileBlocks(file, s), flags);
    if r1.Err? then (vm1, mem1, Err(Unmapped(r1.error)))
    else if !Panics(file, s) then (vm1, mem1, Ok(()))
    else
      var (alloc, frame) := Take(vm1.alloc);
      (vm1.(alloc := alloc), mem1, Err(if frame.None? then Unmapped(FrameAllocationFailed) else Underflow))
  }

  function SegmentRange(s: Segment): Range
    requires s.memSize > 0
  {
    Range(PageOf(s.virt), PageOf(s.virt + s.memSize - 1))
  }

  function LoadSegment(vm: Vm, mem: Memory, file: File, s: Segment, user: bool)
    : (Vm, Memory, Result<(Range, nat), LoadError>)
    requires Contains(file, s) && s.memSize > 0
  {
    var flags := SegmentFlags(s, user);
    var (vm1, mem1, r1) := LoadFilePart(vm, mem, file, s, flags);
    if r1.Err? then (vm1, mem1, Err(r1.error))
    else
      var (vm2, mem2, r2) := LoadBss(vm1, mem1, BssStart(s), BssCount(s), flags);
      if r2.Err? then (vm2, mem2, Err(Unmapped(r2.error)))
      else (vm2, mem2, Ok((SegmentRange(s), Size(PageCount(s)))))
  }

  function Blank(n: nat): (r: seq<Bytes>)
    ensures |r| == n && forall i :: 0 <= i < n ==> r[i] == Zeros(PAGE_SIZE)
  {
    seq(n, _ => Zeros(PAGE_SIZE))
  }

  /** On free pages, zeroed pages are a fill with blank blocks. */
  lemma {:induction false} BssIsFill(vm: Vm, mem: Memory, lo: Page, n: nat, flags: Flags)
    requires AllFree(vm, lo, n)
    ensures LoadBss(vm, mem, lo, n, flags) == Fill(vm, mem, lo, Blank(n), flags)
    decreases n
  {
    if n > 0 {
      assert InRange(lo, lo, n);
      var (alloc, frame) := Take(vm.alloc);
      if frame.Some? {
        var mid := Vm(vm.table[lo := Entry(frame.value, flags)], alloc);
        var next, m := lo + 1, n - 1;
        forall p: Page | InRange(p, next, m) ensures p !in mid.table {
          assert InRange(p, lo, n);
        }
        BssIsFill(mid, Write(mem, frame.value, Zeros(PAGE_SIZE)), next, m, flags);
        assert Blank(n)[1..] == Blank(m);
      }
    }
  }

  // ---------------------------------------------------------------------
  // The image of a segment
  // ---------------------------------------------------------------------

  function ByteAt(t: map<Page, Entry>, mem: Memory, addr: nat): Option<bv8> {
    var p, k := addr / PAGE_SIZE, addr % PAGE_SIZE;
    if p in t && k < |mem(t[p].frame)| then Some(mem(t[p].frame)[k]) else None
  }

  /** Byte k of a segment: from the file, then zero. */
  function Want(file: File, s: Segment, k: nat): bv8
    requires Contains(file, s)
  {
    if k < s.fileSize then file.bytes[s.offset + k] else 0
  }

  ghost predicate Loaded(t: map<Page, Entry>, mem: Memory, file: File, s: Segment) {
    Contains(file, s) &&
    forall k :: 0 <= k < s.memSize ==> ByteAt(t, mem, s.virt + k) == Some(Want(file, s, k))
  }

  predicate WellFormed(file: File, s: Segment) {
    && s.virt % PAGE_SIZE == 0
    && s.fileSize <= s.memSize
    && Contains(file, s)
  }

  lemma AlignedIsWhole(file: File, s: Segment)
    requires WellFormed(file, s)
    ensures Contains(file, s) && !Panics(file, s)
  {
  }

  function Blocks(file: File, s: Segment): seq<Bytes>
    requires Contains(file, s)
  {
    FileBlocks(file, s) + Blank(BssCount(s))
  }

  /** File pages, then blank pages, without a gap: the pages of the segment. */
  lemma Layout(file: File, s: Segment)
    requires Contains(file, s) && !Panics(file, s) && s.fileSize <= s.memSize && s.memSize > 0
    requires s.virt % PAGE_SIZE == 0 || s.fileSize > 0
    ensures BssCount(s) > 0 ==> BssStart(s) == PageOf(s.virt) + |FileBlocks(file, s)|
    ensures |FileBlocks(file, s)| + BssCount(s) == PageCount(s)
  {
    AlignUpPage(s.virt + s.fileSize);
  }

  lemma AlignUpPage(addr: nat)
    ensures PageOf(AlignUp(addr)) == if addr == 0 then 0 else PageOf(addr - 1) + 1
  {
    assert (addr + PAGE_SIZE - 1) / PAGE_SIZE * PAGE_SIZE / PAGE_SIZE == (addr + PAGE_SIZE - 1) / PAGE_SIZE;
  }

  /** Behind a file part on free pages, the zeroed part is a fill too. */
  lemma BssAfterFile(vm: Vm, mem: Memory, file: File, s: Segment, flags: Flags)
    requires Contains(file, s) && !Panics(file, s) && s.fileSize <= s.memSize && s.memSize > 0
    requires s.virt % PAGE_SIZE == 0 || s.fileSize > 0
    requires AllFree(vm, PageOf(s.virt), PageCount(s))
    requires Fill(vm, mem, PageOf(s.virt), FileBlocks(file, s), flags).2.Ok?
    ensures var lo, n := PageOf(s.virt), |FileBlocks(file, s)|;
            var (vm1, mem1, _) := Fill(vm, mem, lo, FileBlocks(file, s), flags);
            LoadBss(vm1, mem1, BssStart(s), BssCount(s), flags) == Fill(vm1, mem1, lo + n, Blank(BssCount(s)), flags)
  {
    Layout(file, s);
    hide BssStart;
    hide BssCount;
    hide Underflows;
    hide FilledCount;
    hide FileBlock;
    var lo, fileBlocks := PageOf(s.virt), FileBlocks(file, s);
    var (vm1, mem1, r1) := Fill(vm, mem, lo, fileBlocks, flags);
    FillMaps(vm, mem, lo, fileBlocks, flags);
    MapKeeps(vm, lo, |fileBlocks|, flags);
    if BssCount(s) > 0 {
      forall p | InRange(p, BssStart(s), BssCount(s)) ensures p !in vm1.table {
        assert InRange(p, lo, PageCount(s));
      }
      BssIsFill(vm1, mem1, BssStart(s), BssCount(s), flags);
    }
  }

  /** On free pages, a segment is one fill. */
  lemma SegmentIsFill(vm: Vm, mem: Memory, file: File, s: Segment, user: bool)
    requires Contains(file, s) && !Panics(file, s) && s.fileSize <= s.memSize && s.memSize > 0
    requires s.virt % PAGE_SIZE == 0 || s.fileSize > 0
    requires AllFree(vm, PageOf(s.virt), PageCount(s))
    ensures var (vm', mem', r) := LoadSegment(vm, mem, file, s, user);
            var (vm2, mem2, r2) := Fill(vm, mem, PageOf(s.virt), Blocks(file, s), SegmentFlags(s, user));
            && vm' == vm2 && mem' == mem2 && r.Ok? == r2.Ok?
            && (r.Ok? ==> r.value == (SegmentRange(s), Size(PageCount(s))))
  {
    hide Fill;
    hide LoadBss;
    hide BssCount;
    hide PageCount;
    hide Underflows;
    var lo, flags, fileBlocks := PageOf(s.virt), SegmentFlags(s, user), FileBlocks(file, s);
    var r1 := Fill(vm, mem, lo, fileBlocks, flags).2;
    if r1.Err? {
      FillFails(vm, mem, lo, fileBlocks, Blank(BssCount(s)), flags);
    } else {
      FillJoin(vm, mem, lo, fileBlocks, Blank(BssCount(s)), flags);
      BssAfterFile(vm, mem, file, s, flags);
    }
  }

  lemma BlockByte(file: File, s: Segment, k: nat)
    requires WellFormed(file, s) && k < s.memSize
    ensures Contains(file, s) && k / PAGE_SIZE < |Blocks(file, s)|
    ensures |Blocks(file, s)[k / PAGE_SIZE]| == PAGE_SIZE
    ensures Blocks(file, s)[k / PAGE_SIZE][k % PAGE_SIZE] == Want(file, s, k)
  {
    AlignedIsWhole(file, s);
    Layout(file, s);
    var i, at := k / PAGE_SIZE, k % PAGE_SIZE;
    if i < |FileBlocks(file, s)| {
      assert Blocks(file, s)[i] == FileBlock(file, s, i);
      assert i * PAGE_SIZE + at == k;
    } else {
      assert Blocks(file, s)[i] == Zeros(PAGE_SIZE);
    }
  }

  lemma ImageOf(t: map<Page, Entry>, mem: Memory, file: File, s: Segment)
    requires WellFormed(file, s) && Contains(file, s) && HoldsAll(t, mem, PageOf(s.virt), Blocks(file, s))
    ensures Loaded(t, mem, file, s)
  {
    forall k | 0 <= k < s.memSize ensures ByteAt(t, mem, s.virt + k) == Some(Want(file, s, k)) {
      BlockByte(file, s, k);
      SplitAddress(s.virt, k);
      var i := k / PAGE_SIZE;
      assert Holds(t, mem, PageOf(s.virt) + i, Blocks(file, s)[i]);
    }
  }

  lemma SplitAddress(virt: nat, k: nat)
    requires virt % PAGE_SIZE == 0
    ensures (virt + k) / PAGE_SIZE == virt / PAGE_SIZE + k / PAGE_SIZE && (virt + k) % PAGE_SIZE == k % PAGE_SIZE
  {
  }

  /** p is one of the pages from that of the first byte to that of the last of a segment to be loaded. */
  predicate InSegment(s: Segment, p: Page) {
    s.load && s.memSize > 0 && s.virt / 4096 <= p <= (s.virt + s.memSize - 1) / 4096
  }

  /** The pages of the segment have the protection it asks for. */
  ghost predicate Protected(t: map<Page, Entry>, s: Segment, user: bool) {
    forall p :: InSegment(s, p) ==> p in t && t[p].flags.writable == s.write
                                    && t[p].flags.executable == s.execute && t[p].flags.user == user
  }

  /** What loading a segment has done: its bytes are in place, exactly its pages are new, with its
      protection, and nothing else has changed or been lost. */
  ghost predicate SegmentDone(vm: Vm, mem: Memory, vm': Vm, mem': Memory, file: File, s: Segment, user: bool) {
    && Loads(s)
    && |Pool(vm'.alloc)| == |Pool(vm.alloc)| - PageCount(s)
    && Conserved(vm, vm')
    && Added(vm.table, vm'.table, PageOf(s.virt), PageCount(s))
    && Loaded(vm'.table, mem', file, s) && Protected(vm'.table, s, user)
    && Undisturbed(vm.table, mem, vm'.table, mem')
  }

  /** An aligned segment on free pages is loaded exactly when there are enough frames. */
  lemma SegmentExact(vm: Vm, mem: Memory, file: File, s: Segment, user: bool)
    requires Exclusive(vm) && WellFormed(file, s) && Loads(s)
    requires AllFree(vm, PageOf(s.virt), PageCount(s))
    ensures Contains(file, s)
    ensures var (vm', mem', r) := LoadSegment(vm, mem, file, s, user);
            && (r.Ok? <==> PageCount(s) <= |Pool(vm.alloc)|)
            && (r.Ok? ==> r.value == (SegmentRange(s), Size(PageCount(s))))
            && (r.Ok? ==> SegmentDone(vm, mem, vm', mem', file, s, user))
  {
    AlignedIsWhole(file, s);
    SegmentIsFill(vm, mem, file, s, user);
    Layout(file, s);
    var lo, flags, blocks := PageOf(s.virt), SegmentFlags(s, user), Blocks(file, s);
    FillMaps(vm, mem, lo, blocks, flags);
    MapExact(vm, lo, |blocks|, flags);
    MapKeeps(vm, lo, |blocks|, flags);
    hide Blocks;
    hide Loaded;
    hide Undisturbed;
    hide Fill;
    hide LoadSegment;
    if Fill(vm, mem, lo, blocks, flags).2.Ok? {
      FillExact(vm, mem, lo, blocks, flags);
      var (vm', mem', _) := Fill(vm, mem, lo, blocks, flags);
      ImageOf(vm'.table, mem', file, s);
    }
  }

  /** The segment has been loaded, and its image is right. */
  ghost predicate LoadsRight(vm: Vm, mem: Memory, file: File, s: Segment, user: bool)
    requires s.memSize > 0
  {
    Contains(file, s) &&
    var (vm', mem', r) := LoadSegment(vm, mem, file, s, user);
    r.Ok? && Loaded(vm'.table, mem', file, s)
  }

  /** On free pages and with enough frames, and in a build of either kind: every file that contains
      the segment is loaded with the right image if and only if the segment starts at a page
      boundary. */
  lemma RightIffAligned(vm: Vm, mem: Memory, overrun: Overrun, s: Segment, user: bool)
    requires Exclusive(vm) && Loads(s) && s.fileSize <= s.memSize
    requires AllFree(vm, PageOf(s.virt), PageCount(s)) && PageCount(s) <= |Pool(vm.alloc)|
    ensures (forall bytes :: Contains(File(bytes, overrun), s) ==>
               LoadsRight(vm, mem, File(bytes, overrun), s, user))
       <==> s.virt % PAGE_SIZE == 0
  {
    if s.virt % PAGE_SIZE == 0 {
      forall bytes | Contains(File(bytes, overrun), s)
        ensures LoadsRight(vm, mem, File(bytes, overrun), s, user)
      {
        SegmentExact(vm, mem, File(bytes, overrun), s, user);
      }
    } else {
      var bytes := UnalignedIsWrong(vm, mem, overrun, s, user);
    }
  }

  /** On free pages and with enough frames a segment, aligned or not, is loaded exactly when the
      count of the bytes left does not underflow, or wraps unchecked. */
  lemma LoadedUnlessUnderflow(vm: Vm, mem: Memory, file: File, s: Segment, user: bool)
    requires Contains(file, s) && Loads(s) && s.fileSize <= s.memSize
    requires AllFree(vm, PageOf(s.virt), PageCount(s)) && PageCount(s) <= |Pool(vm.alloc)|
    ensures var r := LoadSegment(vm, mem, file, s, user).2;
            if Panics(file, s) then r == Err(Underflow) else r.Ok?
  {
    var lo, flags := PageOf(s.virt), SegmentFlags(s, user);
    hide FileBlock;
    if Panics(file, s) {
      UnderflowOccurs(vm, mem, file, s, flags);
    } else if s.fileSize > 0 {
      SegmentIsFill(vm, mem, file, s, user);
      Layout(file, s);
      hide LoadSegment;
      FillMaps(vm, mem, lo, Blocks(file, s), flags);
      MapExact(vm, lo, PageCount(s), flags);
    } else {
      BssAlone(vm, mem, file, s, user);
    }
  }

  lemma BssAlone(vm: Vm, mem: Memory, file: File, s: Segment, user: bool)
    requires Contains(file, s) && Loads(s) && s.fileSize == 0
    requires AllFree(vm, PageOf(s.virt), PageCount(s)) && PageCount(s) <= |Pool(vm.alloc)|
    ensures LoadSegment(vm, mem, file, s, user).2.Ok?
  {
    hide FileBlock;
    var lo, flags := PageOf(s.virt), SegmentFlags(s, user);
    BssFits(s);
    forall p | InRange(p, BssStart(s), BssCount(s)) ensures p !in vm.table {
      assert InRange(p, lo, PageCount(s));
    }
    BssIsFill(vm, mem, BssStart(s), BssCount(s), flags);
    FillMaps(vm, mem, BssStart(s), Blank(BssCount(s)), flags);
    MapExact(vm, BssStart(s), BssCount(s), flags);
  }

  /** Where the count wraps, the last page of the file part holds a page from behind the segment's
      bytes. */
  lemma WrappedCopy(vm: Vm, mem: Memory, file: File, s: Segment, user: bool)
    requires Exclusive(vm) && Contains(file, s) && Loads(s) && s.fileSize <= s.memSize
    requires Underflows(s) && file.overrun.Wraps?
    requires AllFree(vm, PageOf(s.virt), PageCount(s)) && PageCount(s) <= |Pool(vm.alloc)|
    ensures var (vm', mem', r) := LoadSegment(vm, mem, file, s, user);
            var last := FilePageCount(s) - 1;
            && r.Ok? && last * PAGE_SIZE > s.fileSize
            && Holds(vm'.table, mem', PageOf(s.virt) + last, PageFrom(file, s.offset + last * PAGE_SIZE))
  {
    hide LoadSegment;
    hide Fill;
    hide PageCount;
    hide Blocks;
    hide FilePageCount;
    hide Panics;
    hide PageFrom;
    AreBytes(file, s);
    LoadedUnlessUnderflow(vm, mem, file, s, user);
    SegmentIsFill(vm, mem, file, s, user);
    LastBlock(file, s);
    FillExact(vm, mem, PageOf(s.virt), Blocks(file, s), SegmentFlags(s, user));
  }

  lemma AreBytes(file: File, s: Segment)
    requires Underflows(s) && file.overrun.Wraps?
    ensures s.fileSize > 0 && !Panics(file, s)
  {
  }

  lemma LastBlock(file: File, s: Segment)
    requires Contains(file, s) && Underflows(s) && file.overrun.Wraps?
    ensures var last := FilePageCount(s) - 1;
            && 0 <= last < |Blocks(file, s)| && last * PAGE_SIZE > s.fileSize
            && Blocks(file, s)[last] == PageFrom(file, s.offset + last * PAGE_SIZE)
  {
    var last := FilePageCount(s) - 1;
    assert Blocks(file, s)[last] == FileBlock(file, s, last);
  }

  lemma BssFits(s: Segment)
    requires s.memSize > 0 && s.fileSize == 0
    ensures PageOf(s.virt) <= BssStart(s) && BssCount(s) <= PageCount(s)
    ensures BssCount(s) > 0 ==> BssStart(s) + BssCount(s) == PageOf(s.virt) + PageCount(s)
  {
    AlignUpPage(s.virt);
  }

  lemma UnderflowOccurs(vm: Vm, mem: Memory, file: File, s: Segment, flags: Flags)
    requires Contains(file, s) && s.fileSize <= s.memSize && Panics(file, s)
    requires AllFree(vm, PageOf(s.virt), PageCount(s)) && PageCount(s) <= |Pool(vm.alloc)|
    ensures LoadFilePart(vm, mem, file, s, flags).2 == Err(Underflow)
  {
    var lo, blocks := PageOf(s.virt), FileBlocks(file, s);
    assert |blocks| < PageCount(s);
    forall p | InRange(p, lo, |blocks|) ensures p !in vm.table {
      assert InRange(p, lo, PageCount(s));
    }
    FillMaps(vm, mem, lo, blocks, flags);
    MapExact(vm, lo, |blocks|, flags);
    TakeCounts(Fill(vm, mem, lo, blocks, flags).0.alloc);
  }

  /** For every segment that does not start at a page boundary there is a file that is not loaded, or
      loaded with the wrong image. */
  lemma UnalignedIsWrong(vm: Vm, mem: Memory, overrun: Overrun, s: Segment, user: bool) returns (bytes: Bytes)
    requires Exclusive(vm) && s.memSize > 0 && s.fileSize <= s.memSize && s.virt % PAGE_SIZE != 0
    requires AllFree(vm, PageOf(s.virt), PageCount(s))
    ensures Contains(File(bytes, overrun), s) && !LoadsRight(vm, mem, File(bytes, overrun), s, user)
  {
    bytes := Zeros(s.offset + s.fileSize);
    if s.fileSize > 0 {
      bytes := bytes[s.offset := 1];
      if !Panics(File(bytes, overrun), s) {
        FirstByteWrong(vm, mem, File(bytes, overrun), s, user);
      }
    } else {
      FirstPageMissing(vm, mem, File(bytes, overrun), s, user);
    }
  }

  lemma FirstByteWrong(vm: Vm, mem: Memory, file: File, s: Segment, user: bool)
    requires Exclusive(vm) && s.memSize > 0 && s.virt % PAGE_SIZE != 0
    requires 0 < s.fileSize <= s.memSize && Contains(file, s) && !Panics(file, s)
    requires file.bytes == Zeros(s.offset + s.fileSize)[s.offset := 1]
    requires AllFree(vm, PageOf(s.virt), PageCount(s))
    ensures !LoadsRight(vm, mem, file, s, user)
  {
    SegmentIsFill(vm, mem, file, s, user);
    var lo, flags, blocks := PageOf(s.virt), SegmentFlags(s, user), Blocks(file, s);
    var (vm', mem', r) := Fill(vm, mem, lo, blocks, flags);
    if r.Ok? {
      FillExact(vm, mem, lo, blocks, flags);
      assert Holds(vm'.table, mem', lo + 0, blocks[0]);
      assert blocks[0] == FileBlock(file, s, 0);
      assert blocks[0][s.virt % PAGE_SIZE] == 0;
      assert ByteAt(vm'.table, mem', s.virt + 0) == Some(0);
      assert Want(file, s, 0) == 1;
    }
  }

  lemma FirstPageMissing(vm: Vm, mem: Memory, file: File, s: Segment, user: bool)
    requires s.memSize > 0 && s.virt % PAGE_SIZE != 0 && s.fileSize == 0 && Contains(file, s)
    requires AllFree(vm, PageOf(s.virt), PageCount(s))
    ensures !LoadsRight(vm, mem, file, s, user)
  {
    if Loaded(LoadSegment(vm, mem, file, s, user).0.table, LoadSegment(vm, mem, file, s, user).1, file, s) {
      FirstByte(LoadSegment(vm, mem, file, s, user).0.table, LoadSegment(vm, mem, file, s, user).1, file, s);
    }
    AlignUpPage(s.virt);
    var flags := SegmentFlags(s, user);
    forall p | InRange(p, BssStart(s), BssCount(s)) ensures p !in vm.table {
      assert InRange(p, PageOf(s.virt), PageCount(s));
    }
    BssIsFill(vm, mem, BssStart(s), BssCount(s), flags);
    FillMaps(vm, mem, BssStart(s), Blank(BssCount(s)), flags);
    MapKeeps(vm, BssStart(s), BssCount(s), flags);
    assert InRange(PageOf(s.virt), PageOf(s.virt), PageCount(s));
    var (vm', mem', _) := LoadSegment(vm, mem, file, s, user);
    assert PageOf(s.virt) !in vm'.table;
    assert ByteAt(vm'.table, mem', s.virt) == None;
  }

  lemma FirstByte(t: map<Page, Entry>, mem: Memory, file: File, s: Segment)
    requires Loaded(t, mem, file, s) && s.memSize > 0
    ensures ByteAt(t, mem, s.virt) == Some(Want(file, s, 0))
  {
    assert ByteAt(t, mem, s.virt + 0) == Some(Want(file, s, 0));
  }

  // ---------------------------------------------------------------------
  // The whole file
  // ---------------------------------------------------------------------

  predicate AllContained(file: File, segments: seq<Segment>) {
    forall i :: 0 <= i < |segments| && Loads(segments[i]) ==> Contains(file, segments[i])
  }

  function LoadElf(vm: Vm, mem: Memory, file: File, segments: seq<Segment>, user: bool)
    : (Vm, Memory, Result<(seq<Range>, nat), LoadError>)
    requires AllContained(file, segments)
    decreases |segments|
  {
    if segments == [] then (vm, mem, Ok(([], 0)))
    else if !Loads(segments[0]) then LoadElf(vm, mem, file, segments[1..], user)
    else
      var (vm1, mem1, r1) := LoadSegment(vm, mem, file, segments[0], user);
      if r1.Err? then (vm1, mem1, Err(r1.error))
      else
        var (vm2, mem2, r2) := LoadElf(vm1, mem1, file, segments[1..], user);
        (vm2, mem2, Prepend([r1.value.0], r1.value.1, r2))
  }

  function Prepend(ranges: seq<Range>, usage: nat, r: Result<(seq<Range>, nat), LoadError>)
    : Result<(seq<Range>, nat), LoadError>
  {
    if r.Err? then r else Ok((ranges + r.value.0, usage + r.value.1))
  }

  function PrependTo(ranges: seq<Range>, usage: nat, r: (Vm, Memory, Result<(seq<Range>, nat), LoadError>))
    : (Vm, Memory, Result<(seq<Range>, nat), LoadError>)
  {
    (r.0, r.1, Prepend(ranges, usage, r.2))
  }

  lemma PrependNothing(r: Result<(seq<Range>, nat), LoadError>)
    ensures Prepend([], 0, r) == r
  {
    if r.Ok? {
      assert [] + r.value.0 == r.value.0;
    }
  }

  lemma PrependTwice(a: seq<Range>, u: nat, b: seq<Range>, v: nat, r: Result<(seq<Range>, nat), LoadError>)
    ensures Prepend(a, u, Prepend(b, v, r)) == Prepend(a + b, u + v, r)
  {
    if r.Ok? {
      assert a + (b + r.value.0) == (a + b) + r.value.0;
    }
  }

  /** The page ranges of the segments that are loaded, and how many pages these are. */
  function Ranges(segments: seq<Segment>): seq<Range> {
    if segments == [] then []
    else (if Loads(segments[0]) then [SegmentRange(segments[0])] else []) + Ranges(segments[1..])
  }

  function TotalPages(segments: seq<Segment>): nat {
    if segments == [] then 0
    else (if Loads(segments[0]) then PageCount(segments[0]) else 0) + TotalPages(segments[1..])
  }

  ghost predicate InImage(segments: seq<Segment>, p: Page) {
    exists i :: 0 <= i < |segments| && InSegment(segments[i], p)
  }

  /** Aligned segments, no two of which share a page, on free pages. */
  ghost predicate Loadable(vm: Vm, file: File, segments: seq<Segment>) {
    && (forall i :: 0 <= i < |segments| && Loads(segments[i]) ==> WellFormed(file, segments[i]))
    && (forall i, j, p :: 0 <= i < j < |segments| && InSegment(segments[i], p) ==> !InSegment(segments[j], p))
    && (forall i, p :: 0 <= i < |segments| && InSegment(segments[i], p) ==> p !in vm.table)
  }

  ghost predicate AllLoaded(t: map<Page, Entry>, mem: Memory, file: File, segments: seq<Segment>, user: bool) {
    forall i :: 0 <= i < |segments| && segments[i].load && segments[i].memSize > 0 ==>
      Loaded(t, mem, file, segments[i]) && Protected(t, segments[i], user)
  }

  ghost predicate ImageAdded(t: map<Page, Entry>, t': map<Page, Entry>, segments: seq<Segment>) {
    forall p :: p in t' <==> p in t || InImage(segments, p)
  }

  lemma RestLoadable(vm: Vm, vm1: Vm, file: File, segments: seq<Segment>)
    requires segments != [] && Loadable(vm, file, segments)
    requires forall p :: p in vm1.table ==> p in vm.table || InSegment(segments[0], p)
    ensures Loadable(vm1, file, segments[1..])
  {
    var rest := segments[1..];
    forall i, p | 0 <= i < |rest| && InSegment(rest[i], p) ensures p !in vm1.table {
      assert rest[i] == segments[i + 1];
    }
    forall i, j, p | 0 <= i < j < |rest| && InSegment(rest[i], p) ensures !InSegment(rest[j], p) {
      assert rest[i] == segments[i + 1] && rest[j] == segments[j + 1];
    }
  }

  lemma ImageOfRest(segments: seq<Segment>, p: Page)
    requires segments != []
    ensures InImage(segments, p) <==> InSegment(segments[0], p) || InImage(segments[1..], p)
  {
    if InImage(segments[1..], p) {
      var i :| 0 <= i < |segments[1..]| && InSegment(segments[1..][i], p);
      assert InSegment(segments[i + 1], p);
    }
    if i :| 0 <= i < |segments| && InSegment(segments[i], p) {
      assert i == 0 || InSegment(segments[1..][i - 1], p);
    }
  }

  /** A loaded segment stays loaded while its pages are not disturbed. */
  lemma StaysLoaded(t: map<Page, Entry>, mem: Memory, t': map<Page, Entry>, mem': Memory, file: File, s: Segment)
    requires Loaded(t, mem, file, s) && Undisturbed(t, mem, t', mem')
    ensures Loaded(t', mem', file, s)
    ensures forall user :: Protected(t, s, user) ==> Protected(t', s, user)
  {
    forall k | 0 <= k < s.memSize ensures ByteAt(t', mem', s.virt + k) == Some(Want(file, s, k)) {
      assert ByteAt(t, mem, s.virt + k) == Some(Want(file, s, k));
    }
  }

  lemma LoadableContained(vm: Vm, file: File, segments: seq<Segment>)
    requires Loadable(vm, file, segments)
    ensures AllContained(file, segments)
  {
    forall i | 0 <= i < |segments| && Loads(segments[i]) ensures Contains(file, segments[i]) {
      AlignedIsWhole(file, segments[i]);
    }
  }

  /** What a successful load has done. */
  ghost predicate Outcome(
    vm: Vm, mem: Memory, vm': Vm, mem': Memory, file: File, segments: seq<Segment>, user: bool)
  {
    && |Pool(vm'.alloc)| == |Pool(vm.alloc)| - TotalPages(segments)
    && Conserved(vm, vm')
    && ImageAdded(vm.table, vm'.table, segments)
    && AllLoaded(vm'.table, mem', file, segments, user)
    && Undisturbed(vm.table, mem, vm'.table, mem')
  }

  lemma SkipJoin(vm: Vm, mem: Memory, vm': Vm, mem': Memory, file: File, segments: seq<Segment>, user: bool)
    requires segments != [] && !Loads(segments[0]) && Outcome(vm, mem, vm', mem', file, segments[1..], user)
    ensures Outcome(vm, mem, vm', mem', file, segments, user)
  {
    forall p ensures InImage(segments, p) <==> InImage(segments[1..], p) {
      ImageOfRest(segments, p);
    }
    AllLoadedJoin(vm'.table, mem', file, segments, user);
  }

  lemma AllLoadedJoin(t: map<Page, Entry>, mem: Memory, file: File, segments: seq<Segment>, user: bool)
    requires segments != [] && AllLoaded(t, mem, file, segments[1..], user)
    requires Loads(segments[0]) ==> Loaded(t, mem, file, segments[0]) && Protected(t, segments[0], user)
    ensures AllLoaded(t, mem, file, segments, user)
  {
    forall i | 0 <= i < |segments| && Loads(segments[i])
      ensures Loaded(t, mem, file, segments[i]) && Protected(t, segments[i], user)
    {
      if i > 0 {
        assert segments[i] == segments[1..][i - 1];
      }
    }
  }

  lemma LoadJoin(vm: Vm, mem: Memory, vm1: Vm, mem1: Memory, vm2: Vm, mem2: Memory,
                 file: File, segments: seq<Segment>, user: bool)
    requires segments != [] && Loads(segments[0]) && Outcome(vm1, mem1, vm2, mem2, file, segments[1..], user)
    requires SegmentDone(vm, mem, vm1, mem1, file, segments[0], user)
    ensures Outcome(vm, mem, vm2, mem2, file, segments, user)
  {
    forall p ensures InImage(segments, p) <==> InSegment(segments[0], p) || InImage(segments[1..], p) {
      ImageOfRest(segments, p);
    }
    hide Loaded;
    hide InImage;
    hide Count;
    UndisturbedChain(vm.table, mem, vm1.table, mem1, vm2.table, mem2);
    StaysLoaded(vm1.table, mem1, vm2.table, mem2, file, segments[0]);
    AllLoadedJoin(vm2.table, mem2, file, segments, user);
  }

  /** Loading succeeds exactly when there are frames for all pages; the ranges and the usage are
      then exactly those of the pages mapped. */
  ghost predicate LoadsExactly(vm: Vm, mem: Memory, file: File, segments: seq<Segment>, user: bool) {
    AllContained(file, segments) &&
    var (vm', mem', r) := LoadElf(vm, mem, file, segments, user);
    && (r.Ok? <==> TotalPages(segments) <= |Pool(vm.alloc)|)
    && (r.Ok? ==> r.value == (Ranges(segments), Size(TotalPages(segments))))
    && (r.Ok? ==> Outcome(vm, mem, vm', mem', file, segments, user))
  }

  /** Every byte of every segment is in place, exactly the image's pages are new, whatever was
      mapped before is undisturbed, and no frame is lost. */
  lemma {:induction false} ElfImage(vm: Vm, mem: Memory, file: File, segments: seq<Segment>, user: bool)
    requires Exclusive(vm) && Loadable(vm, file, segments)
    ensures LoadsExactly(vm, mem, file, segments, user)
    decreases |segments|
  {
    LoadableContained(vm, file, segments);
    if segments == [] {
    } else if Loads(segments[0]) {
      hide LoadsExactly;
      FirstPagesFree(vm, file, segments);
      SegmentExact(vm, mem, file, segments[0], user);
      hide LoadSegment;
      var (vm1, mem1, r1) := LoadSegment(vm, mem, file, segments[0], user);
      if r1.Ok? {
        StillExclusive(vm, vm1);
        RestLoadable(vm, vm1, file, segments);
        ElfImage(vm1, mem1, file, segments[1..], user);
      }
      ElfLoadStep(vm, mem, file, segments, user);
    } else {
      hide LoadsExactly;
      RestLoadable(vm, vm, file, segments);
      ElfImage(vm, mem, file, segments[1..], user);
      ElfSkipStep(vm, mem, file, segments, user);
    }
  }

  /** The ranges returned are those of the segments to be loaded, each from the page of its first byte to
      that of its last, in order; the usage is 4096 bytes for each page. */
  lemma {:induction false} RangesAre(segments: seq<Segment>)
    ensures Ranges(segments) == if segments == [] then []
              else (if segments[0].load && segments[0].memSize > 0
                    then [Range(segments[0].virt / 4096, (segments[0].virt + segments[0].memSize - 1) / 4096)] else [])
                   + Ranges(segments[1..])
    ensures TotalPages(segments) == if segments == [] then 0
              else (if segments[0].load && segments[0].memSize > 0
                    then (segments[0].virt + segments[0].memSize - 1) / 4096 - segments[0].virt / 4096 + 1 else 0)
                   + TotalPages(segments[1..])
    ensures Size(TotalPages(segments)) == TotalPages(segments) * 4096
  {
  }

  lemma ElfSkipStep(vm: Vm, mem: Memory, file: File, segments: seq<Segment>, user: bool)
    requires segments != [] && !Loads(segments[0]) && AllContained(file, segments)
    requires LoadsExactly(vm, mem, file, segments[1..], user)
    ensures LoadsExactly(vm, mem, file, segments, user)
  {
    hide Outcome;
    assert LoadElf(vm, mem, file, segments, user) == LoadElf(vm, mem, file, segments[1..], user);
    assert Ranges(segments) == Ranges(segments[1..]);
    var (vm', mem', r) := LoadElf(vm, mem, file, segments[1..], user);
    if r.Ok? {
      SkipJoin(vm, mem, vm', mem', file, segments, user);
    }
  }

  lemma ElfLoadStep(vm: Vm, mem: Memory, file: File, segments: seq<Segment>, user: bool)
    requires segments != [] && Loads(segments[0]) && AllContained(file, segments)
    requires var (vm1, mem1, r1) := LoadSegment(vm, mem, file, segments[0], user);
             && (r1.Ok? <==> PageCount(segments[0]) <= |Pool(vm.alloc)|)
             && (r1.Ok? ==> r1.value == (SegmentRange(segments[0]), Size(PageCount(segments[0]))))
             && (r1.Ok? ==> SegmentDone(vm, mem, vm1, mem1, file, segments[0], user))
             && (r1.Ok? ==> LoadsExactly(vm1, mem1, file, segments[1..], user))
    ensures LoadsExactly(vm, mem, file, segments, user)
  {
    hide LoadSegment;
    hide Outcome;
    hide SegmentDone;
    hide Size;
    var rest := segments[1..];
    var (vm1, mem1, r1) := LoadSegment(vm, mem, file, segments[0], user);
    if r1.Ok? {
      PoolAfter(vm, mem, vm1, mem1, file, segments[0], user);
      SizeSum(PageCount(segments[0]), TotalPages(rest));
      var (vm2, mem2, r2) := LoadElf(vm1, mem1, file, rest, user);
      if r2.Ok? {
        LoadJoin(vm, mem, vm1, mem1, vm2, mem2, file, segments, user);
      }
    }
  }

  lemma PoolAfter(vm: Vm, mem: Memory, vm': Vm, mem': Memory, file: File, s: Segment, user: bool)
    requires SegmentDone(vm, mem, vm', mem', file, s, user)
    ensures |Pool(vm'.alloc)| == |Pool(vm.alloc)| - PageCount(s)
  {
  }

  lemma SizeSum(a: nat, b: nat)
    ensures Size(a + b) == Size(a) + Size(b)
  {
  }

  lemma FirstPagesFree(vm: Vm, file: File, segments: seq<Segment>)
    requires Loadable(vm, file, segments) && segments != [] && Loads(segments[0])
    ensures AllFree(vm, PageOf(segments[0].virt), PageCount(segments[0]))
  {
    forall p | InRange(p, PageOf(segments[0].virt), PageCount(segments[0])) ensures p !in vm.table {
      assert InSegment(segments[0], p);
    }
  }

  lemma StillExclusive(vm: Vm, vm': Vm)
    requires Exclusive(vm) && Conserved(vm, vm')
    ensures Exclusive(vm')
  {
    forall f ensures Count(vm', f) <= 1 {
      assert Count(vm', f) == Count(vm, f);
      assert Count(vm, f) <= 1;
    }
  }

  // ---------------------------------------------------------------------
  // The loops
  // ---------------------------------------------------------------------

  /** Load one segment, page by page. */
  method LoadSegmentPages(file: File, s: Segment, t: PageTable, a: FrameAllocator, ram: Ram, user: bool)
    returns (r: Result<(Range, nat), LoadError>)
    requires Contains(file, s) && s.memSize > 0
    modifies t, ram, a`used, a`remaining, a`recycled
    ensures (Pair(t, a), ram.data, r) == LoadSegment(old(Pair(t, a)), old(ram.data), file, s, user)
  {
    hide Fill;
    hide Pair;
    var flags := Flags(s.write, s.execute, user);
    var startPage := PageOf(s.virt);
    var m := LoadFilePages(file, s, flags, t, a, ram);
    if m.Err? {
      return Err(m.error);
    }
    if s.memSize > s.fileSize {
      var bssStart, bssEnd := PageOf(AlignUp(s.virt + s.fileSize)), PageOf(s.virt + s.memSize - 1);
      if bssStart <= bssEnd {
        var z := LoadBssPages(bssStart, bssEnd, flags, t, a, ram);
        if z.Err? {
          return Err(Unmapped(z.error));
        }
      }
    }
    var end := PageOf(s.virt + s.memSize - 1);
    return Ok((Range(startPage, end), Size(end - startPage + 1)));
  }

  /** The bytes for page i of the file part. */
  method ReadBlock(file: File, s: Segment, i: nat) returns (block: Bytes)
    requires Contains(file, s) && i < FilledCount(file, s)
    ensures block == FileBlock(file, s, i)
  {
    FilledPages(file, s, i);
    var at := i * PAGE_SIZE;
    if s.fileSize < at {
      return PageFrom(file, s.offset + at);
    }
    var n := if s.fileSize - at < PAGE_SIZE then s.fileSize - at else PAGE_SIZE;
    block := file.bytes[s.offset + at..s.offset + at + n];
    if n < PAGE_SIZE {
      block := block + Zeros(PAGE_SIZE - n);
    } else {
      assert block == block + Zeros(0);
    }
  }

  /** The rest of a fill, from block i on. */
  function FillFrom(vm: Vm, mem: Memory, lo: Page, blocks: seq<Bytes>, i: nat, flags: Flags)
    : (Vm, Memory, Result<(), MapError>)
    requires i <= |blocks|
  {
    Fill(vm, mem, lo + i, blocks[i..], flags)
  }

  /** One page of a fill. */
  function PutPage(vm: Vm, mem: Memory, p: Page, block: Bytes, flags: Flags): (Vm, Memory, Result<(), MapError>) {
    var (alloc, frame) := Take(vm.alloc);
    if frame.None? then (vm, mem, Err(FrameAllocationFailed))
    else if p in vm.table then (vm.(alloc := alloc), Write(mem, frame.value, block), Err(PageAlreadyMapped))
    else (Vm(vm.table[p := Entry(frame.value, flags)], alloc), Write(mem, frame.value, block), Ok(()))
  }

  lemma FillFromStep(vm: Vm, mem: Memory, lo: Page, blocks: seq<Bytes>, i: nat, flags: Flags)
    requires i < |blocks|
    ensures var (vm1, mem1, r) := PutPage(vm, mem, lo + i, blocks[i], flags);
            && (r.Err? ==> FillFrom(vm, mem, lo, blocks, i, flags) == (vm1, mem1, r))
            && (r.Ok? ==> FillFrom(vm, mem, lo, blocks, i, flags) == FillFrom(vm1, mem1, lo, blocks, i + 1, flags))
  {
    assert blocks[i..][1..] == blocks[i + 1..];
  }

  lemma FillFromEnds(vm: Vm, mem: Memory, lo: Page, blocks: seq<Bytes>, flags: Flags)
    ensures FillFrom(vm, mem, lo, blocks, 0, flags) == Fill(vm, mem, lo, blocks, flags)
    ensures FillFrom(vm, mem, lo, blocks, |blocks|, flags) == (vm, mem, Ok(()))
  {
    assert blocks[0..] == blocks;
  }

  /** Take a frame, write the block to it, map it. */
  method LoadPage(p: Page, block: Bytes, flags: Flags, t: PageTable, a: FrameAllocator, ram: Ram)
    returns (r: Result<(), MapError>)
    modifies t, ram, a`used, a`remaining, a`recycled
    ensures (Pair(t, a), ram.data, r) == PutPage(old(Pair(t, a)), old(ram.data), p, block, flags)
  {
    var frame := a.AllocateFrame();
    if frame == None {
      return Err(FrameAllocationFailed);
    }
    ram.data := Write(ram.data, frame.value, block);
    r := t.MapTo(p, frame.value, flags);
  }

  lemma UnderflowsLast(file: File, s: Segment, i: nat)
    requires s.fileSize > 0 && i < FilePageCount(s)
    ensures s.fileSize < i * PAGE_SIZE && file.overrun.Checked? <==> Panics(file, s) && i == FilledCount(file, s)
    ensures s.fileSize >= i * PAGE_SIZE || file.overrun.Wraps? ==> i < FilledCount(file, s)
  {
  }

  method LoadFilePages(file: File, s: Segment, flags: Flags, t: PageTable, a: FrameAllocator, ram: Ram)
    returns (r: Result<(), LoadError>)
    requires Contains(file, s)
    modifies t, ram, a`used, a`remaining, a`recycled
    ensures (Pair(t, a), ram.data, r) == LoadFilePart(old(Pair(t, a)), old(ram.data), file, s, flags)
  {
    if s.fileSize == 0 {
      return Ok(());
    }
    var count := PageOf(s.virt + s.fileSize - 1) - PageOf(s.virt) + 1;
    r := FillFilePages(file, s, flags, count, t, a, ram);
  }

  method FillFilePages(file: File, s: Segment, flags: Flags, count: nat, t: PageTable, a: FrameAllocator, ram: Ram)
    returns (r: Result<(), LoadError>)
    requires Contains(file, s) && s.fileSize > 0 && count == FilePageCount(s)
    modifies t, ram, a`used, a`remaining, a`recycled
    ensures (Pair(t, a), ram.data, r) == LoadFilePart(old(Pair(t, a)), old(ram.data), file, s, flags)
  {
    hide FillFrom;
    hide Contains;
    hide FileBlock;
    hide PutPage;
    hide FilePageCount;
    hide FilledCount;
    hide Underflows;
    hide Panics;
    ghost var blocks := FileBlocks(file, s);
    var start := PageOf(s.virt);
    FillFromEnds(Pair(t, a), ram.data, start, blocks, flags);
    AllFilled(file, s, 0);
    var i := 0;
    while i < count
      invariant 0 <= i <= count && i <= |blocks|
      invariant i == count ==> i == |blocks| && !Panics(file, s)
      invariant FillFrom(Pair(t, a), ram.data, start, blocks, i, flags)
             == Fill(old(Pair(t, a)), old(ram.data), start, blocks, flags)
    {
      UnderflowsLast(file, s, i);
      if s.fileSize < i * PAGE_SIZE && file.overrun.Checked? {
        FillFromEnds(Pair(t, a), ram.data, start, blocks, flags);
        var frame := a.AllocateFrame();
        return Err(if frame == None then Unmapped(FrameAllocationFailed) else Underflow);
      }
      FillFromStep(Pair(t, a), ram.data, start, blocks, i, flags);
      var block := ReadBlock(file, s, i);
      var m := LoadPage(start + i, block, flags, t, a, ram);
      if m.Err? {
        return Err(Unmapped(m.error));
      }
      i := i + 1;
      AllFilled(file, s, i);
    }
    FillFromEnds(Pair(t, a), ram.data, start, blocks, flags);
    return Ok(());
  }

  lemma AllFilled(file: File, s: Segment, i: nat)
    requires s.fileSize > 0 && i <= FilledCount(file, s)
    ensures i == FilePageCount(s) ==> i == FilledCount(file, s) && !Panics(file, s)
  {
  }

  method LoadBssPages(start: Page, end: Page, flags: Flags, t: PageTable, a: FrameAllocator, ram: Ram)
    returns (r: Result<(), MapError>)
    requires start <= end
    modifies t, ram, a`used, a`remaining, a`recycled
    ensures (Pair(t, a), ram.data, r)
         == LoadBss(old(Pair(t, a)), old(ram.data), start, end - start + 1, flags)
  {
    var page := start;
    while page <= end
      invariant start <= page <= end + 1
      invariant LoadBss(Pair(t, a), ram.data, page, end - page + 1, flags)
             == LoadBss(old(Pair(t, a)), old(ram.data), start, end - start + 1, flags)
    {
      if page !in t.entries {
        var frame := a.AllocateFrame();
        if frame == None {
          return Err(FrameAllocationFailed);
        }
        var m := t.MapTo(page, frame.value, flags);
        ram.data := Write(ram.data, frame.value, Zeros(PAGE_SIZE));
      }
      page := page + 1;
    }
    return Ok(());
  }

  /** Load all segments that are to be loaded. */
  method LoadElfFile(file: File, segments: seq<Segment>, t: PageTable, a: FrameAllocator, ram: Ram, user: bool)
    returns (r: Result<(seq<Range>, nat), LoadError>)
    requires AllContained(file, segments)
    modifies t, ram, a`used, a`remaining, a`recycled
    ensures (Pair(t, a), ram.data, r) == LoadElf(old(Pair(t, a)), old(ram.data), file, segments, user)
  {
    hide LoadSegment;
    hide Contains;
    hide Pair;
    var ranges: seq<Range>, usage := [], 0;
    var i := 0;
    PrependNothing(LoadElf(Pair(t, a), ram.data, file, segments, user).2);
    assert segments[0..] == segments;
    while i < |segments|
      invariant 0 <= i <= |segments|
      invariant AllContained(file, segments[i..])
      invariant PrependTo(ranges, usage, LoadElf(Pair(t, a), ram.data, file, segments[i..], user))
             == LoadElf(old(Pair(t, a)), old(ram.data), file, segments, user)
    {
      var s := segments[i];
      assert segments[i..][0] == s && segments[i..][1..] == segments[i + 1..];
      if s.load && s.memSize != 0 {
        var m := LoadSegmentPages(file, s, t, a, ram, user);
        if m.Err? {
          return Err(m.error);
        }
        PrependTwice(ranges, usage, [m.value.0], m.value.1,
                     LoadElf(Pair(t, a), ram.data, file, segments[i + 1..], user).2);
        ranges := ranges + [m.value.0];
        usage := usage + m.value.1;
      }
      i := i + 1;
    }
    assert ranges + [] == ranges;
    return Ok((ranges, usage));
  }
}
