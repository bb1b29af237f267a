/** The physical frame allocator: fresh frames from the boot memory map, then recycled ones. */
module Frames {
  import opened Common

  const PAGE_SIZE := 4096

  type Frame = nat

  datatype Region = Region(conventional: bool, start: nat, pageCount: nat)

  // ---------------------------------------------------------------------
  // The frames of a memory map
  // ---------------------------------------------------------------------

  /** The frames of one region: each page start, rounded down to a frame. */
  function RegionFrames(r: Region): seq<Frame> {
    seq(r.pageCount, v requires 0 <= v => (v * PAGE_SIZE + r.start) / PAGE_SIZE)
  }

  function FrameIter(memory: seq<Region>): seq<Frame> {
    if memory == [] then []
    else (if memory[0].conventional then RegionFrames(memory[0]) else []) + FrameIter(memory[1..])
  }

  predicate InRegion(r: Region, f: Frame) {
    r.conventional && r.start / PAGE_SIZE <= f < r.start / PAGE_SIZE + r.pageCount
  }

  predicate Distinct(s: seq<Frame>) {
    forall i, j :: 0 <= i < j < |s| ==> s[i] != s[j]
  }

  lemma RegionFramesAre(r: Region)
    ensures forall i :: 0 <= i < r.pageCount ==> RegionFrames(r)[i] == r.start / PAGE_SIZE + i
    ensures forall f :: f in RegionFrames(r) <==> r.start / PAGE_SIZE <= f < r.start / PAGE_SIZE + r.pageCount
  {
    forall i | 0 <= i < r.pageCount ensures RegionFrames(r)[i] == r.start / PAGE_SIZE + i {
      assert (i * PAGE_SIZE + r.start) / PAGE_SIZE == i + r.start / PAGE_SIZE;
    }
    forall f: Frame | r.start / PAGE_SIZE <= f < r.start / PAGE_SIZE + r.pageCount ensures f in RegionFrames(r) {
      assert RegionFrames(r)[f - r.start / PAGE_SIZE] == f;
    }
  }

  /** Exactly the frames of the conventional regions are handed out. */
  lemma {:induction false} FrameIterCovers(memory: seq<Region>, f: Frame)
    ensures f in FrameIter(memory) <==> exists i :: 0 <= i < |memory| && InRegion(memory[i], f)
  {
    if memory != [] {
      RegionFramesAre(memory[0]);
      FrameIterCovers(memory[1..], f);
      if exists i :: 0 <= i < |memory[1..]| && InRegion(memory[1..][i], f) {
        var i :| 0 <= i < |memory[1..]| && InRegion(memory[1..][i], f);
        assert InRegion(memory[i + 1], f);
      }
      if i :| 0 <= i < |memory| && InRegion(memory[i], f) {
        assert i == 0 || InRegion(memory[1..][i - 1], f);
      }
    }
  }

  ghost predicate Overlap(r: Region, s: Region) {
    exists f: Frame :: InRegion(r, f) && InRegion(s, f)
  }

  /** No frame is handed out twice exactly when no two conventional regions share a frame. */
  lemma {:induction false} FramesDistinct(memory: seq<Region>)
    ensures Distinct(FrameIter(memory)) <==>
            forall i, j :: 0 <= i < j < |memory| ==> !Overlap(memory[i], memory[j])
  {
    if memory != [] {
      var r, rest := memory[0], memory[1..];
      var head := if r.conventional then RegionFrames(r) else [];
      var tail := FrameIter(rest);
      RegionFramesAre(r);
      FramesDistinct(rest);
      assert forall i, j :: 1 <= i < j < |memory| ==> memory[i] == rest[i - 1] && memory[j] == rest[j - 1];
      if Distinct(head + tail) {
        TailDistinct(head, tail);
        forall j | 1 <= j < |memory| ensures !Overlap(r, memory[j]) {
          if f: Frame :| InRegion(r, f) && InRegion(memory[j], f) {
            assert InRegion(rest[j - 1], f);
            FrameIterCovers(rest, f);
            Collide(head, tail, f);
          }
        }
        forall i, j | 0 <= i < j < |memory| ensures !Overlap(memory[i], memory[j]) {
          if i > 0 { assert !Overlap(rest[i - 1], rest[j - 1]); }
        }
      } else if forall i, j :: 0 <= i < j < |memory| ==> !Overlap(memory[i], memory[j]) {
        forall i, j | 0 <= i < j < |rest| ensures !Overlap(rest[i], rest[j]) {
          assert !Overlap(memory[i + 1], memory[j + 1]);
        }
        forall f | f in head ensures f !in tail {
          FrameIterCovers(rest, f);
          forall j | 0 <= j < |rest| ensures !InRegion(rest[j], f) {
            assert !Overlap(memory[0], memory[j + 1]);
            assert InRegion(r, f);
          }
        }
        JoinDistinct(head, tail);
      }
    }
  }

  lemma TailDistinct(head: seq<Frame>, tail: seq<Frame>)
    requires Distinct(head + tail)
    ensures Distinct(tail)
  {
    forall i, j | 0 <= i < j < |tail| ensures tail[i] != tail[j] {
      assert (head + tail)[|head| + i] != (head + tail)[|head| + j];
    }
  }

  lemma Collide(head: seq<Frame>, tail: seq<Frame>, f: Frame)
    requires f in head && f in tail
    ensures !Distinct(head + tail)
  {
    var i :| 0 <= i < |head| && head[i] == f;
    var j :| 0 <= j < |tail| && tail[j] == f;
    assert (head + tail)[i] == (head + tail)[|head| + j];
  }

  lemma JoinDistinct(head: seq<Frame>, tail: seq<Frame>)
    requires Distinct(head) && Distinct(tail) && forall f :: f in head ==> f !in tail
    ensures Distinct(head + tail)
  {
    forall i, j | 0 <= i < j < |head + tail| ensures (head + tail)[i] != (head + tail)[j] {
      if i < |head| <= j {
        assert head[i] in head && tail[j - |head|] in tail;
      }
    }
  }

  // ---------------------------------------------------------------------
  // The allocator
  // ---------------------------------------------------------------------

  /** `remaining` is what the iterator has not yet yielded; `recycled` is a stack. */
  datatype Alloc = Alloc(used: nat, remaining: seq<Frame>, recycled: seq<Frame>)

  function Take(a: Alloc): (Alloc, Option<Frame>) {
    if a.recycled != [] then
      (a.(recycled := a.recycled[..|a.recycled| - 1]), Some(a.recycled[|a.recycled| - 1]))
    else if a.remaining != [] then (a.(used := a.used + 1, remaining := a.remaining[1..]), Some(a.remaining[0]))
    else (a, None)
  }

  function Give(a: Alloc, f: Frame): Alloc {
    a.(recycled := a.recycled + [f])
  }

  /** The frames that can be allocated. */
  function Pool(a: Alloc): multiset<Frame> {
    multiset(a.recycled) + multiset(a.remaining)
  }

  lemma TakeFacts(a: Alloc)
    ensures Take(a).1 == None <==> |Pool(a)| == 0
    ensures Take(a).1.Some? ==> Pool(a) == Pool(Take(a).0) + multiset{Take(a).1.value}
    ensures Take(a).1 == None ==> Take(a).0 == a
  {
    if a.recycled != [] {
      assert a.recycled == a.recycled[..|a.recycled| - 1] + [a.recycled[|a.recycled| - 1]];
    } else if a.remaining != [] {
      assert a.remaining == [a.remaining[0]] + a.remaining[1..];
    }
  }

  lemma TakeCounts(a: Alloc)
    ensures Take(a).1 == None <==> |Pool(a)| == 0
    ensures |Pool(Take(a).0)| == |Pool(a)| - if Take(a).1.Some? then 1 else 0
  {
    TakeFacts(a);
  }

  /** A frame given back is the next one taken, and nothing else has changed. */
  lemma GiveThenTake(a: Alloc, f: Frame)
    ensures Take(Give(a, f)) == (a, Some(f))
    ensures Pool(Give(a, f)) == Pool(a) + multiset{f}
  {
    assert (a.recycled + [f])[..|a.recycled|] == a.recycled;
  }

  function TakeMany(a: Alloc, n: nat): (Alloc, seq<Option<Frame>>)
    decreases n
  {
    if n == 0 then (a, [])
    else
      var (a1, f) := Take(a);
      var (a2, fs) := TakeMany(a1, n - 1);
      (a2, [f] + fs)
  }

  /** Without recycled frames, the fresh ones come in the order of the iterator, each counted as used. */
  lemma {:induction false} FreshInOrder(a: Alloc, n: nat)
    requires a.recycled == [] && n <= |a.remaining|
    ensures var (a', fs) := TakeMany(a, n);
            && a' == Alloc(a.used + n, a.remaining[n..], [])
            && |fs| == n && forall i :: 0 <= i < n ==> fs[i] == Some(a.remaining[i])
    decreases n
  {
    if n > 0 {
      FreshInOrder(Take(a).0, n - 1);
    }
  }

  /** Recycled frames come last in first out, and are not counted as used again. */
  lemma {:induction false} RecycledInReverse(a: Alloc, n: nat)
    requires n <= |a.recycled|
    ensures var (a', fs) := TakeMany(a, n);
            && a' == Alloc(a.used, a.remaining, a.recycled[..|a.recycled| - n])
            && |fs| == n && forall i :: 0 <= i < n ==> fs[i] == Some(a.recycled[|a.recycled| - 1 - i])
    decreases n
  {
    if n > 0 {
      RecycledInReverse(Take(a).0, n - 1);
    } else {
      assert a.recycled[..|a.recycled|] == a.recycled;
    }
  }

  class FrameAllocator {
    var size: nat
    var used: nat
    var remaining: seq<Frame>
    var recycled: seq<Frame>

    ghost function Model(): Alloc
      reads this
    {
      Alloc(used, remaining, recycled)
    }

    constructor (memory: seq<Region>, size: nat)
      ensures Model() == Alloc(0, FrameIter(memory), []) && this.size == size
    {
      this.size := size;
      used := 0;
      remaining := FrameIter(memory);
      recycled := [];
    }

    method AllocateFrame() returns (frame: Option<Frame>)
      modifies this`used, this`remaining, this`recycled
      ensures (Model(), frame) == Take(old(Model()))
    {
      if recycled != [] {
        frame := Some(recycled[|recycled| - 1]);
        recycled := recycled[..|recycled| - 1];
      } else if remaining != [] {
        frame := Some(remaining[0]);
        remaining := remaining[1..];
        used := used + 1;
      } else {
        frame := None;
      }
    }

    method DeallocateFrame(frame: Frame)
      modifies this`recycled
      ensures Model() == Give(old(Model()), frame)
    {
      recycled := recycled + [frame];
    }
  }
}
