/** Reading a file: sector-wise, cluster by cluster, from the current offset on. */
module FatFile {
  import opened Common
  import opened FatVolume

  /** What a directory entry tells a file handle. */
  datatype FileEntry = FileEntry(cluster: Cluster, size: nat)

  /** What a read has put into the buffer, where it has left the handle, and what it returned. */
  datatype Outcome = Outcome(data: Bytes, offset: nat, cluster: Cluster, result: Result<nat, FsError>)

  // ---------------------------------------------------------------------
  // Specification of the loops
  // ---------------------------------------------------------------------

  /** k steps along the chain. */
  function Follow(v: Volume, c: Cluster, k: nat): Result<Cluster, FsError>
    decreases k
  {
    if k == 0 then Ok(c)
    else if c == 0 then Err(InvalidOperation)
    else
      var next := v.NextCluster(c);
      if next.Err? then Err(next.error)
      else if next.value.None? then Err(InvalidOperation)
      else Follow(v, next.value.value, k - 1)
  }

  /** The cluster that holds an offset of the file. */
  function LocateCluster(v: Volume, entry: FileEntry, offset: nat): Result<Cluster, FsError>
    requires v.sectorsPerCluster > 0
  {
    Follow(v, entry.cluster, IndexOf(v, offset))
  }

  function Then(data: Bytes, o: Outcome): Outcome {
    o.(data := data + o.data, result := if o.result.Err? then o.result else Ok(|data| + o.result.value))
  }

  /** One round: what was read, offset and cluster after it, and whether to go on. */
  datatype Round = Round(data: Bytes, offset: nat, cluster: Cluster, more: Result<bool, FsError>)

  /** Read up to n bytes from the current cluster; move on if the cluster is used up. */
  function ReadRound(v: Volume, offset: nat, c: Cluster, n: nat): (r: Round)
    requires v.sectorsPerCluster > 0 && n > 0
    ensures |r.data| <= n && (r.more == Ok(true) ==> 0 < |r.data| < n)
    ensures r.more.Ok? ==> r.offset == offset + |r.data|
  {
    var at := Within(v, offset);
    var chunk := Min(n, ClusterSize(v) - at);
    var (data, e) := ReadCluster(v, c, at, chunk);
    if e.Some? then Round(data, offset, c, Err(e.value))
    else if |data| < chunk || chunk == n || c == 0 then Round(data, offset + |data|, c, Ok(false))
    else
      var next := v.NextCluster(c);
      if next.Err? then Round(data, offset + |data|, c, Err(next.error))
      else if next.value.None? then Round(data, offset + |data|, c, Ok(false))
      else Round(data, offset + |data|, next.value.value, Ok(true))
  }

  /** Read n bytes, from the offset and the current cluster on. */
  function ReadLoop(v: Volume, offset: nat, c: Cluster, n: nat): (o: Outcome)
    requires v.sectorsPerCluster > 0
    ensures |o.data| <= n
    ensures o.result.Ok? ==> o.result.value == |o.data| && o.offset == offset + |o.data|
    decreases n
  {
    if n == 0 then Outcome([], offset, c, Ok(0))
    else
      var r := ReadRound(v, offset, c, n);
      if r.more.Err? then Outcome(r.data, r.offset, r.cluster, Err(r.more.error))
      else if !r.more.value then Outcome(r.data, r.offset, r.cluster, Ok(|r.data|))
      else Then(r.data, ReadLoop(v, r.offset, r.cluster, n - |r.data|))
  }

  function ReadFile(v: Volume, entry: FileEntry, offset: nat, c: Cluster, len: nat): (o: Outcome)
    requires v.sectorsPerCluster > 0
    ensures |o.data| <= len
    ensures o.result.Ok? ==> o.result.value == |o.data| && o.offset == offset + |o.data|
    ensures o.result.Ok? && offset < entry.size ==> o.offset <= entry.size
  {
    if offset >= entry.size || len == 0 then Outcome([], offset, c, Ok(0))
    else
      var start := LocateCluster(v, entry, offset);
      if start.Err? then Outcome([], offset, c, Err(start.error))
      else ReadLoop(v, offset, start.value, Min(len, entry.size - offset))
  }

  const CHUNK := 1024

  /** Read until a read returns nothing, CHUNK bytes at a time. A failing read adds nothing. */
  function ReadAll(v: Volume, entry: FileEntry, offset: nat, c: Cluster): Outcome
    requires v.sectorsPerCluster > 0
    decreases entry.size - offset
  {
    var o := ReadFile(v, entry, offset, c, CHUNK);
    if o.result.Err? then o.(data := [])
    else if o.result.value == 0 then o.(data := [])
    else Then(o.data, ReadAll(v, entry, o.offset, o.cluster))
  }

  // ---------------------------------------------------------------------
  // The content of a file
  // ---------------------------------------------------------------------

  /** The chain starts at the entry's cluster and covers the size. */
  predicate Covers(v: Volume, entry: FileEntry, chain: seq<Cluster>) {
    && v.sectorsPerCluster > 0
    && IsChain(v, chain)
    && (entry.size > 0 ==> chain != [] && chain[0] == entry.cluster)
    && entry.size <= |ChainData(v, chain)|
  }

  /** The concatenated clusters, cut to the size. */
  function Content(v: Volume, entry: FileEntry, chain: seq<Cluster>): (r: Bytes)
    requires Covers(v, entry, chain)
    ensures |r| == entry.size
  {
    ChainData(v, chain)[..entry.size]
  }

  lemma {:induction false} FollowChain(v: Volume, chain: seq<Cluster>, k: nat)
    requires IsChain(v, chain) && k < |chain|
    ensures Follow(v, chain[0], k) == Ok(chain[k])
    decreases k
  {
    if k > 0 {
      ChainTail(v, chain);
      FollowChain(v, chain[1..], k - 1);
    }
  }

  // ---------------------------------------------------------------------
  // Reading is slicing
  // ---------------------------------------------------------------------

  /** The outcome of reading n bytes, `at` bytes into the chain. */
  ghost predicate Slices(v: Volume, chain: seq<Cluster>, at: nat, n: nat, offset: nat, o: Outcome) {
    && v.sectorsPerCluster > 0 && IsChain(v, chain) && at + n <= |ChainData(v, chain)|
    && o.data == ChainData(v, chain)[at..at + n]
    && o.offset == offset + n
    && o.result == Ok(n)
    && (n > 0 ==> IndexOf(v, at + n - 1) < |chain| && o.cluster == chain[IndexOf(v, at + n - 1)])
  }

  lemma ReadWithinCluster(v: Volume, chain: seq<Cluster>, offset: nat, n: nat)
    requires v.sectorsPerCluster > 0 && IsChain(v, chain) && chain != []
    requires 0 < n && Within(v, offset) + n <= ClusterSize(v)
    ensures Slices(v, chain, Within(v, offset), n, offset, ReadLoop(v, offset, chain[0], n))
  {
    hide Times;
    hide IndexOf;
    hide Within;
    hide ReadCluster;
    hide ClusterData;
    hide ClusterSize;
    var at := Within(v, offset);
    ChainTail(v, chain);
    ReadClusterIsSlice(v, chain[0], at, n);
    assert ChainData(v, chain)[at..at + n] == ClusterData(v, chain[0])[at..at + n];
    TimesNext(0, ClusterSize(v));
    OffsetIs(v, at + n - 1, 0, at + n - 1);
  }

  lemma LoopStep(v: Volume, chain: seq<Cluster>, offset: nat, n: nat)
    requires v.sectorsPerCluster > 0 && IsChain(v, chain) && |chain| > 1
    requires n > ClusterSize(v) - Within(v, offset)
    ensures ClusterReadable(v, chain[0])
    ensures var chunk := ClusterSize(v) - Within(v, offset);
            ReadLoop(v, offset, chain[0], n)
            == Then(ClusterData(v, chain[0])[Within(v, offset)..], ReadLoop(v, offset + chunk, chain[1], n - chunk))
  {
    hide IndexOf;
    hide Within;
    hide ReadCluster;
    hide ClusterData;
    hide ClusterSize;
    var at := Within(v, offset);
    ChainTail(v, chain);
    ReadClusterIsSlice(v, chain[0], at, ClusterSize(v) - at);
    assert ClusterData(v, chain[0])[at..at + (ClusterSize(v) - at)] == ClusterData(v, chain[0])[at..];
    assert chain[0] != 0;
  }

  lemma JoinSlices(v: Volume, chain: seq<Cluster>, at: nat, n: nat, offset: nat, o: Outcome)
    requires v.sectorsPerCluster > 0 && IsChain(v, chain) && |chain| > 1 && IsChain(v, chain[1..])
    requires at < ClusterSize(v) && n > ClusterSize(v) - at && ClusterReadable(v, chain[0])
    requires Slices(v, chain[1..], 0, n - (ClusterSize(v) - at), offset + (ClusterSize(v) - at), o)
    ensures Slices(v, chain, at, n, offset, Then(ClusterData(v, chain[0])[at..], o))
  {
    hide Times;
    hide IndexOf;
    hide ClusterData;
    hide ClusterSize;
    hide IsChain;
    var size := ClusterSize(v);
    var m := n - (size - at);
    var first, rest := ClusterData(v, chain[0]), ChainData(v, chain[1..]);
    assert ChainData(v, chain) == first + rest;
    assert (first + rest)[at..at + n] == first[at..] + rest[0..0 + m];
    TimesNext(0, size);
    IndexShifted(v, 1, m - 1);
    assert Times(1, size) + (m - 1) == at + n - 1;
  }

  lemma ReadNothing(v: Volume, chain: seq<Cluster>, offset: nat)
    requires v.sectorsPerCluster > 0 && IsChain(v, chain) && chain != []
    requires Within(v, offset) <= |ChainData(v, chain)|
    ensures Slices(v, chain, Within(v, offset), 0, offset, ReadLoop(v, offset, chain[0], 0))
  {
    var at := Within(v, offset);
    assert ChainData(v, chain)[at..at + 0] == [];
  }

  /** Reading along a chain, starting inside its first cluster, is slicing the chain's data. */
  lemma {:induction false} ReadLoopIsSlice(v: Volume, chain: seq<Cluster>, offset: nat, n: nat)
    requires v.sectorsPerCluster > 0 && IsChain(v, chain) && chain != []
    requires Within(v, offset) + n <= |ChainData(v, chain)|
    ensures Slices(v, chain, Within(v, offset), n, offset, ReadLoop(v, offset, chain[0], n))
    decreases n
  {
    hide ClusterSize;
    hide Within;
    hide IndexOf;
    hide Times;
    hide ReadLoop;
    hide Slices;
    var size, at := ClusterSize(v), Within(v, offset);
    if n == 0 {
      ReadNothing(v, chain, offset);
    } else if at + n <= size {
      ReadWithinCluster(v, chain, offset, n);
    } else {
      ChainTail(v, chain);
      assert chain[1..] != [] by {
        ChainDataSize(v, chain[1..]);
        TimesNext(0, size);
      }
      NextBoundary(v, offset);
      ReadLoopIsSlice(v, chain[1..], offset + (size - at), n - (size - at));
      LoopStep(v, chain, offset, n);
      JoinSlices(v, chain, at, n, offset, ReadLoop(v, offset + (size - at), chain[1], n - (size - at)));
    }
  }

  // ---------------------------------------------------------------------
  // A whole read
  // ---------------------------------------------------------------------

  function Expected(entry: FileEntry, offset: nat, len: nat): nat {
    if offset >= entry.size then 0 else Min(len, entry.size - offset)
  }

  lemma LocateInChain(v: Volume, entry: FileEntry, chain: seq<Cluster>, offset: nat)
    requires Covers(v, entry, chain) && offset < entry.size
    ensures IndexOf(v, offset) < |chain|
    ensures LocateCluster(v, entry, offset) == Ok(chain[IndexOf(v, offset)])
  {
    hide ClusterSize;
    hide Times;
    hide IndexOf;
    hide Within;
    var k := IndexOf(v, offset);
    ChainDataSize(v, chain);
    OffsetSplit(v, offset);
    if k > |chain| {
      TimesGap(|chain|, k, ClusterSize(v));
    }
    FollowChain(v, chain, k);
  }

  /** On a chain that covers the file, a read returns exactly the next bytes of the content, as
      many as asked for and present, and the offset advances by as many. After a read that returns
      something, the current cluster is the one of the last byte read. */
  lemma ReadIsSlice(v: Volume, entry: FileEntry, chain: seq<Cluster>, offset: nat, c: Cluster, len: nat)
    requires Covers(v, entry, chain)
    ensures var o := ReadFile(v, entry, offset, c, len); var n := Expected(entry, offset, len);
            && o.result == Ok(n)
            && o.offset == offset + n
            && (n == 0 ==> o.data == [] && o.cluster == c)
            && (n > 0 ==> o.data == Content(v, entry, chain)[offset..offset + n])
            && (n > 0 ==> IndexOf(v, o.offset - 1) < |chain| && o.cluster == chain[IndexOf(v, o.offset - 1)])
  {
    hide ClusterSize;
    hide ReadLoop;
    hide Times;
    hide IndexOf;
    hide Within;
    hide LocateCluster;
    hide IsChain;
    hide ChainData;
    var n := Expected(entry, offset, len);
    if n > 0 {
      var k, at := IndexOf(v, offset), Within(v, offset);
      LocateInChain(v, entry, chain, offset);
      ChainDrop(v, chain, k);
      OffsetSplit(v, offset);
      var data, rest := ChainData(v, chain), ChainData(v, chain[k..]);
      ReadLoopIsSlice(v, chain[k..], offset, n);
      SliceOfDrop(data, Times(k, ClusterSize(v)), at, n);
      assert Content(v, entry, chain)[offset..offset + n] == data[offset..offset + n];
      IndexShifted(v, k, at + n - 1);
    }
  }

  /** b is the byte of a file at x that the device holds: in the sector of the cluster's that x falls
      into, counted from the boot parameters. */
  ghost predicate OnDisk(v: Volume, chain: seq<Cluster>, x: nat, b: Byte) {
    v.sectorsPerCluster > 0 &&
    var size := v.sectorsPerCluster * 512;
    x / size < |chain| && chain[x / size] >= 2 &&
    var sector := v.reserved + v.fatCount * v.sectorsPerFat + (v.rootEntries * 32 + 511) / 512
                  + (chain[x / size] - 2) * v.sectorsPerCluster + x % size / 512;
    sector in v.disk && v.disk[sector][x % size % 512] == b
  }

  lemma ChainByteOnDisk(v: Volume, chain: seq<Cluster>, x: nat)
    requires v.sectorsPerCluster > 0 && IsChain(v, chain) && x < |ChainData(v, chain)|
    ensures OnDisk(v, chain, x, ChainData(v, chain)[x])
  {
    hide Volume.ClusterToSector;
    ChainByte(v, chain, x);
    var k, w := IndexOf(v, x), Within(v, x);
    SectorDataAt(v, v.ClusterToSector(chain[k]), v.sectorsPerCluster, w);
    Layout(v, chain[k]);
  }

  lemma ChainByte(v: Volume, chain: seq<Cluster>, x: nat)
    requires v.sectorsPerCluster > 0 && IsChain(v, chain) && x < |ChainData(v, chain)|
    ensures IndexOf(v, x) < |chain| && ClusterReadable(v, chain[IndexOf(v, x)])
    ensures ChainData(v, chain)[x] == ClusterData(v, chain[IndexOf(v, x)])[Within(v, x)]
  {
    hide Times;
    hide IndexOf;
    hide Within;
    hide ClusterSize;
    hide ClusterData;
    hide ClusterReadable;
    hide ChainData;
    hide IsChain;
    var k, w := IndexOf(v, x), Within(v, x);
    ChainIndex(v, chain, x);
    ChainDrop(v, chain, k);
    OffsetSplit(v, x);
    var rest := chain[k..];
    assert ChainData(v, chain)[Times(k, ClusterSize(v))..][w] == ChainData(v, chain)[x];
    FirstThenRest(v, rest);
  }

  lemma ChainIndex(v: Volume, chain: seq<Cluster>, x: nat)
    requires v.sectorsPerCluster > 0 && IsChain(v, chain) && x < |ChainData(v, chain)|
    ensures IndexOf(v, x) < |chain|
  {
    hide Times;
    hide IndexOf;
    ChainDataSize(v, chain);
    OffsetSplit(v, x);
    if IndexOf(v, x) > |chain| {
      TimesGap(|chain|, IndexOf(v, x), ClusterSize(v));
    }
  }

  /** What a read returns are the bytes that the device holds for the file. */
  lemma ReadIsOnDisk(v: Volume, entry: FileEntry, chain: seq<Cluster>, offset: nat, c: Cluster, len: nat)
    requires Covers(v, entry, chain)
    ensures var o := ReadFile(v, entry, offset, c, len);
            && o.result == Ok(|o.data|)
            && |o.data| == (if offset >= entry.size then 0
                            else if len <= entry.size - offset then len else entry.size - offset)
            && forall i :: 0 <= i < |o.data| ==> OnDisk(v, chain, offset + i, o.data[i])
  {
    hide OnDisk;
    hide ReadFile;
    ReadIsSlice(v, entry, chain, offset, c, len);
    var o := ReadFile(v, entry, offset, c, len);
    forall i | 0 <= i < |o.data| ensures OnDisk(v, chain, offset + i, o.data[i]) {
      assert o.data[i] == Content(v, entry, chain)[offset + i] == ChainData(v, chain)[offset + i];
      ChainByteOnDisk(v, chain, offset + i);
    }
  }

  /** If the device cannot read the sector of the next byte, the read fails and the offset stays. */
  lemma DeviceFails(v: Volume, entry: FileEntry, offset: nat, c: Cluster, len: nat)
    requires v.sectorsPerCluster > 0
    requires offset < entry.size && len > 0 && LocateCluster(v, entry, offset).Ok?
    requires var at := LocateCluster(v, entry, offset).value;
             v.ClusterToSector(at) + Within(v, offset) / SECTOR !in v.disk
    ensures ReadFile(v, entry, offset, c, len)
         == Outcome([], offset, LocateCluster(v, entry, offset).value, Err(Device))
  {
  }

  // ---------------------------------------------------------------------
  // Chains that are too short
  // ---------------------------------------------------------------------

  /** The FAT says that the chain ends. */
  predicate Stops(v: Volume, chain: seq<Cluster>) {
    chain != [] && IsChain(v, chain) && v.NextCluster(chain[|chain| - 1]) == Ok(None)
  }

  lemma {:induction false} FollowPastEnd(v: Volume, chain: seq<Cluster>, k: nat)
    requires Stops(v, chain) && k >= |chain|
    ensures Follow(v, chain[0], k) == Err(InvalidOperation)
    decreases k
  {
    ChainTail(v, chain);
    if |chain| > 1 {
      assert chain[1..][|chain| - 2] == chain[|chain| - 1];
      FollowPastEnd(v, chain[1..], k - 1);
    }
  }

  /** A read from behind the end of the chain fails and changes nothing. */
  lemma ReadBehindChain(v: Volume, entry: FileEntry, chain: seq<Cluster>, offset: nat, c: Cluster, len: nat)
    requires v.sectorsPerCluster > 0 && Stops(v, chain) && chain[0] == entry.cluster
    requires offset < entry.size && len > 0 && offset >= |ChainData(v, chain)|
    ensures ReadFile(v, entry, offset, c, len) == Outcome([], offset, c, Err(InvalidOperation))
  {
    hide Times;
    hide IndexOf;
    hide Within;
    hide ClusterSize;
    ChainDataSize(v, chain);
    OffsetSplit(v, offset);
    if IndexOf(v, offset) < |chain| {
      TimesGap(IndexOf(v, offset), |chain|, ClusterSize(v));
    }
    FollowPastEnd(v, chain, IndexOf(v, offset));
  }

  /** Reading along a chain that ends too early returns what there is. */
  lemma {:induction false} ReadLoopToEnd(v: Volume, chain: seq<Cluster>, offset: nat, n: nat)
    requires v.sectorsPerCluster > 0 && Stops(v, chain)
    requires Within(v, offset) + n > |ChainData(v, chain)|
    ensures Within(v, offset) <= |ChainData(v, chain)|
    ensures var o, rest := ReadLoop(v, offset, chain[0], n), ChainData(v, chain)[Within(v, offset)..];
            o.data == rest && o.result == Ok(|rest|) && o.offset == offset + |rest|
    decreases |chain|
  {
    hide ClusterSize;
    hide Within;
    hide IndexOf;
    hide Times;
    hide ReadLoop;
    var size, at := ClusterSize(v), Within(v, offset);
    ChainTail(v, chain);
    FirstThenRest(v, chain);
    if |chain| == 1 {
      LastRound(v, chain[0], offset, n);
      assert chain[1..] == [];
      assert ChainData(v, chain) == ClusterData(v, chain[0]);
    } else {
      assert chain[1..][|chain| - 2] == chain[|chain| - 1];
      NextBoundary(v, offset);
      ReadLoopToEnd(v, chain[1..], offset + (size - at), n - (size - at));
      LoopStep(v, chain, offset, n);
      assert ChainData(v, chain)[at..] == ClusterData(v, chain[0])[at..] + ChainData(v, chain[1..]);
    }
  }

  lemma LastRound(v: Volume, c: Cluster, offset: nat, n: nat)
    requires v.sectorsPerCluster > 0 && ClusterReadable(v, c) && v.NextCluster(c) == Ok(None)
    requires Within(v, offset) + n > ClusterSize(v)
    ensures var o, rest := ReadLoop(v, offset, c, n), ClusterData(v, c)[Within(v, offset)..];
            o.data == rest && o.result == Ok(|rest|) && o.offset == offset + |rest|
  {
    hide IndexOf;
    hide Within;
    hide ReadCluster;
    hide ClusterData;
    hide ClusterSize;
    var at := Within(v, offset);
    ReadClusterIsSlice(v, c, at, ClusterSize(v) - at);
    assert ClusterData(v, c)[at..at + (ClusterSize(v) - at)] == ClusterData(v, c)[at..];
  }

  /** A read from inside a chain that ends before the read would returns the rest of the chain. */
  lemma ReadShort(v: Volume, entry: FileEntry, chain: seq<Cluster>, offset: nat, c: Cluster, len: nat)
    requires v.sectorsPerCluster > 0 && Stops(v, chain) && chain[0] == entry.cluster
    requires offset < |ChainData(v, chain)| < offset + len && |ChainData(v, chain)| < entry.size
    ensures var o, rest := ReadFile(v, entry, offset, c, len), ChainData(v, chain)[offset..];
            o.data == rest && o.result == Ok(|rest|) && o.offset == |ChainData(v, chain)|
  {
    hide ClusterSize;
    hide ReadLoop;
    hide Times;
    hide IndexOf;
    hide Within;
    hide IsChain;
    hide ChainData;
    var k, at, n := IndexOf(v, offset), Within(v, offset), Min(len, entry.size - offset);
    ChainIndex(v, chain, offset);
    FollowChain(v, chain, k);
    ChainDrop(v, chain, k);
    OffsetSplit(v, offset);
    assert chain[k..][|chain| - k - 1] == chain[|chain| - 1];
    ReadLoopToEnd(v, chain[k..], offset, n);
    DropTwice(ChainData(v, chain), Times(k, ClusterSize(v)), at);
  }

  lemma DropTwice<T>(s: seq<T>, a: nat, b: nat)
    requires a + b <= |s|
    ensures s[a..][b..] == s[a + b..]
  {
  }

  /** A read that returns something gets closer to the end of the file. */
  lemma ReadProgress(v: Volume, entry: FileEntry, offset: nat, c: Cluster)
    requires v.sectorsPerCluster > 0
    ensures var o := ReadFile(v, entry, offset, c, CHUNK);
            o.result.Ok? && o.result.value > 0 ==> 0 <= entry.size - o.offset < entry.size - offset
  {
  }

  /** Reading a whole file ends; on a chain that covers it, it adds exactly the rest of the content. */
  lemma {:induction false} ReadAllIsRest(v: Volume, entry: FileEntry, chain: seq<Cluster>, offset: nat, c: Cluster)
    requires Covers(v, entry, chain) && offset <= entry.size
    ensures var o := ReadAll(v, entry, offset, c);
            && o.data == Content(v, entry, chain)[offset..]
            && o.result == Ok(entry.size - offset) && o.offset == entry.size
    decreases entry.size - offset
  {
    hide ReadFile;
    hide Content;
    hide IsChain;
    hide ChainData;
    hide IndexOf;
    var content := Content(v, entry, chain);
    ReadIsSlice(v, entry, chain, offset, c, CHUNK);
    var o := ReadFile(v, entry, offset, c, CHUNK);
    if o.result.value > 0 {
      ReadAllIsRest(v, entry, chain, o.offset, o.cluster);
      SliceThenRest(content, offset, o.offset);
    } else {
      assert content[offset..] == [];
    }
  }

  // ---------------------------------------------------------------------
  // The file handle
  // ---------------------------------------------------------------------

  /** A buffer in which d has been written from lo on. */
  function Overwrite(buf: Bytes, lo: nat, d: Bytes): (r: Bytes)
    requires lo + |d| <= |buf|
    ensures |r| == |buf|
  {
    buf[..lo] + d + buf[lo + |d|..]
  }

  lemma OverwriteTwice(buf: Bytes, lo: nat, d: Bytes, e: Bytes)
    requires lo + |d| + |e| <= |buf|
    ensures Overwrite(Overwrite(buf, lo, d), lo + |d|, e) == Overwrite(buf, lo, d + e)
  {
  }

  lemma OverwriteNothing(buf: Bytes, lo: nat)
    requires lo <= |buf|
    ensures Overwrite(buf, lo, []) == buf
  {
  }

  lemma OverwrittenFront(buf: Bytes, d: Bytes)
    requires |d| <= |buf|
    ensures Overwrite(buf, 0, d)[..|d|] == d
  {
  }

  lemma AllStep(v: Volume, entry: FileEntry, offset: nat, c: Cluster)
    requires v.sectorsPerCluster > 0
    ensures var o := ReadFile(v, entry, offset, c, CHUNK);
            ReadAll(v, entry, offset, c)
            == if o.result.Err? || o.result.value == 0 then o.(data := [])
               else Then(o.data, ReadAll(v, entry, o.offset, o.cluster))
  {
  }

  function Prefixed(d: Bytes, r: (Bytes, Option<FsError>)): (Bytes, Option<FsError>) {
    (d + r.0, r.1)
  }

  lemma PrefixedTwice(d: Bytes, e: Bytes, r: (Bytes, Option<FsError>))
    ensures Prefixed(d, Prefixed(e, r)) == Prefixed(d + e, r)
    ensures Prefixed([], r) == r
  {
    assert d + (e + r.0) == (d + e) + r.0;
    assert [] + r.0 == r.0;
  }

  lemma SectorStep(v: Volume, first: nat, left: nat, skip: nat, n: nat)
    requires skip < SECTOR && left > 0 && n > 0
    ensures var block, now := v.ReadBlock(first), Min(n, SECTOR - skip);
            ReadSectors(v, first, left, skip, n) ==
            if block.Err? then ([], Some(block.error))
            else Prefixed(block.value[skip..skip + now], ReadSectors(v, first + 1, left - 1, 0, n - now))
  {
  }

  lemma SectorEnd(v: Volume, first: nat, left: nat, skip: nat, n: nat)
    requires skip < SECTOR && (left == 0 || n == 0)
    ensures ReadSectors(v, first, left, skip, n) == ([], None)
  {
  }

  lemma ThenTwice(d: Bytes, e: Bytes, o: Outcome)
    ensures Then(d, Then(e, o)) == Then(d + e, o)
    ensures Then([], o) == o
  {
    assert d + (e + o.data) == (d + e) + o.data;
    assert [] + o.data == o.data;
  }

  class File {
    const volume: Volume
    const entry: FileEntry
    var offset: nat
    var currentCluster: Cluster

    constructor (volume: Volume, entry: FileEntry)
      ensures this.volume == volume && this.entry == entry
      ensures offset == 0 && currentCluster == entry.cluster
    {
      this.volume := volume;
      this.entry := entry;
      offset := 0;
      currentCluster := entry.cluster;
    }

    /** Walk the chain from the start to the cluster of the offset. */
    method EnsureCorrectCluster() returns (r: Result<(), FsError>)
      requires volume.sectorsPerCluster > 0
      modifies this`currentCluster
      ensures var c := LocateCluster(volume, entry, offset);
              && (c.Ok? ==> r == Ok(()) && currentCluster == c.value)
              && (c.Err? ==> r == Err(c.error) && currentCluster == old(currentCluster))
    {
      var target := IndexOf(volume, offset);
      if target == 0 {
        currentCluster := entry.cluster;
        return Ok(());
      }
      var c := entry.cluster;
      var i := 0;
      while i < target
        invariant 0 <= i <= target
        invariant Follow(volume, c, target - i) == LocateCluster(volume, entry, offset)
        invariant currentCluster == old(currentCluster)
      {
        if c == 0 {
          return Err(InvalidOperation);
        }
        var next := volume.NextCluster(c);
        if next.Err? {
          return Err(next.error);
        }
        if next.value.None? {
          return Err(InvalidOperation);
        }
        c := next.value.value;
        i := i + 1;
      }
      currentCluster := c;
      return Ok(());
    }

    /** False: the chain ends here. */
    method MoveToNextCluster() returns (r: Result<bool, FsError>)
      modifies this`currentCluster
      ensures var next := volume.NextCluster(old(currentCluster));
              if old(currentCluster) == 0 then r == Ok(false) && currentCluster == old(currentCluster)
              else if next.Err? then r == Err(next.error) && currentCluster == old(currentCluster)
              else if next.value.None? then r == Ok(false) && currentCluster == old(currentCluster)
              else r == Ok(true) && currentCluster == next.value.value
    {
      if currentCluster == 0 {
        return Ok(false);
      }
      var next := volume.NextCluster(currentCluster);
      if next.Err? {
        return Err(next.error);
      }
      if next.value.None? {
        return Ok(false);
      }
      currentCluster := next.value.value;
      return Ok(true);
    }

    /** Read n bytes of the current cluster into buf[lo..]. */
    method ReadFromCurrentCluster(offsetInCluster: nat, buf: array<Byte>, lo: nat, n: nat)
      returns (r: Result<nat, FsError>)
      requires offsetInCluster < ClusterSize(volume) && lo + n <= buf.Length
      modifies buf
      ensures var (d, e) := ReadCluster(volume, currentCluster, offsetInCluster, n);
              && buf[..] == Overwrite(old(buf[..]), lo, d)
              && r == if e.Some? then Err(e.value) else Ok(|d|)
    {
      hide ReadSectors;
      hide Overwrite;
      var start := volume.ClusterToSector(currentCluster);
      var firstIndex, skip := offsetInCluster / SECTOR, offsetInCluster % SECTOR;
      var bytesRead, index := 0, firstIndex;
      ghost var d: Bytes := [];
      ghost var was := buf[..];
      OverwriteNothing(was, lo);
      PrefixedTwice([], [], ReadCluster(volume, currentCluster, offsetInCluster, n));
      while bytesRead < n && index < volume.sectorsPerCluster
        invariant firstIndex <= index <= volume.sectorsPerCluster && |d| == bytesRead <= n
        invariant buf[..] == Overwrite(was, lo, d)
        invariant Prefixed(d, ReadSectors(volume, start + index, volume.sectorsPerCluster - index,
                                          if index == firstIndex then skip else 0, n - bytesRead))
               == ReadCluster(volume, currentCluster, offsetInCluster, n)
        decreases volume.sectorsPerCluster - index
      {
        SectorStep(volume, start + index, volume.sectorsPerCluster - index,
                   if index == firstIndex then skip else 0, n - bytesRead);
        var block := volume.ReadBlock(start + index);
        if block.Err? {
          assert d + [] == d;
          return Err(block.error);
        }
        var startInSector := if index == firstIndex then skip else 0;
        var now := Min(n - bytesRead, SECTOR - startInSector);
        ghost var piece := block.value[startInSector..startInSector + now];
        CopyFromSlice(buf, lo + bytesRead, block.value, startInSector, now);
        OverwriteTwice(was, lo, d, piece);
        PrefixedTwice(d, piece, ReadSectors(volume, start + index + 1, volume.sectorsPerCluster - index - 1, 0,
                                            n - bytesRead - now));
        d := d + piece;
        bytesRead := bytesRead + now;
        index := index + 1;
      }
      SectorEnd(volume, start + index, volume.sectorsPerCluster - index,
                if index == firstIndex then skip else 0, n - bytesRead);
      assert d + [] == d;
      return Ok(bytesRead);
    }

    /** One round of the read loop, into buf[lo..]. */
    method ReadChunk(buf: array<Byte>, lo: nat, n: nat) returns (got: nat, more: Result<bool, FsError>)
      requires volume.sectorsPerCluster > 0 && 0 < n && lo + n <= buf.Length
      modifies this`offset, this`currentCluster, buf
      ensures var round := ReadRound(volume, old(offset), old(currentCluster), n);
              && buf[..] == Overwrite(old(buf[..]), lo, round.data)
              && offset == round.offset && currentCluster == round.cluster && more == round.more
              && (more.Ok? ==> got == |round.data|)
    {
      hide ReadCluster;
      hide Overwrite;
      hide ClusterSize;
      var offsetInCluster := Within(volume, offset);
      var chunk := Min(n, ClusterSize(volume) - offsetInCluster);
      NextBoundary(volume, offset);
      var r := ReadFromCurrentCluster(offsetInCluster, buf, lo, chunk);
      if r.Err? {
        return 0, Err(r.error);
      }
      got := r.value;
      offset := offset + got;
      if got < chunk {
        return got, Ok(false);
      }
      if got < n && Within(volume, offset) == 0 {
        more := MoveToNextCluster();
      } else {
        more := Ok(false);
      }
    }

    method Read(buf: array<Byte>) returns (r: Result<nat, FsError>)
      requires volume.sectorsPerCluster > 0
      modifies this`offset, this`currentCluster, buf
      ensures var o := ReadFile(volume, entry, old(offset), old(currentCluster), buf.Length);
              && buf[..] == Overwrite(old(buf[..]), 0, o.data)
              && r == o.result && offset == o.offset && currentCluster == o.cluster
    {
      OverwriteNothing(buf[..], 0);
      if offset >= entry.size {
        return Ok(0);
      }
      var toRead := Min(buf.Length, entry.size - offset);
      if toRead == 0 {
        return Ok(0);
      }
      var located := EnsureCorrectCluster();
      if located.Err? {
        return Err(located.error);
      }
      r := ReadRounds(buf, toRead);
    }

    /** Append everything up to the end of the file to a vector. */
    method ReadToEnd(vec: Bytes) returns (grown: Bytes, r: Result<nat, FsError>)
      requires volume.sectorsPerCluster > 0
      modifies this`offset, this`currentCluster
      ensures var o := ReadAll(volume, entry, old(offset), old(currentCluster));
              && grown == vec + o.data && r == o.result && offset == o.offset && currentCluster == o.cluster
    {
      hide ReadFile;
      hide Overwrite;
      hide ReadAll;
      ghost var d: Bytes := [];
      ghost var start, first := offset, currentCluster;
      grown := vec;
      ThenTwice([], [], ReadAll(volume, entry, start, first));
      assert vec + [] == vec;
      var total := 0;
      while true
        invariant total == |d| && grown == vec + d
        invariant Then(d, ReadAll(volume, entry, offset, currentCluster)) == ReadAll(volume, entry, start, first)
        decreases entry.size - offset
      {
        ghost var o := ReadFile(volume, entry, offset, currentCluster, CHUNK);
        ReadProgress(volume, entry, offset, currentCluster);
        AllStep(volume, entry, offset, currentCluster);
        var temp := new Byte[CHUNK];
        ghost var zeros := temp[..];
        var got := Read(temp);
        OverwrittenFront(zeros, o.data);
        assert d + [] == d;
        if got.Err? {
          return grown, Err(got.error);
        }
        if got.value == 0 {
          break;
        }
        assert temp[..got.value] == temp[..][..got.value];
        ThenTwice(d, o.data, ReadAll(volume, entry, offset, currentCluster));
        assert vec + d + o.data == vec + (d + o.data);
        grown := grown + temp[..got.value];
        total := total + got.value;
        d := d + o.data;
      }
      return grown, Ok(total);
    }

    /** The read loop. */
    method ReadRounds(buf: array<Byte>, toRead: nat) returns (r: Result<nat, FsError>)
      requires volume.sectorsPerCluster > 0 && toRead <= buf.Length
      modifies this`offset, this`currentCluster, buf
      ensures var o := ReadLoop(volume, old(offset), old(currentCluster), toRead);
              && buf[..] == Overwrite(old(buf[..]), 0, o.data)
              && r == o.result && offset == o.offset && currentCluster == o.cluster
    {
      hide ReadRound;
      hide Overwrite;
      hide Pending;
      hide Then;
      ghost var was, start, first := buf[..], offset, currentCluster;
      ghost var d: Bytes := [];
      PendingEnds(volume, d, start, first, toRead);
      OverwriteNothing(was, 0);
      var bytesRead, more := 0, Ok(true);
      while more == Ok(true) && bytesRead < toRead
        invariant |d| == bytesRead <= toRead
        invariant buf[..] == Overwrite(was, 0, d)
        invariant more.Ok?
        invariant Pending(volume, more.value, d, offset, currentCluster, toRead - bytesRead)
               == ReadLoop(volume, start, first, toRead)
        decreases toRead - bytesRead, more.Ok? && more.value
      {
        ghost var round := ReadRound(volume, offset, currentCluster, toRead - bytesRead);
        PendingStep(volume, d, offset, currentCluster, toRead - bytesRead);
        OverwriteTwice(was, 0, d, round.data);
        var got;
        got, more := ReadChunk(buf, bytesRead, toRead - bytesRead);
        d := d + round.data;
        if more.Err? {
          return Err(more.error);
        }
        bytesRead := bytesRead + got;
      }
      PendingEnds(volume, d, offset, currentCluster, toRead - bytesRead);
      return Ok(bytesRead);
    }
  }

  /** How a read ends that has got d so far: at once, or by reading the n bytes that are left. */
  function Pending(v: Volume, more: bool, d: Bytes, offset: nat, c: Cluster, n: nat): Outcome
    requires v.sectorsPerCluster > 0
  {
    if more then Then(d, ReadLoop(v, offset, c, n)) else Outcome(d, offset, c, Ok(|d|))
  }

  lemma PendingEnds(v: Volume, d: Bytes, offset: nat, c: Cluster, n: nat)
    requires v.sectorsPerCluster > 0
    ensures d == [] ==> Pending(v, true, d, offset, c, n) == ReadLoop(v, offset, c, n)
    ensures Pending(v, true, d, offset, c, 0) == Outcome(d, offset, c, Ok(|d|))
    ensures Pending(v, false, d, offset, c, n) == Outcome(d, offset, c, Ok(|d|))
  {
    ThenTwice([], [], ReadLoop(v, offset, c, n));
    assert d + [] == d;
  }

  function PendingAfter(v: Volume, d: Bytes, r: Round, n: nat): Outcome
    requires v.sectorsPerCluster > 0 && |r.data| <= n
  {
    if r.more.Ok? then Pending(v, r.more.value, d + r.data, r.offset, r.cluster, n - |r.data|)
    else Outcome(d + r.data, r.offset, r.cluster, Err(r.more.error))
  }

  lemma LoopUnrolled(v: Volume, offset: nat, c: Cluster, n: nat)
    requires v.sectorsPerCluster > 0 && n > 0
    ensures var r := ReadRound(v, offset, c, n);
            ReadLoop(v, offset, c, n)
            == if r.more.Err? then Outcome(r.data, r.offset, r.cluster, Err(r.more.error))
               else if !r.more.value then Outcome(r.data, r.offset, r.cluster, Ok(|r.data|))
               else Then(r.data, ReadLoop(v, r.offset, r.cluster, n - |r.data|))
  {
    hide ReadRound;
  }

  lemma PendingStep(v: Volume, d: Bytes, offset: nat, c: Cluster, n: nat)
    requires v.sectorsPerCluster > 0 && n > 0
    ensures Pending(v, true, d, offset, c, n) == PendingAfter(v, d, ReadRound(v, offset, c, n), n)
  {
    hide ReadRound;
    hide ReadLoop;
    LoopUnrolled(v, offset, c, n);
    var r := ReadRound(v, offset, c, n);
    if r.more == Ok(true) {
      ThenTwice(d, r.data, ReadLoop(v, r.offset, r.cluster, n - |r.data|));
    }
  }

  method CopyFromSlice(buf: array<Byte>, lo: nat, src: Bytes, from: nat, n: nat)
    requires lo + n <= buf.Length && from + n <= |src|
    modifies buf
    ensures buf[..] == Overwrite(old(buf[..]), lo, src[from..from + n])
  {
    forall i | 0 <= i < n {
      buf[lo + i] := src[from + i];
    }
  }
}
