/** A FAT16 volume on a block device: layout, cluster chains, and the bytes of a cluster. */
module FatVolume {
  import opened Common

  /** Bytes per sector, and per block of the device. */
  const SECTOR := 512

  type Byte = b: int | 0 <= b < 256 witness 0

  type Bytes = seq<Byte>

  type Block = b: Bytes | |b| == SECTOR witness seq(SECTOR, _ => 0)

  function Times(n: nat, size: nat): nat {
    n * size
  }

  lemma TimesNext(n: nat, size: nat)
    ensures Times(0, size) == 0 && Times(n + 1, size) == size + Times(n, size)
  {
  }

  lemma {:induction false} TimesGap(a: nat, b: nat, size: nat)
    requires a < b
    ensures Times(a, size) + size <= Times(b, size)
    decreases b
  {
    hide Times;
    TimesNext(b - 1, size);
    if a < b - 1 {
      TimesGap(a, b - 1, size);
    }
  }

  /** A cluster number, 32 bits wide. */
  type Cluster = c: int | 0 <= c < 0x1_0000_0000 witness 0

  const ROOT_DIR: Cluster := 0xFFFF_FFFC

  datatype NameError = InvalidCharacter | FilenameEmpty | NameTooLong | MisplacedPeriod

  datatype FsError = Device | InvalidOperation | NotADirectory | Name(error: NameError)

  /** The boot parameter block, and the sectors that the device can read. */
  datatype Volume = Volume(
    reserved: nat, fatCount: nat, sectorsPerFat: nat, rootEntries: nat, sectorsPerCluster: nat,
    disk: map<nat, Block>)
  {
    function FirstRootSector(): nat {
      reserved + Times(fatCount, sectorsPerFat)
    }

    function RootSectors(): nat {
      (rootEntries * 32 + (SECTOR - 1)) / SECTOR
    }

    function FirstDataSector(): nat {
      FirstRootSector() + RootSectors()
    }

    function ReadBlock(sector: nat): Result<Block, FsError> {
      if sector in disk then Ok(disk[sector]) else Err(Device)
    }

    function ClusterToSector(c: Cluster): nat {
      if c == ROOT_DIR then FirstRootSector()
      else if c < 2 then FirstDataSector()
      else Times(c - 2, sectorsPerCluster) + FirstDataSector()
    }

    /** The FAT entry of a cluster: the next one, or None for a free entry or the end of the chain. */
    function NextCluster(c: Cluster): Result<Option<Cluster>, FsError> {
      var at := (c % 0x1_0000) * 2;
      var block := ReadBlock(reserved + at / SECTOR);
      if block.Err? then Err(block.error)
      else
        var lo: int, hi: int := block.value[at % SECTOR], block.value[at % SECTOR + 1];
        var entry := lo + 256 * hi;
        if entry == 0 || 0xFFF8 <= entry <= 0xFFFF then Ok(None) else Ok(Some(entry))
    }
  }

  // ---------------------------------------------------------------------
  // Layout
  // ---------------------------------------------------------------------

  /** Where the boot parameters put things: behind the reserved sectors and the FATs the root directory,
      behind that the data clusters, one after the other, from number 2 on. */
  lemma Layout(v: Volume, c: Cluster)
    ensures var root := v.reserved + v.fatCount * v.sectorsPerFat;
            var data := root + (v.rootEntries * 32 + 511) / 512;
            && v.FirstRootSector() == v.ClusterToSector(0xFFFF_FFFC) == root
            && v.RootSectors() == (v.rootEntries * 32 + 511) / 512
            && v.ClusterToSector(2) == data
            && (c < 2 ==> v.ClusterToSector(c) == data)
            && (2 <= c < 0xFFFF_FFFB ==> v.ClusterToSector(c + 1) == v.ClusterToSector(c) + v.sectorsPerCluster)
            && (2 <= c < 0xFFFF_FFFC ==> v.ClusterToSector(c) == data + (c - 2) * v.sectorsPerCluster)
  {
    assert Times(0, v.sectorsPerCluster) == 0;
    if c >= 2 {
      TimesNext(c - 2, v.sectorsPerCluster);
    }
  }

  /** The sectors of a data cluster. */
  predicate InCluster(v: Volume, c: Cluster, sector: nat) {
    v.ClusterToSector(c) <= sector < v.ClusterToSector(c) + v.sectorsPerCluster
  }

  /** Data clusters lie behind the FATs and the root directory, and no two share a sector. */
  lemma ClustersApart(v: Volume, c: Cluster, d: Cluster, sector: nat)
    requires 2 <= c < ROOT_DIR && 2 <= d < ROOT_DIR && InCluster(v, c, sector)
    ensures sector >= v.FirstRootSector() + v.RootSectors()
    ensures InCluster(v, d, sector) ==> c == d
  {
    hide Times;
    if c < d {
      TimesGap(c - 2, d - 2, v.sectorsPerCluster);
    } else if d < c {
      TimesGap(d - 2, c - 2, v.sectorsPerCluster);
    }
  }

  // ---------------------------------------------------------------------
  // Sectors
  // ---------------------------------------------------------------------

  /** All n sectors from `first` on can be read. */
  predicate Readable(v: Volume, first: nat, n: nat) {
    forall i :: first <= i < first + n ==> i in v.disk
  }

  function SectorData(v: Volume, first: nat, n: nat): (r: Bytes)
    requires Readable(v, first, n)
    ensures |r| == n * SECTOR
    decreases n
  {
    if n == 0 then [] else v.disk[first] + SectorData(v, first + 1, n - 1)
  }

  /** Read n bytes from the sectors first .. first + left, the first `skip` bytes left out. What
      has been read when the device fails stays in the buffer. */
  function ReadSectors(v: Volume, first: nat, left: nat, skip: nat, n: nat): (r: (Bytes, Option<FsError>))
    requires skip < SECTOR
    ensures |r.0| <= n
    decreases left
  {
    if n == 0 || left == 0 then ([], None)
    else
      var block := v.ReadBlock(first);
      if block.Err? then ([], Some(block.error))
      else
        var now := Min(n, SECTOR - skip);
        var (rest, e) := ReadSectors(v, first + 1, left - 1, 0, n - now);
        (block.value[skip..skip + now] + rest, e)
  }

  /** Reading sector by sector is slicing the concatenated sectors. */
  lemma {:induction false} ReadSectorsIsSlice(v: Volume, first: nat, left: nat, skip: nat, n: nat)
    requires skip < SECTOR && Readable(v, first, left) && skip + n <= left * SECTOR
    ensures ReadSectors(v, first, left, skip, n) == (SectorData(v, first, left)[skip..skip + n], None)
    decreases left
  {
    var data := SectorData(v, first, left);
    if n > 0 {
      var now := Min(n, SECTOR - skip);
      var tail := SectorData(v, first + 1, left - 1);
      ReadSectorsIsSlice(v, first + 1, left - 1, 0, n - now);
      assert data[skip..skip + n] == v.disk[first][skip..skip + now] + tail[0..n - now];
    } else {
      assert data[skip..skip + n] == [];
    }
  }

  lemma {:induction false} SectorDataDrop(v: Volume, first: nat, n: nat, k: nat)
    requires Readable(v, first, n) && k <= n
    ensures SectorData(v, first, n)[k * SECTOR..] == SectorData(v, first + k, n - k)
    decreases k
  {
    if k > 0 {
      SectorDataDrop(v, first + 1, n - 1, k - 1);
      assert SectorData(v, first, n)[k * SECTOR..] == SectorData(v, first + 1, n - 1)[(k - 1) * SECTOR..];
    }
  }

  /** Byte k of concatenated sectors. */
  lemma {:induction false} SectorDataAt(v: Volume, first: nat, n: nat, k: nat)
    requires Readable(v, first, n) && k < n * SECTOR
    ensures first + k / SECTOR in v.disk && SectorData(v, first, n)[k] == v.disk[first + k / SECTOR][k % SECTOR]
    decreases n
  {
    if k >= SECTOR {
      SectorDataAt(v, first + 1, n - 1, k - SECTOR);
    }
  }

  /** The FAT is a flat table of 16-bit little-endian numbers, one for each cluster; 0 and the
      numbers from 0xFFF8 on lead nowhere. */
  lemma FatIsFlat(v: Volume, c: Cluster)
    requires Readable(v, v.reserved, v.sectorsPerFat) && c < 0x1_0000 && c * 2 + 1 < v.sectorsPerFat * SECTOR
    ensures var fat := SectorData(v, v.reserved, v.sectorsPerFat);
            var entry := fat[c * 2] as int + 256 * fat[c * 2 + 1] as int;
            && (1 <= entry < 0xFFF8 ==> v.NextCluster(c) == Ok(Some(entry)))
            && (entry == 0 || 0xFFF8 <= entry ==> v.NextCluster(c) == Ok(None))
  {
    hide SectorData;
    hide Readable;
    hide Volume.NextCluster;
    EvenIsNotLast(c * 2);
    SectorDataAt(v, v.reserved, v.sectorsPerFat, c * 2);
    SectorDataAt(v, v.reserved, v.sectorsPerFat, c * 2 + 1);
    EntryInSector(v, c, v.reserved + c * 2 / SECTOR, c * 2 % SECTOR);
  }

  lemma EntryInSector(v: Volume, c: Cluster, sector: nat, at: nat)
    requires c < 0x1_0000 && sector == v.reserved + c * 2 / SECTOR && at == c * 2 % SECTOR
    requires sector in v.disk && at + 1 < SECTOR
    ensures var entry := v.disk[sector][at] as int + 256 * v.disk[sector][at + 1] as int;
            && (1 <= entry < 0xFFF8 ==> v.NextCluster(c) == Ok(Some(entry)))
            && (entry == 0 || 0xFFF8 <= entry ==> v.NextCluster(c) == Ok(None))
  {
    assert c % 0x1_0000 == c;
  }

  lemma EvenIsNotLast(k: nat)
    requires k % 2 == 0
    ensures (k + 1) / SECTOR == k / SECTOR && (k + 1) % SECTOR == k % SECTOR + 1
  {
  }

  // ---------------------------------------------------------------------
  // Clusters and chains
  // ---------------------------------------------------------------------

  function ClusterSize(v: Volume): (r: nat)
    ensures r > 0 <==> v.sectorsPerCluster > 0
  {
    v.sectorsPerCluster * SECTOR
  }

  /** Which cluster of a file an offset lies in, and where in the cluster. */
  function IndexOf(v: Volume, offset: nat): nat
    requires v.sectorsPerCluster > 0
  {
    offset / ClusterSize(v)
  }

  function Within(v: Volume, offset: nat): (r: nat)
    requires v.sectorsPerCluster > 0
    ensures r < ClusterSize(v)
  {
    offset % ClusterSize(v)
  }

  lemma DivisionIs(x: nat, q: nat, r: nat, size: nat)
    requires r < size && x == Times(q, size) + r
    ensures x / size == q && x % size == r
  {
    var k := x / size;
    assert x == Times(k, size) + x % size;
    hide Times;
    if k < q {
      TimesGap(k, q, size);
    } else if q < k {
      TimesGap(q, k, size);
    }
  }

  lemma OffsetIs(v: Volume, offset: nat, k: nat, at: nat)
    requires at < ClusterSize(v) && offset == Times(k, ClusterSize(v)) + at
    ensures v.sectorsPerCluster > 0 && IndexOf(v, offset) == k && Within(v, offset) == at
  {
    DivisionIs(offset, k, at, ClusterSize(v));
  }

  lemma OffsetSplit(v: Volume, offset: nat)
    requires v.sectorsPerCluster > 0
    ensures offset == Times(IndexOf(v, offset), ClusterSize(v)) + Within(v, offset)
  {
  }

  /** From any offset, the rest of its cluster ends where the next cluster starts. */
  lemma NextBoundary(v: Volume, offset: nat)
    requires v.sectorsPerCluster > 0
    ensures Within(v, offset + (ClusterSize(v) - Within(v, offset))) == 0
  {
    hide Times;
    OffsetSplit(v, offset);
    TimesNext(IndexOf(v, offset), ClusterSize(v));
    OffsetIs(v, offset + (ClusterSize(v) - Within(v, offset)), IndexOf(v, offset) + 1, 0);
  }

  lemma IndexShifted(v: Volume, k: nat, x: nat)
    requires v.sectorsPerCluster > 0
    ensures IndexOf(v, Times(k, ClusterSize(v)) + x) == k + IndexOf(v, x)
  {
    hide Times;
    hide IndexOf;
    hide Within;
    OffsetSplit(v, x);
    TimesSum(k, IndexOf(v, x), ClusterSize(v));
    OffsetIs(v, Times(k, ClusterSize(v)) + x, k + IndexOf(v, x), Within(v, x));
  }

  lemma {:induction false} TimesSum(a: nat, b: nat, size: nat)
    ensures Times(a + b, size) == Times(a, size) + Times(b, size)
    decreases a
  {
    hide Times;
    if a == 0 {
      TimesNext(0, size);
    } else {
      TimesSum(a - 1, b, size);
      TimesNext(a - 1, size);
      TimesNext(a - 1 + b, size);
    }
  }

  predicate ClusterReadable(v: Volume, c: Cluster) {
    2 <= c < 0x1_0000 && Readable(v, v.ClusterToSector(c), v.sectorsPerCluster)
  }

  function ClusterData(v: Volume, c: Cluster): (r: Bytes)
    requires ClusterReadable(v, c)
    ensures |r| == ClusterSize(v)
  {
    SectorData(v, v.ClusterToSector(c), v.sectorsPerCluster)
  }

  /** Read n bytes of a cluster from an offset on. */
  function ReadCluster(v: Volume, c: Cluster, offset: nat, n: nat): (r: (Bytes, Option<FsError>))
    requires offset < ClusterSize(v)
    ensures |r.0| <= n
  {
    ReadSectors(v, v.ClusterToSector(c) + offset / SECTOR, v.sectorsPerCluster - offset / SECTOR, offset % SECTOR, n)
  }

  lemma ReadClusterIsSlice(v: Volume, c: Cluster, offset: nat, n: nat)
    requires ClusterReadable(v, c) && offset < ClusterSize(v) && offset + n <= ClusterSize(v)
    ensures ReadCluster(v, c, offset, n) == (ClusterData(v, c)[offset..offset + n], None)
  {
    var first, k, skip := v.ClusterToSector(c), offset / SECTOR, offset % SECTOR;
    SectorDataDrop(v, first, v.sectorsPerCluster, k);
    ReadSectorsIsSlice(v, first + k, v.sectorsPerCluster - k, skip, n);
    assert k * SECTOR + skip == offset;
    assert ClusterData(v, c)[k * SECTOR..][skip..skip + n] == ClusterData(v, c)[offset..offset + n];
  }

  /** Each cluster can be read and the FAT leads from each to the next. */
  predicate IsChain(v: Volume, chain: seq<Cluster>) {
    && (forall i :: 0 <= i < |chain| ==> ClusterReadable(v, chain[i]))
    && (forall i :: 0 <= i < |chain| - 1 ==> v.NextCluster(chain[i]) == Ok(Some(chain[i + 1])))
  }

  lemma ChainTail(v: Volume, chain: seq<Cluster>)
    requires IsChain(v, chain) && chain != []
    ensures ClusterReadable(v, chain[0]) && IsChain(v, chain[1..])
    ensures |chain| > 1 ==> v.NextCluster(chain[0]) == Ok(Some(chain[1]))
  {
    forall i | 0 <= i < |chain[1..]| - 1 ensures v.NextCluster(chain[1..][i]) == Ok(Some(chain[1..][i + 1])) {
      assert v.NextCluster(chain[i + 1]) == Ok(Some(chain[i + 1 + 1]));
    }
  }

  /** All the bytes of a chain, cluster after cluster. */
  function ChainData(v: Volume, chain: seq<Cluster>): Bytes
    requires IsChain(v, chain)
    decreases |chain|
  {
    if chain == [] then []
    else
      ChainTail(v, chain);
      ClusterData(v, chain[0]) + ChainData(v, chain[1..])
  }

  lemma {:induction false} ChainDataSize(v: Volume, chain: seq<Cluster>)
    requires IsChain(v, chain)
    ensures |ChainData(v, chain)| == Times(|chain|, ClusterSize(v))
    decreases |chain|
  {
    hide Times;
    hide ClusterSize;
    TimesNext(0, ClusterSize(v));
    if chain != [] {
      ChainTail(v, chain);
      ChainDataSize(v, chain[1..]);
      TimesNext(|chain| - 1, ClusterSize(v));
    }
  }

  lemma ChainSuffix(v: Volume, chain: seq<Cluster>, k: nat)
    requires IsChain(v, chain) && k <= |chain|
    ensures IsChain(v, chain[k..])
  {
    forall i | 0 <= i < |chain[k..]| - 1 ensures v.NextCluster(chain[k..][i]) == Ok(Some(chain[k..][i + 1])) {
      assert v.NextCluster(chain[k + i]) == Ok(Some(chain[k + i + 1]));
    }
  }

  /** The data from cluster k on is the data of the chain from there on. */
  lemma {:induction false} ChainDrop(v: Volume, chain: seq<Cluster>, k: nat)
    requires IsChain(v, chain) && k <= |chain|
    ensures IsChain(v, chain[k..])
    ensures Times(k, ClusterSize(v)) <= |ChainData(v, chain)|
    ensures ChainData(v, chain)[Times(k, ClusterSize(v))..] == ChainData(v, chain[k..])
    decreases k
  {
    ChainSuffix(v, chain, k);
    hide Times;
    hide ClusterSize;
    hide ClusterReadable;
    hide IsChain;
    hide ChainData;
    TimesNext(0, ClusterSize(v));
    if k == 0 {
      assert chain[0..] == chain;
    } else {
      ChainTail(v, chain);
      ChainDrop(v, chain[1..], k - 1);
      TailSuffix(chain, k);
      TimesNext(k - 1, ClusterSize(v));
      FirstThenRest(v, chain);
      DropSecond(ClusterData(v, chain[0]), ChainData(v, chain[1..]), Times(k - 1, ClusterSize(v)));
    }
  }

  lemma FirstThenRest(v: Volume, chain: seq<Cluster>)
    requires IsChain(v, chain) && chain != []
    ensures ClusterReadable(v, chain[0]) && IsChain(v, chain[1..])
    ensures ChainData(v, chain) == ClusterData(v, chain[0]) + ChainData(v, chain[1..])
  {
    ChainTail(v, chain);
  }

  lemma TailSuffix<T>(s: seq<T>, k: nat)
    requires 0 < k <= |s|
    ensures s[1..][k - 1..] == s[k..]
  {
  }

  lemma DropSecond<T>(a: seq<T>, b: seq<T>, n: nat)
    requires n <= |b|
    ensures (a + b)[|a| + n..] == b[n..]
  {
  }

  lemma SliceOfDrop<T>(s: seq<T>, k: nat, at: nat, n: nat)
    requires k + at + n <= |s|
    ensures s[k..][at..at + n] == s[k + at..k + at + n]
  {
  }

  lemma SliceThenRest<T>(s: seq<T>, a: nat, b: nat)
    requires a <= b <= |s|
    ensures s[a..] == s[a..b] + s[b..]
  {
  }
}
