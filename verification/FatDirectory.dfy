/** Listing a directory and walking a path. */
module FatDirectory {
  import opened Common
  import opened FatVolume
  import opened FatNames
  import opened Pieces

  const RECORD := 32

  datatype DirEntry = DirEntry(file: ShortName, cluster: Cluster, attributes: Byte, size: nat) {
    predicate IsDirectory() {
      attributes / 16 % 2 == 1
    }

    predicate IsLongName() {
      attributes % 16 == 15
    }
  }

  function Little16(lo: int, hi: int): int {
    lo + 256 * hi
  }

  /** Fields of a 32-byte record, without the time stamps. */
  function EntryOf(record: Bytes): DirEntry
    requires |record| == RECORD
  {
    DirEntry(
      ShortName(record[..8], record[8..11]),
      Little16(Little16(record[26], record[27]), 256 * Little16(record[20], record[21])),
      record[11] % 64,
      Little16(Little16(record[28], record[29]), 256 * Little16(record[30], record[31])))
  }

  /** The n bytes of a number, least significant first. */
  function LittleBytes(x: nat, n: nat): (r: Bytes)
    ensures |r| == n
  {
    if n == 0 then [] else [x % 256] + LittleBytes(x / 256, n - 1)
  }

  /** A record as the FAT specification lays it out: name, attributes, 8 bytes of times and flags,
      high half of the cluster, 4 bytes of times, low half of the cluster, size. */
  function RecordOf(e: DirEntry, created: Bytes, modified: Bytes): Bytes {
    e.file.name + e.file.ext + [e.attributes] + created + LittleBytes(e.cluster / 0x1_0000, 2)
    + modified + LittleBytes(e.cluster % 0x1_0000, 2) + LittleBytes(e.size, 4)
  }

  /** Parsing a record gives back the entry that it was made of. */
  lemma EntryOfRecord(e: DirEntry, created: Bytes, modified: Bytes)
    requires |e.file.name| == 8 && |e.file.ext| == 3 && e.attributes < 64 && e.size < 0x1_0000_0000
    requires |created| == 8 && |modified| == 4
    ensures |RecordOf(e, created, modified)| == RECORD && EntryOf(RecordOf(e, created, modified)) == e
  {
    var r := RecordOf(e, created, modified);
    assert r[..8] == e.file.name && r[8..11] == e.file.ext;
    FourBytes(e.size);
    TwoBytes(e.cluster / 0x1_0000);
    TwoBytes(e.cluster % 0x1_0000);
    assert r[20..22] == LittleBytes(e.cluster / 0x1_0000, 2);
    assert r[26..28] == LittleBytes(e.cluster % 0x1_0000, 2);
    assert r[28..32] == LittleBytes(e.size, 4);
  }

  lemma TwoBytes(x: nat)
    requires x < 0x1_0000
    ensures var b := LittleBytes(x, 2); Little16(b[0], b[1]) == x
  {
  }

  lemma FourBytes(x: nat)
    requires x < 0x1_0000_0000
    ensures var b := LittleBytes(x, 4); Little16(Little16(b[0], b[1]), 256 * Little16(b[2], b[3])) == x
  {
    var b, q := LittleBytes(x, 4), x / 256;
    FirstByte(x, 4);
    FirstByte(q, 3);
    hide LittleBytes;
    assert b[2..] == LittleBytes(q / 256, 2);
    TwoBytes(q / 256);
    assert b[2] == b[2..][0] && b[3] == b[2..][1];
    assert b[1] == q % 256;
  }

  lemma FirstByte(x: nat, n: nat)
    requires n > 0
    ensures LittleBytes(x, n) == [x % 256] + LittleBytes(x / 256, n - 1)
  {
  }

  // ---------------------------------------------------------------------
  // The flat listing
  // ---------------------------------------------------------------------

  /** The records of some data; what is left at the end is no record. */
  function Records(data: Bytes): (r: seq<Bytes>)
    ensures forall i :: 0 <= i < |r| ==> |r[i]| == RECORD
  {
    if |data| < RECORD then [] else [data[..RECORD]] + Records(data[RECORD..])
  }

  predicate AreRecords(rs: seq<Bytes>) {
    forall i :: 0 <= i < |rs| ==> |rs[i]| == RECORD
  }

  predicate IsEnd(record: Bytes)
    requires |record| == RECORD
  {
    record[0] == 0
  }

  /** Neither deleted nor part of a long name. */
  predicate IsListed(record: Bytes)
    requires |record| == RECORD
  {
    record[0] != 0xE5 && !EntryOf(record).IsLongName()
  }

  /** The records before the first end marker. */
  function UpToEnd(rs: seq<Bytes>): (r: seq<Bytes>)
    requires AreRecords(rs)
    ensures AreRecords(r)
  {
    if rs == [] || IsEnd(rs[0]) then [] else [rs[0]] + UpToEnd(rs[1..])
  }

  function Entries(rs: seq<Bytes>): seq<DirEntry>
    requires AreRecords(rs)
  {
    if rs == [] then []
    else (if IsListed(rs[0]) then [EntryOf(rs[0])] else []) + Entries(rs[1..])
  }

  /** A directory with these bytes lists these entries. */
  function Listing(data: Bytes): seq<DirEntry> {
    Entries(UpToEnd(Records(data)))
  }

  // ---------------------------------------------------------------------
  // On the bytes
  // ---------------------------------------------------------------------

  /** The attribute byte's fifth bit says directory, its four lowest together long name. */
  lemma AttributeBits(record: Bytes)
    requires |record| == RECORD
    ensures EntryOf(record).IsDirectory() <==> record[11] as int % 32 >= 16
    ensures EntryOf(record).IsLongName() <==> record[11] as int % 16 == 15
  {
    LowBits(record[11]);
  }

  lemma LowBits(a: Byte)
    ensures a as int % 64 / 16 % 2 == 1 <==> a as int % 32 >= 16
    ensures a as int % 64 % 16 == a as int % 16
  {
    var r := if a < 64 then a else if a < 128 then a - 64 else if a < 192 then a - 128 else a - 192;
    var t := if r < 16 then 0 else if r < 32 then 1 else if r < 48 then 2 else 3;
    assert a % 64 == r;
    assert r / 16 == t;
    assert a % 32 == if r < 32 then r else r - 32;
    assert a % 16 == r - 16 * t && r % 16 == r - 16 * t;
  }

  /** Record number i of some data: complete, neither deleted nor part of a long name, and neither it
      nor any before it starts with a zero. */
  predicate ListedAt(data: Bytes, i: nat) {
    && (i + 1) * 32 <= |data|
    && (forall j :: 0 <= j <= i ==> FirstByteAt(data, j) != 0)
    && FirstByteAt(data, i) != 0xE5 && data[i * 32 + 11] as int % 16 != 15
  }

  function FirstByteAt(data: Bytes, j: int): int {
    if 0 <= j * 32 < |data| then data[j * 32] else 0
  }

  function RecordAt(data: Bytes, i: nat): Bytes
    requires ListedAt(data, i)
  {
    data[i * 32..i * 32 + 32]
  }

  /** Exactly the records that are listed from number i on, in their order. */
  ghost predicate AreListed(data: Bytes, i: nat, places: seq<nat>) {
    && (forall k :: 0 <= k < |places| ==> places[k] >= i && ListedAt(data, places[k]))
    && (forall k, l :: 0 <= k < l < |places| ==> places[k] < places[l])
    && (forall j :: j >= i && ListedAt(data, j) ==> j in places)
  }

  /** Entry k is that of the record at place[k]. */
  ghost predicate Lists(es: seq<DirEntry>, data: Bytes, places: seq<nat>) {
    |es| == |places| &&
    forall k :: 0 <= k < |es| ==> ListedAt(data, places[k]) && es[k] == EntryOf(RecordAt(data, places[k]))
  }

  /** A directory lists exactly the entries of its listed records, in their order. */
  lemma ListingIs(data: Bytes) returns (places: seq<nat>)
    ensures AreListed(data, 0, places) && Lists(Listing(data), data, places)
  {
    places := ListsFrom(data, 0);
    assert data[0 * 32..] == data;
  }

  lemma {:induction false} ListsFrom(data: Bytes, i: nat) returns (places: seq<nat>)
    requires i * 32 <= |data| && forall j :: 0 <= j < i ==> FirstByteAt(data, j) != 0
    ensures AreListed(data, i, places) && Lists(Listing(data[i * 32..]), data, places)
    decreases |data| - i * 32
  {
    hide IsListed;
    hide Listing;
    hide EntryOf;
    hide ListedAt;
    hide RecordAt;
    hide AreListed;
    hide Lists;
    var tail := data[i * 32..];
    if |tail| < RECORD || tail[0] == 0 {
      places := [];
      NothingListed(data, i);
    } else {
      NextRecord(data, i);
      var rest := ListsFrom(data, i + 1);
      ListingStep(tail);
      ListedHere(data, i);
      places := if ListedAt(data, i) then [i] + rest else rest;
      OneMorePlace(data, i, rest, Listing(tail[RECORD..]));
      assert [] + Listing(tail[RECORD..]) == Listing(tail[RECORD..]);
    }
  }

  lemma NextRecord(data: Bytes, i: nat)
    requires (i + 1) * 32 <= |data| && data[i * 32] != 0
    ensures data[(i + 1) * 32..] == data[i * 32..][RECORD..] && FirstByteAt(data, i) != 0
  {
  }

  lemma NothingListed(data: Bytes, i: nat)
    requires i * 32 <= |data| && (|data| - i * 32 < RECORD || data[i * 32] == 0)
    ensures AreListed(data, i, []) && Lists(Listing(data[i * 32..]), data, [])
  {
    assert |data| - i * 32 < RECORD || FirstByteAt(data, i) == 0;
    forall j | j >= i ensures !ListedAt(data, j) {}
  }

  lemma ListedHere(data: Bytes, i: nat)
    requires (i + 1) * 32 <= |data| && data[i * 32] != 0 && forall j :: 0 <= j < i ==> FirstByteAt(data, j) != 0
    ensures ListedAt(data, i) <==> IsListed(data[i * 32..][..RECORD])
    ensures ListedAt(data, i) ==> RecordAt(data, i) == data[i * 32..][..RECORD]
  {
    AttributeBits(data[i * 32..][..RECORD]);
  }

  lemma OneMorePlace(data: Bytes, i: nat, rest: seq<nat>, es: seq<DirEntry>)
    requires AreListed(data, i + 1, rest) && Lists(es, data, rest)
    ensures AreListed(data, i, if ListedAt(data, i) then [i] + rest else rest)
    ensures if ListedAt(data, i) then Lists([EntryOf(RecordAt(data, i))] + es, data, [i] + rest)
            else Lists(es, data, rest)
  {
    hide ListedAt;
    hide RecordAt;
    hide EntryOf;
    hide Lists;
    var all := [i] + rest;
    forall j | j >= i && ListedAt(data, j) ensures j == i || j in rest {}
    if ListedAt(data, i) {
      forall j | j >= i && ListedAt(data, j) ensures j in all {
        if j == i {
          assert all[0] == i;
        }
      }
      forall k, l | 0 <= k < l < |all| ensures all[k] < all[l] {
        assert all[l] == rest[l - 1];
      }
      OneMoreEntry(data, i, rest, es);
    }
  }

  lemma OneMoreEntry(data: Bytes, i: nat, rest: seq<nat>, es: seq<DirEntry>)
    requires ListedAt(data, i) && Lists(es, data, rest)
    ensures Lists([EntryOf(RecordAt(data, i))] + es, data, [i] + rest)
  {
    hide ListedAt;
    hide RecordAt;
    hide EntryOf;
    var all := [i] + rest;
    forall k | 0 <= k < |all| ensures ListedAt(data, all[k]) {
      assert k > 0 ==> all[k] == rest[k - 1];
    }
  }

  lemma ListingStep(data: Bytes)
    requires |data| >= RECORD && data[0] != 0
    ensures Listing(data)
         == (if IsListed(data[..RECORD]) then [EntryOf(data[..RECORD])] else []) + Listing(data[RECORD..])
  {
    var rs := Records(data);
    assert rs[0] == data[..RECORD] && rs[1..] == Records(data[RECORD..]);
    assert UpToEnd(rs)[1..] == UpToEnd(rs[1..]);
  }

  // ---------------------------------------------------------------------
  // The scan
  // ---------------------------------------------------------------------

  /** Entries found, and whether an end marker has been met. */
  datatype Scan = Scan(entries: seq<DirEntry>, ended: bool)

  function Before(entries: seq<DirEntry>, s: Scan): Scan {
    s.(entries := entries + s.entries)
  }

  /** The records of one sector from number j on. */
  function ScanSector(block: Block, j: nat): Scan
    requires j <= SECTOR / RECORD
    decreases SECTOR / RECORD - j
  {
    if j == SECTOR / RECORD then Scan([], false)
    else
      var record := block[j * RECORD..j * RECORD + RECORD];
      if IsEnd(record) then Scan([], true)
      else Before(if IsListed(record) then [EntryOf(record)] else [], ScanSector(block, j + 1))
  }

  function ScanSectors(v: Volume, first: nat, n: nat): Result<Scan, FsError>
    decreases n
  {
    if n == 0 then Ok(Scan([], false))
    else
      var block := v.ReadBlock(first);
      if block.Err? then Err(block.error)
      else
        var here := ScanSector(block.value, 0);
        if here.ended then Ok(here)
        else
          var rest := ScanSectors(v, first + 1, n - 1);
          if rest.Err? then rest else Ok(Before(here.entries, rest.value))
  }

  /** Sectors to scan at a cluster: the whole root directory, or one cluster. */
  function SectorsAt(v: Volume, c: Cluster): nat {
    if c == ROOT_DIR then v.RootSectors() else v.sectorsPerCluster
  }

  /** The cluster to which a listing goes on: none if the scan fails or meets an end marker, in the
      root directory, and where the FAT leads nowhere. */
  function OnTo(v: Volume, c: Cluster): (r: Option<Cluster>)
    ensures r.Some? ==> r.value < 0x1_0000
  {
    var here := ScanSectors(v, v.ClusterToSector(c), SectorsAt(v, c));
    if here.Err? || here.value.ended || c == ROOT_DIR then None
    else
      var next := v.NextCluster(c);
      if next.Ok? then next.value else None
  }

  /** A listing from c on goes on to another cluster at most n times. */
  predicate EndsIn(v: Volume, c: Cluster, n: nat)
    decreases n
  {
    OnTo(v, c).None? || (n > 0 && EndsIn(v, OnTo(v, c).value, n - 1))
  }

  /** A listing from c on returns. */
  ghost predicate Ends(v: Volume, c: Cluster) {
    exists n: nat :: EndsIn(v, c, n)
  }

  ghost predicate IsLeast(v: Volume, c: Cluster, n: nat) {
    EndsIn(v, c, n) && forall m: nat :: m < n ==> !EndsIn(v, c, m)
  }

  lemma {:induction false} LeastExists(v: Volume, c: Cluster, n: nat)
    requires EndsIn(v, c, n)
    ensures exists r: nat :: IsLeast(v, c, r)
    decreases n
  {
    hide EndsIn;
    if m: nat :| m < n && EndsIn(v, c, m) {
      LeastExists(v, c, m);
    } else {
      assert IsLeast(v, c, n);
    }
  }

  /** How often a listing that returns goes on. */
  ghost function Left(v: Volume, c: Cluster): (r: nat)
    requires Ends(v, c)
    ensures IsLeast(v, c, r)
  {
    var n: nat :| EndsIn(v, c, n);
    LeastExists(v, c, n);
    var r: nat :| IsLeast(v, c, r);
    r
  }

  lemma LeftGoesDown(v: Volume, c: Cluster)
    requires Ends(v, c) && OnTo(v, c).Some?
    ensures Ends(v, OnTo(v, c).value) && Left(v, OnTo(v, c).value) < Left(v, c)
  {
    assert EndsIn(v, OnTo(v, c).value, Left(v, c) - 1);
  }

  ghost function ReadDir(v: Volume, c: Cluster): Result<seq<DirEntry>, FsError>
    requires Ends(v, c)
    decreases Left(v, c)
  {
    var here := ScanSectors(v, v.ClusterToSector(c), SectorsAt(v, c));
    if here.Err? then Err(here.error)
    else if OnTo(v, c).None? then Ok(here.value.entries)
    else
      LeftGoesDown(v, c);
      var rest := ReadDir(v, OnTo(v, c).value);
      if rest.Err? then rest else Ok(here.value.entries + rest.value)
  }

  // ---------------------------------------------------------------------
  // When a listing returns
  // ---------------------------------------------------------------------

  /** A listing goes on from each of these clusters to the next. */
  predicate IsTrail(v: Volume, trail: seq<Cluster>) {
    forall i :: 0 <= i < |trail| - 1 ==> OnTo(v, trail[i]) == Some(trail[i + 1])
  }

  /** A trail from c on that comes back to a cluster it has passed. */
  predicate IsLoop(v: Volume, c: Cluster, trail: seq<Cluster>) {
    && |trail| > 1 && trail[0] == c && IsTrail(v, trail)
    && trail[|trail| - 1] in trail[..|trail| - 1]
  }

  /** A listing never returns exactly if it comes back to a cluster it has scanned. */
  lemma EndlessExactly(v: Volume, c: Cluster)
    ensures !Ends(v, c) <==> exists trail :: IsLoop(v, c, trail)
  {
    if trail :| IsLoop(v, c, trail) {
      LoopIsEndless(v, c, trail);
    }
    if !Ends(v, c) {
      var long := EndlessTrail(v, c, 0x1_0000 + 1);
      var i, j := Repeated(long[1..], 0x1_0000);
      var trail := long[..j + 2];
      assert trail[j + 1] == long[1..][j] == long[1..][i] == trail[..j + 1][i + 1];
      TrailPrefix(v, long, j + 2);
      assert IsLoop(v, c, trail);
    }
  }

  /** A directory in cluster 2 whose FAT entry is 2 and that has no end marker is listed forever. */
  lemma OwnSuccessorIsEndless(v: Volume)
    requires v.NextCluster(2) == Ok(Some(2))
    requires var here := ScanSectors(v, v.ClusterToSector(2), v.sectorsPerCluster); here.Ok? && !here.value.ended
    ensures IsLoop(v, 2, [2, 2]) && !Ends(v, 2)
  {
    assert OnTo(v, 2) == Some(2);
    assert [2, 2][..1] == [2];
    LoopIsEndless(v, 2, [2, 2]);
  }

  lemma TrailPrefix(v: Volume, trail: seq<Cluster>, n: nat)
    requires IsTrail(v, trail) && n <= |trail|
    ensures IsTrail(v, trail[..n])
  {
    forall i | 0 <= i < n - 1 ensures OnTo(v, trail[..n][i]) == Some(trail[..n][i + 1]) {
      assert OnTo(v, trail[i]) == Some(trail[i + 1]);
    }
  }

  lemma LoopIsEndless(v: Volume, c: Cluster, trail: seq<Cluster>)
    requires IsLoop(v, c, trail)
    ensures !Ends(v, c)
  {
    if Ends(v, c) {
      var last := |trail| - 1;
      var i :| 0 <= i < last && trail[i] == trail[last];
      TrailGoesDown(v, trail, i);
      TrailGoesDown(v, trail, last);
    }
  }

  lemma {:induction false} TrailGoesDown(v: Volume, trail: seq<Cluster>, j: nat)
    requires IsTrail(v, trail) && j < |trail| && Ends(v, trail[0])
    ensures Ends(v, trail[j])
    ensures forall i :: 0 <= i < j ==> Ends(v, trail[i]) && Left(v, trail[j]) < Left(v, trail[i])
    decreases j
  {
    if j > 0 {
      TrailGoesDown(v, trail, j - 1);
      assert OnTo(v, trail[j - 1]) == Some(trail[j - 1 + 1]);
      LeftGoesDown(v, trail[j - 1]);
    }
  }

  lemma {:induction false} EndlessTrail(v: Volume, c: Cluster, n: nat) returns (trail: seq<Cluster>)
    requires !Ends(v, c)
    ensures |trail| == n + 1 && trail[0] == c && IsTrail(v, trail)
    ensures forall i :: 0 < i < |trail| ==> trail[i] < 0x1_0000
    decreases n
  {
    trail := [c];
    if n > 0 {
      assert !EndsIn(v, c, 0);
      var next := OnTo(v, c).value;
      if k: nat :| EndsIn(v, next, k) {
        assert EndsIn(v, c, k + 1);
      }
      var rest := EndlessTrail(v, next, n - 1);
      trail := [c] + rest;
    }
  }

  /** More numbers below n than n: one occurs twice. */
  lemma Repeated(s: seq<Cluster>, n: nat) returns (i: nat, j: nat)
    requires |s| > n && forall k :: 0 <= k < |s| ==> s[k] < n
    ensures i < j < |s| && s[i] == s[j]
  {
    if forall x, y :: 0 <= x < y < |s| ==> s[x] != s[y] {
      DistinctAreFew(s, n);
    }
    i, j :| i < j < |s| && s[i] == s[j];
  }

  lemma {:induction false} DistinctAreFew(s: seq<Cluster>, n: nat)
    requires forall k :: 0 <= k < |s| ==> s[k] < n
    requires forall x, y :: 0 <= x < y < |s| ==> s[x] != s[y]
    ensures |s| <= n
    decreases n
  {
    if s != [] {
      assert s[0] < n;
      if at :| 0 <= at < |s| && s[at] == n - 1 {
        DistinctAreFew(s[..at] + s[at + 1..], n - 1);
      } else {
        DistinctAreFew(s, n - 1);
      }
    }
  }

  // ---------------------------------------------------------------------
  // The scan computes the flat listing
  // ---------------------------------------------------------------------

  /** Scanning some records: the entries before the end marker, and whether there is one. */
  function ScanOf(rs: seq<Bytes>): Scan
    requires AreRecords(rs)
  {
    Scan(Entries(UpToEnd(rs)), |UpToEnd(rs)| < |rs|)
  }

  lemma ScanOfFirst(rs: seq<Bytes>)
    requires AreRecords(rs) && rs != [] && !IsEnd(rs[0])
    ensures ScanOf(rs) == Before(if IsListed(rs[0]) then [EntryOf(rs[0])] else [], ScanOf(rs[1..]))
  {
    assert UpToEnd(rs)[1..] == UpToEnd(rs[1..]);
  }

  /** Scanning two stretches of records one after the other. */
  lemma {:induction false} ScanOfJoin(a: seq<Bytes>, b: seq<Bytes>)
    requires AreRecords(a) && AreRecords(b)
    ensures AreRecords(a + b)
    ensures ScanOf(a + b) == if ScanOf(a).ended then ScanOf(a) else Before(ScanOf(a).entries, ScanOf(b))
    decreases |a|
  {
    if a == [] {
      assert a + b == b;
    } else if IsEnd(a[0]) {
      assert (a + b)[0] == a[0];
    } else {
      assert (a + b)[0] == a[0] && (a + b)[1..] == a[1..] + b;
      ScanOfJoin(a[1..], b);
      ScanOfFirst(a);
      ScanOfFirst(a + b);
    }
  }

  lemma {:induction false} RecordsJoin(a: Bytes, b: Bytes)
    requires |a| % RECORD == 0
    ensures Records(a + b) == Records(a) + Records(b)
    decreases |a|
  {
    if |a| < RECORD {
      assert a + b == b;
    } else {
      assert (a + b)[..RECORD] == a[..RECORD] && (a + b)[RECORD..] == a[RECORD..] + b;
      RecordsJoin(a[RECORD..], b);
    }
  }

  lemma {:induction false} SectorScan(block: Block, j: nat)
    requires j <= SECTOR / RECORD
    ensures ScanSector(block, j) == ScanOf(Records(block[j * RECORD..]))
    decreases SECTOR / RECORD - j
  {
    var data := block[j * RECORD..];
    if j < SECTOR / RECORD {
      SectorScan(block, j + 1);
      assert data[..RECORD] == block[j * RECORD..j * RECORD + RECORD];
      assert data[RECORD..] == block[(j + 1) * RECORD..];
      var rs := Records(data);
      assert rs[0] == data[..RECORD] && rs[1..] == Records(data[RECORD..]);
      if !IsEnd(rs[0]) {
        ScanOfFirst(rs);
      }
    }
  }

  lemma NothingScanned()
    ensures ScanOf(Records([])) == Scan([], false)
  {
  }

  lemma {:induction false} SectorsScan(v: Volume, first: nat, n: nat)
    requires Readable(v, first, n)
    ensures ScanSectors(v, first, n) == Ok(ScanOf(Records(SectorData(v, first, n))))
    decreases n
  {
    hide ScanSector;
    hide ScanOf;
    hide Records;
    if n > 0 {
      var block, rest := v.disk[first], SectorData(v, first + 1, n - 1);
      SectorScan(block, 0);
      assert block[0 * RECORD..] == block;
      SectorsScan(v, first + 1, n - 1);
      RecordsJoin(block, rest);
      ScanOfJoin(Records(block), Records(rest));
    } else {
      NothingScanned();
    }
  }

  /** The FAT leads nowhere from the last cluster. */
  predicate IsWholeChain(v: Volume, chain: seq<Cluster>) {
    && chain != [] && IsChain(v, chain)
    && var next := v.NextCluster(chain[|chain| - 1]); (next.Err? || next.value.None?)
  }

  /** There is an end marker among the chain's records, whatever follows its last cluster. */
  predicate IsMarkedChain(v: Volume, chain: seq<Cluster>) {
    chain != [] && IsChain(v, chain) && ScanOf(Records(ChainData(v, chain))).ended
  }

  lemma WholeRecords(n: nat)
    ensures n * SECTOR % RECORD == 0
  {
  }

  /** A directory's chain lists what its concatenated clusters list; so does a chain cut off behind
      an end marker. */
  lemma {:induction false} ReadDirIsFlat(v: Volume, chain: seq<Cluster>)
    requires IsWholeChain(v, chain) || IsMarkedChain(v, chain)
    ensures Ends(v, chain[0]) && ReadDir(v, chain[0]) == Ok(Listing(ChainData(v, chain)))
    decreases |chain|
  {
    hide IsChain;
    hide ScanSectors;
    hide Listing;
    hide ClusterData;
    hide ChainData;
    hide Records;
    hide ScanOf;
    ChainTail(v, chain);
    ClusterScan(v, chain[0]);
    FirstThenRest(v, chain);
    DirJoin(ClusterData(v, chain[0]), ChainData(v, chain[1..]));
    ReadDirStep(v, chain[0]);
    if ScanOf(Records(ClusterData(v, chain[0]))).ended {
    } else if |chain| > 1 {
      if IsWholeChain(v, chain) {
        assert chain[1..][|chain| - 2] == chain[|chain| - 1];
      }
      ReadDirIsFlat(v, chain[1..]);
    } else {
      NoData(v);
      NothingScanned();
      assert chain[1..] == [];
      assert Listing(ClusterData(v, chain[0])) + [] == Listing(ClusterData(v, chain[0]));
    }
  }

  /** A listing returns where it does not go on, or if it returns from the cluster it goes on to. */
  lemma ReadDirStep(v: Volume, c: Cluster)
    ensures Ends(v, c) <==> OnTo(v, c).None? || Ends(v, OnTo(v, c).value)
  {
    if OnTo(v, c).None? {
      assert EndsIn(v, c, 0);
    } else {
      if n: nat :| EndsIn(v, OnTo(v, c).value, n) {
        assert EndsIn(v, c, n + 1);
      }
      if n: nat :| EndsIn(v, c, n) {
        assert EndsIn(v, OnTo(v, c).value, n - 1);
      }
    }
  }

  lemma NoData(v: Volume)
    ensures IsChain(v, []) && ChainData(v, []) == []
  {
  }

  lemma ClusterScan(v: Volume, c: Cluster)
    requires ClusterReadable(v, c)
    ensures |ClusterData(v, c)| % RECORD == 0 && c != ROOT_DIR
    ensures var scan := ScanSectors(v, v.ClusterToSector(c), v.sectorsPerCluster);
            && scan.Ok? && scan.value == ScanOf(Records(ClusterData(v, c)))
            && scan.value.entries == Listing(ClusterData(v, c))
  {
    SectorsScan(v, v.ClusterToSector(c), v.sectorsPerCluster);
    WholeRecords(v.sectorsPerCluster);
  }

  lemma DirJoin(here: Bytes, rest: Bytes)
    requires |here| % RECORD == 0
    ensures Listing(here + rest) == if ScanOf(Records(here)).ended then Listing(here) else Listing(here) + Listing(rest)
    ensures Listing([]) == []
    ensures ScanOf(Records(here + rest)).ended <==> ScanOf(Records(here)).ended || ScanOf(Records(rest)).ended
  {
    RecordsJoin(here, rest);
    ScanOfJoin(Records(here), Records(rest));
  }

  /** The root directory lists what its region lists. */
  lemma RootIsFlat(v: Volume)
    requires Readable(v, v.FirstRootSector(), v.RootSectors())
    ensures Ends(v, ROOT_DIR)
    ensures ReadDir(v, ROOT_DIR) == Ok(Listing(SectorData(v, v.FirstRootSector(), v.RootSectors())))
  {
    assert EndsIn(v, ROOT_DIR, 0);
    SectorsScan(v, v.FirstRootSector(), v.RootSectors());
  }

  // ---------------------------------------------------------------------
  // Looking up names and paths
  // ---------------------------------------------------------------------

  /** `Endless` is a lookup that never returns. */
  datatype Lookup = Found(entry: DirEntry) | Missing | Failed(error: FsError) | Panicked | Endless

  /** The Unicode upper case of a string, on its bytes. */
  type Casing = Bytes -> Bytes

  /** The first entry of that name. */
  function FirstNamed(es: seq<DirEntry>, file: ShortName): (r: Lookup)
    ensures r.Found? || r.Missing?
  {
    if es == [] then Missing else if es[0].file == file then Found(es[0]) else FirstNamed(es[1..], file)
  }

  lemma {:induction false} FirstNamedIsFirst(es: seq<DirEntry>, file: ShortName)
    ensures match FirstNamed(es, file)
            case Missing => forall i :: 0 <= i < |es| ==> es[i].file != file
            case Found(e) => exists i :: 0 <= i < |es| && es[i] == e && e.file == file
                               && forall j :: 0 <= j < i ==> es[j].file != file
            case _ => false
  {
    if es != [] && es[0].file != file {
      FirstNamedIsFirst(es[1..], file);
      match FirstNamed(es[1..], file)
      case Missing =>
      case Found(e) =>
        var i :| 0 <= i < |es[1..]| && es[1..][i] == e && forall j :: 0 <= j < i ==> es[1..][j].file != file;
        assert es[i + 1] == e;
        forall j | 0 <= j < i + 1 ensures es[j].file != file {
          assert j > 0 ==> es[j] == es[1..][j - 1];
        }
    }
  }

  ghost function FindEntry(v: Volume, upper: Casing, dir: Cluster, name: Bytes): Lookup {
    if !Ends(v, dir) then Endless
    else
      var entries := ReadDir(v, dir);
      if entries.Err? then Failed(entries.error)
      else
        match ParseAs(name, upper(name))
        case Bad(e) => Failed(Name(e))
        case Panic => Panicked
        case Good(file) => FirstNamed(entries.value, file)
  }

  /** From a directory, one component after the other; all but the last must be directories. */
  ghost function Walk(v: Volume, upper: Casing, dir: Cluster, parts: seq<Bytes>): Lookup
    requires parts != []
    decreases |parts|
  {
    var r := FindEntry(v, upper, dir, parts[0]);
    if !r.Found? || |parts| == 1 then r
    else if !r.entry.IsDirectory() then Failed(NotADirectory)
    else Walk(v, upper, r.entry.cluster, parts[1..])
  }

  // ---------------------------------------------------------------------
  // Paths
  // ---------------------------------------------------------------------

  const SLASH: Byte := 0x2F

  function TrimStart(path: Bytes): (r: Bytes)
    ensures r != [] ==> r[0] != SLASH
  {
    if path != [] && path[0] == SLASH then TrimStart(path[1..]) else path
  }

  function NonEmpty(parts: seq<Bytes>): nat {
    if parts == [] then 0 else (if parts[0] != [] then 1 else 0) + NonEmpty(parts[1..])
  }

  /** The loop of the path walk, at component i; `length` counts the components that are not empty. */
  ghost function PathLoop(v: Volume, upper: Casing, dir: Cluster, parts: seq<Bytes>, i: nat, length: nat): Lookup
    requires i <= |parts|
    decreases |parts| - i
  {
    if i == |parts| then Missing
    else
      var r := FindEntry(v, upper, dir, parts[i]);
      if !r.Found? || i == length - 1 then r
      else if !r.entry.IsDirectory() then Failed(NotADirectory)
      else PathLoop(v, upper, r.entry.cluster, parts, i + 1, length)
  }

  ghost function FindPath(v: Volume, upper: Casing, path: Bytes): Lookup
  {
    var p := TrimStart(path);
    if p == [] then Missing
    else
      PathLoop(v, upper, ROOT_DIR, Split(p, SLASH), 0, NonEmpty(Split(p, SLASH)))
  }

  /** The components without the empty ones at the end. */
  function Core(parts: seq<Bytes>): (r: seq<Bytes>)
    ensures r <= parts && (r != [] ==> r[|r| - 1] != [])
  {
    if parts != [] && parts[|parts| - 1] == [] then Core(parts[..|parts| - 1]) else parts
  }

  /** How many components of a stretch are empty. */
  lemma {:induction false} NonEmptyOfCore(parts: seq<Bytes>)
    ensures NonEmpty(Core(parts)) == NonEmpty(parts)
    decreases |parts|
  {
    if parts != [] && parts[|parts| - 1] == [] {
      NonEmptyOfCore(parts[..|parts| - 1]);
      NonEmptyJoin(parts[..|parts| - 1], [parts[|parts| - 1]]);
      assert parts == parts[..|parts| - 1] + [parts[|parts| - 1]];
    }
  }

  lemma {:induction false} NonEmptyJoin(a: seq<Bytes>, b: seq<Bytes>)
    ensures NonEmpty(a + b) == NonEmpty(a) + NonEmpty(b)
    decreases |a|
  {
    if a == [] {
      assert a + b == b;
    } else {
      assert (a + b)[1..] == a[1..] + b;
      NonEmptyJoin(a[1..], b);
    }
  }

  lemma {:induction false} NonEmptyAtMost(parts: seq<Bytes>)
    ensures NonEmpty(parts) <= |parts|
  {
    if parts != [] {
      NonEmptyAtMost(parts[1..]);
    }
  }

  lemma EmptyNameFails(v: Volume, upper: Casing, dir: Cluster)
    ensures !FindEntry(v, upper, dir, []).Found?
  {
  }

  /** Walking the core: where the loop's counter and the position of the last component differ, an
      empty component stops the walk before either is reached. */
  lemma {:induction false} LoopIsWalk(v: Volume, upper: Casing, dir: Cluster,
                                      parts: seq<Bytes>, core: seq<Bytes>, i: nat)
    requires core <= parts
    requires i < |core| && core[|core| - 1] != []
    requires forall j :: 0 <= j < i ==> core[j] != []
    ensures PathLoop(v, upper, dir, parts, i, NonEmpty(core)) == Walk(v, upper, dir, core[i..])
    decreases |core| - i
  {
    assert core[i] == parts[i];
    NonEmptyJoin(core[..i], core[i..]);
    assert core == core[..i] + core[i..];
    AllNonEmpty(core[..i]);
    NonEmptyAtMost(core[i..]);
    if core[i] == [] {
      EmptyNameFails(v, upper, dir);
    } else {
      var r := FindEntry(v, upper, dir, core[i]);
      LastIsNonEmpty(core[i..]);
      assert i == NonEmpty(core) - 1 <==> NonEmpty(core[i..]) == 1;
      if r.Found? && i + 1 < |core| && r.entry.IsDirectory() {
        LoopIsWalk(v, upper, r.entry.cluster, parts, core, i + 1);
        assert core[i..][1..] == core[i + 1..];
      }
    }
  }

  lemma {:induction false} AllNonEmpty(parts: seq<Bytes>)
    requires forall j :: 0 <= j < |parts| ==> parts[j] != []
    ensures NonEmpty(parts) == |parts|
  {
    if parts != [] {
      AllNonEmpty(parts[1..]);
    }
  }

  /** First and last not empty: one of them alone only if they are the same. */
  lemma LastIsNonEmpty(parts: seq<Bytes>)
    requires parts != [] && parts[0] != [] && parts[|parts| - 1] != []
    ensures NonEmpty(parts) >= 1 && (NonEmpty(parts) == 1 <==> |parts| == 1)
  {
    if |parts| > 1 {
      var last := [parts[|parts| - 1]];
      NonEmptyJoin(parts[..|parts| - 1], last);
      assert parts == parts[..|parts| - 1] + last;
    }
  }

  lemma CoreNotEmpty(path: Bytes)
    requires path != [] && path[0] != SLASH
    ensures Core(Split(path, SLASH)) != []
  {
    var parts := Split(path, SLASH);
    assert parts[0] != [];
    NonEmptyOfCore(parts);
    assert NonEmpty([]) == 0;
  }

  /** Looking up a path is walking its components, without the slashes at its two ends; a path of
      slashes only finds nothing. */
  lemma FindPathIsWalk(v: Volume, upper: Casing, path: Bytes)
    ensures TrimStart(path) == [] ==> FindPath(v, upper, path) == Missing
    ensures TrimStart(path) != [] ==>
              var core := Core(Split(TrimStart(path), SLASH));
              core != [] && FindPath(v, upper, path) == Walk(v, upper, ROOT_DIR, core)
  {
    hide Walk;
    hide PathLoop;
    hide Core;
    hide Split;
    hide NonEmpty;
    var p := TrimStart(path);
    if p != [] {
      CoreNotEmpty(p);
      var parts := Split(p, SLASH);
      var core := Core(parts);
      NonEmptyOfCore(parts);
      LoopIsWalk(v, upper, ROOT_DIR, parts, core, 0);
      assert core[0..] == core;
    }
  }

  /** With an empty component between others the lookup finds nothing. */
  lemma {:induction false} EmptyComponentFails(v: Volume, upper: Casing, dir: Cluster, parts: seq<Bytes>, k: nat)
    requires k < |parts| && parts[k] == []
    ensures !Walk(v, upper, dir, parts).Found?
    decreases k
  {
    hide FindEntry;
    if k == 0 {
      EmptyNameFails(v, upper, dir);
    } else {
      var r := FindEntry(v, upper, dir, parts[0]);
      if r.Found? && r.entry.IsDirectory() {
        EmptyComponentFails(v, upper, r.entry.cluster, parts[1..], k - 1);
      }
    }
  }

  /** The directory reached by the first k components, if each of them is a directory. */
  ghost function Descend(v: Volume, upper: Casing, dir: Cluster, parts: seq<Bytes>, k: nat): Option<Cluster>
    requires k <= |parts|
    decreases k
  {
    if k == 0 then Some(dir)
    else
      var r := FindEntry(v, upper, dir, parts[0]);
      if r.Found? && r.entry.IsDirectory() then Descend(v, upper, r.entry.cluster, parts[1..], k - 1) else None
  }

  /** Component k is reached, the listing of its directory returns, and its name panics. */
  ghost predicate PanicsAt(v: Volume, upper: Casing, dir: Cluster, parts: seq<Bytes>, k: nat) {
    && k < |parts|
    && var d := Descend(v, upper, dir, parts, k);
       d.Some? && Ends(v, d.value) && ReadDir(v, d.value).Ok? && ParseAs(parts[k], upper(parts[k])).Panic?
  }

  /** Component k is reached, and the listing of its directory never returns. */
  ghost predicate EndlessAt(v: Volume, upper: Casing, dir: Cluster, parts: seq<Bytes>, k: nat) {
    k < |parts| && var d := Descend(v, upper, dir, parts, k); d.Some? && !Ends(v, d.value)
  }

  /** Component k is reached, and there the walk ends with this outcome: that of looking it up, or, if
      something is found that is no directory while components are left, NotADirectory. */
  ghost predicate StopsAt(v: Volume, upper: Casing, dir: Cluster, parts: seq<Bytes>, k: nat, outcome: Lookup) {
    k < |parts| &&
    var d := Descend(v, upper, dir, parts, k);
    d.Some? &&
    var r := FindEntry(v, upper, d.value, parts[k]);
    if r.Found? && k < |parts| - 1 then r.entry.attributes as int % 32 < 16 && outcome == Failed(NotADirectory)
    else outcome == r
  }

  lemma OutcomeAt(v: Volume, upper: Casing, dir: Cluster, parts: seq<Bytes>, k: nat)
    ensures StopsAt(v, upper, dir, parts, k, Panicked) <==> PanicsAt(v, upper, dir, parts, k)
    ensures StopsAt(v, upper, dir, parts, k, Endless) <==> EndlessAt(v, upper, dir, parts, k)
  {
    hide Descend;
    hide ReadDir;
    hide Ends;
    hide ParseAs;
  }

  lemma IsDirectoryIs(e: DirEntry)
    ensures e.IsDirectory() <==> e.attributes as int % 32 >= 16
  {
    var t := if e.attributes < 32 then 0 else if e.attributes < 64 then 1 else if e.attributes < 96 then 2
             else if e.attributes < 128 then 3 else if e.attributes < 160 then 4 else if e.attributes < 192 then 5
             else if e.attributes < 224 then 6 else 7;
    assert e.attributes as int % 32 == e.attributes as int - 32 * t;
    assert e.attributes as int / 16 == 2 * t + if e.attributes as int - 32 * t < 16 then 0 else 1;
  }

  /** A walk ends with some outcome exactly when it reaches, through directories, a component with which
      it ends so. */
  lemma {:induction false} WalkStops(v: Volume, upper: Casing, dir: Cluster, parts: seq<Bytes>, outcome: Lookup)
    requires parts != []
    ensures Walk(v, upper, dir, parts) == outcome <==> exists k: nat :: StopsAt(v, upper, dir, parts, k, outcome)
    decreases |parts|
  {
    hide FindEntry;
    hide StopsAt;
    hide DirEntry.IsDirectory;
    var r := FindEntry(v, upper, dir, parts[0]);
    StopsFirst(v, upper, dir, parts, outcome);
    if |parts| > 1 && r.Found? && r.entry.IsDirectory() {
      WalkStops(v, upper, r.entry.cluster, parts[1..], outcome);
      if k: nat :| StopsAt(v, upper, dir, parts, k, outcome) {
        StopsLater(v, upper, dir, parts, k - 1, outcome);
      }
      if k: nat :| StopsAt(v, upper, r.entry.cluster, parts[1..], k, outcome) {
        StopsLater(v, upper, dir, parts, k, outcome);
      }
    } else if k: nat :| StopsAt(v, upper, dir, parts, k, outcome) {
      StopsNowhereElse(v, upper, dir, parts, k, outcome);
    }
  }

  lemma StopsFirst(v: Volume, upper: Casing, dir: Cluster, parts: seq<Bytes>, outcome: Lookup)
    requires parts != []
    ensures var r := FindEntry(v, upper, dir, parts[0]);
            StopsAt(v, upper, dir, parts, 0, outcome) <==>
            if r.Found? && |parts| > 1 then !r.entry.IsDirectory() && outcome == Failed(NotADirectory)
            else outcome == r
  {
    hide FindEntry;
    var r := FindEntry(v, upper, dir, parts[0]);
    if r.Found? {
      IsDirectoryIs(r.entry);
    }
  }

  lemma StopsNowhereElse(v: Volume, upper: Casing, dir: Cluster, parts: seq<Bytes>, k: nat, outcome: Lookup)
    requires parts != [] && StopsAt(v, upper, dir, parts, k, outcome)
    requires var r := FindEntry(v, upper, dir, parts[0]); |parts| == 1 || !r.Found? || !r.entry.IsDirectory()
    ensures k == 0
  {
    hide FindEntry;
  }

  lemma StopsLater(v: Volume, upper: Casing, dir: Cluster, parts: seq<Bytes>, k: nat, outcome: Lookup)
    requires |parts| > 1
    requires var r := FindEntry(v, upper, dir, parts[0]); r.Found? && r.entry.IsDirectory()
    ensures StopsAt(v, upper, dir, parts, k + 1, outcome)
       <==> StopsAt(v, upper, FindEntry(v, upper, dir, parts[0]).entry.cluster, parts[1..], k, outcome)
  {
    hide FindEntry;
    if k + 1 < |parts| {
      assert parts[1..][k] == parts[k + 1];
    }
  }

  // ---------------------------------------------------------------------
  // Routes
  // ---------------------------------------------------------------------

  /** The listing of the directory returns, the name parses, and e is the first entry with that name. */
  ghost predicate FirstOf(v: Volume, upper: Casing, dir: Cluster, name: Bytes, e: DirEntry) {
    && Ends(v, dir) && ReadDir(v, dir).Ok? && ParseAs(name, upper(name)).Good?
    && IsFirst(ReadDir(v, dir).value, ParseAs(name, upper(name)).file, e)
  }

  predicate IsFirst(es: seq<DirEntry>, file: ShortName, e: DirEntry) {
    exists i :: 0 <= i < |es| && es[i] == e && e.file == file && forall j :: 0 <= j < i ==> es[j].file != file
  }

  lemma FirstNamedExactly(es: seq<DirEntry>, file: ShortName, e: DirEntry)
    ensures FirstNamed(es, file) == Found(e) <==> IsFirst(es, file, e)
  {
    FirstNamedIsFirst(es, file);
  }

  lemma FoundExactly(v: Volume, upper: Casing, dir: Cluster, name: Bytes, e: DirEntry)
    ensures FindEntry(v, upper, dir, name) == Found(e) <==> FirstOf(v, upper, dir, name, e)
  {
    hide IsFirst;
    if Ends(v, dir) && ReadDir(v, dir).Ok? && ParseAs(name, upper(name)).Good? {
      FirstNamedExactly(ReadDir(v, dir).value, ParseAs(name, upper(name)).file, e);
    }
  }

  /** Where the entry before number i leads. */
  function LeadsTo(dir: Cluster, es: seq<DirEntry>, i: nat): Cluster
    requires i <= |es|
  {
    if i == 0 then dir else es[i - 1].cluster
  }

  /** An entry for each component: the first of its name where the entry before leads, and all but the
      last are directories. */
  ghost predicate IsRoute(v: Volume, upper: Casing, dir: Cluster, parts: seq<Bytes>, es: seq<DirEntry>) {
    && |es| == |parts|
    && (forall i :: 0 <= i < |es| ==> FirstOf(v, upper, LeadsTo(dir, es, i), parts[i], es[i]))
    && (forall i :: 0 <= i < |es| - 1 ==> es[i].attributes as int % 32 >= 16)
  }

  /** A walk finds an entry exactly if there is a route to it. */
  lemma {:induction false} WalkIsRoute(v: Volume, upper: Casing, dir: Cluster, parts: seq<Bytes>, e: DirEntry)
    requires parts != []
    ensures Walk(v, upper, dir, parts) == Found(e)
       <==> exists es: seq<DirEntry> :: IsRoute(v, upper, dir, parts, es) && es[|parts| - 1] == e
    decreases |parts|
  {
    hide FindEntry;
    hide FirstOf;
    hide DirEntry.IsDirectory;
    var r := FindEntry(v, upper, dir, parts[0]);
    if r.Found? {
      FoundExactly(v, upper, dir, parts[0], r.entry);
      IsDirectoryIs(r.entry);
    }
    if |parts| > 1 && r.Found? && r.entry.IsDirectory() {
      WalkIsRoute(v, upper, r.entry.cluster, parts[1..], e);
      if es: seq<DirEntry> :| IsRoute(v, upper, r.entry.cluster, parts[1..], es) && es[|parts| - 2] == e {
        LongerRoute(v, upper, dir, parts, r.entry, es);
        assert ([r.entry] + es)[|parts| - 1] == e;
      }
    }
    if es: seq<DirEntry> :| IsRoute(v, upper, dir, parts, es) && es[|parts| - 1] == e {
      FirstOfRoute(v, upper, dir, parts, es);
      if |parts| == 1 {
        assert r == Found(e);
      } else {
        assert r.entry.IsDirectory();
        assert es[1..][|parts| - 2] == e;
      }
    }
    if |parts| == 1 && r == Found(e) {
      assert IsRoute(v, upper, dir, parts, [e]) && [e][0] == e;
    }
  }

  lemma LongerRoute(v: Volume, upper: Casing, dir: Cluster, parts: seq<Bytes>, first: DirEntry, es: seq<DirEntry>)
    requires |parts| > 1 && FirstOf(v, upper, dir, parts[0], first) && first.attributes as int % 32 >= 16
    requires IsRoute(v, upper, first.cluster, parts[1..], es)
    ensures IsRoute(v, upper, dir, parts, [first] + es)
  {
    hide FirstOf;
    var all := [first] + es;
    forall i | 0 <= i < |all| ensures FirstOf(v, upper, LeadsTo(dir, all, i), parts[i], all[i]) {
      if i > 0 {
        assert all[i] == es[i - 1] && parts[i] == parts[1..][i - 1];
        assert LeadsTo(dir, all, i) == LeadsTo(first.cluster, es, i - 1);
      }
    }
    forall i | 0 <= i < |all| - 1 ensures all[i].attributes as int % 32 >= 16 {
      assert i > 0 ==> all[i] == es[i - 1];
    }
  }

  lemma FirstOfRoute(v: Volume, upper: Casing, dir: Cluster, parts: seq<Bytes>, es: seq<DirEntry>)
    requires parts != [] && IsRoute(v, upper, dir, parts, es)
    ensures FindEntry(v, upper, dir, parts[0]) == Found(es[0])
    ensures |parts| > 1 ==> IsRoute(v, upper, es[0].cluster, parts[1..], es[1..]) && es[0].IsDirectory()
  {
    hide FirstOf;
    hide FindEntry;
    assert LeadsTo(dir, es, 0) == dir;
    FoundExactly(v, upper, dir, parts[0], es[0]);
    if |parts| > 1 {
      IsDirectoryIs(es[0]);
      var rest, tail := parts[1..], es[1..];
      forall i | 0 <= i < |tail| ensures FirstOf(v, upper, LeadsTo(es[0].cluster, tail, i), rest[i], tail[i]) {
        assert tail[i] == es[i + 1] && rest[i] == parts[i + 1];
        assert LeadsTo(es[0].cluster, tail, i) == LeadsTo(dir, es, i + 1);
      }
      forall i | 0 <= i < |tail| - 1 ensures tail[i].attributes as int % 32 >= 16 {
        assert tail[i] == es[i + 1];
      }
    }
  }

  /** What is not found, and how. */
  lemma NotFoundHow(v: Volume, upper: Casing, dir: Cluster, name: Bytes)
    requires Ends(v, dir)
    ensures var r := FindEntry(v, upper, dir, name);
            && (ReadDir(v, dir).Err? ==> r == Failed(ReadDir(v, dir).error))
            && (ReadDir(v, dir).Ok? && name == [] ==> r == Failed(Name(FilenameEmpty)))
            && (ReadDir(v, dir).Ok? && HasForbidden(name) ==> r == Failed(Name(InvalidCharacter)))
            && (ReadDir(v, dir).Ok? && ParseAs(name, upper(name)) == Bad(NameTooLong) ==>
                  r == Failed(Name(NameTooLong)))
            && (ReadDir(v, dir).Ok? && ParseAs(name, upper(name)).Good? ==>
                  (r == Missing <==> forall e :: e in ReadDir(v, dir).value ==>
                     e.file != ParseAs(name, upper(name)).file))
  {
    hide AllValid;
    hide HasForbidden;
    AllValidIs(name);
    NothingForbidden();
    if ReadDir(v, dir).Ok? && ParseAs(name, upper(name)).Good? {
      FirstNamedIsFirst(ReadDir(v, dir).value, ParseAs(name, upper(name)).file);
    }
  }

  /** A directory whose first sector cannot be read is not listed. */
  lemma UnreadableFails(v: Volume, c: Cluster)
    requires v.ClusterToSector(c) !in v.disk && SectorsAt(v, c) > 0
    ensures Ends(v, c) && ReadDir(v, c) == Err(Device)
  {
    assert EndsIn(v, c, 0);
  }

  /** A path lookup panics exactly when its walk from the root reaches a name that panics. */
  lemma FindPathPanics(v: Volume, upper: Casing, path: Bytes)
    ensures var core := Core(Split(TrimStart(path), SLASH));
            FindPath(v, upper, path) == Panicked <==>
            TrimStart(path) != [] && exists k: nat :: PanicsAt(v, upper, ROOT_DIR, core, k)
  {
    FindPathStops(v, upper, path, Panicked);
    OutcomesAt(v, upper, Core(Split(TrimStart(path), SLASH)));
  }

  /** A path lookup never returns exactly when its walk from the root reaches a directory whose
      listing never returns. */
  lemma FindPathEndless(v: Volume, upper: Casing, path: Bytes)
    ensures var core := Core(Split(TrimStart(path), SLASH));
            FindPath(v, upper, path) == Endless <==>
            TrimStart(path) != [] && exists k: nat :: EndlessAt(v, upper, ROOT_DIR, core, k)
  {
    FindPathStops(v, upper, path, Endless);
    OutcomesAt(v, upper, Core(Split(TrimStart(path), SLASH)));
  }

  lemma OutcomesAt(v: Volume, upper: Casing, parts: seq<Bytes>)
    ensures forall k: nat :: StopsAt(v, upper, ROOT_DIR, parts, k, Panicked) <==> PanicsAt(v, upper, ROOT_DIR, parts, k)
    ensures forall k: nat :: StopsAt(v, upper, ROOT_DIR, parts, k, Endless) <==> EndlessAt(v, upper, ROOT_DIR, parts, k)
  {
    forall k: nat
      ensures StopsAt(v, upper, ROOT_DIR, parts, k, Panicked) <==> PanicsAt(v, upper, ROOT_DIR, parts, k)
      ensures StopsAt(v, upper, ROOT_DIR, parts, k, Endless) <==> EndlessAt(v, upper, ROOT_DIR, parts, k)
    {
      OutcomeAt(v, upper, ROOT_DIR, parts, k);
    }
  }

  /** What a path lookup returns, for every outcome. */
  lemma FindPathStops(v: Volume, upper: Casing, path: Bytes, outcome: Lookup)
    ensures var core := Core(Split(TrimStart(path), SLASH));
            FindPath(v, upper, path) == outcome <==>
            if TrimStart(path) == [] then outcome == Missing
            else exists k: nat :: StopsAt(v, upper, ROOT_DIR, core, k, outcome)
  {
    FindPathIsWalk(v, upper, path);
    if TrimStart(path) != [] {
      hide Walk;
      hide StopsAt;
      WalkStops(v, upper, ROOT_DIR, Core(Split(TrimStart(path), SLASH)), outcome);
    }
  }

  /** A path lookup finds an entry exactly if there is a route to it from the root. */
  lemma FindPathIsRoute(v: Volume, upper: Casing, path: Bytes, e: DirEntry)
    ensures var core := Core(Split(TrimStart(path), SLASH));
            FindPath(v, upper, path) == Found(e) <==>
            TrimStart(path) != [] && core != [] &&
            exists es: seq<DirEntry> :: IsRoute(v, upper, ROOT_DIR, core, es) && es[|core| - 1] == e
  {
    FindPathIsWalk(v, upper, path);
    if TrimStart(path) != [] {
      hide Walk;
      hide IsRoute;
      WalkIsRoute(v, upper, ROOT_DIR, Core(Split(TrimStart(path), SLASH)), e);
    }
  }

  /** Neither empty nor with a slash in it. */
  predicate Components(parts: seq<Bytes>) {
    forall i :: 0 <= i < |parts| ==> parts[i] != [] && SLASH !in parts[i]
  }

  function Slashes(n: nat): Bytes {
    if n == 0 then [] else [SLASH] + Slashes(n - 1)
  }

  function Empties(n: nat): seq<Bytes> {
    if n == 0 then [] else [[]] + Empties(n - 1)
  }

  lemma {:induction false} SplitSlashes(n: nat)
    ensures Split(Slashes(n), SLASH) == Empties(n + 1)
  {
    if n > 0 {
      SplitSlashes(n - 1);
      assert Slashes(n)[1..] == Slashes(n - 1);
    } else {
      assert Empties(1) == [[]];
    }
  }

  lemma SplitJoined(parts: seq<Bytes>, after: nat)
    requires parts != [] && Components(parts)
    ensures Split(Join(parts, SLASH) + Slashes(after), SLASH) == parts + Empties(after)
  {
    SplitOfJoin(parts, SLASH);
    if after == 0 {
      assert Join(parts, SLASH) + [] == Join(parts, SLASH);
      assert parts + [] == parts;
    } else {
      SplitMiddle(Join(parts, SLASH), SLASH, Slashes(after - 1));
      SplitSlashes(after - 1);
      assert Join(parts, SLASH) + Slashes(after) == Join(parts, SLASH) + [SLASH] + Slashes(after - 1);
    }
  }

  lemma {:induction false} CoreDropsEmpties(parts: seq<Bytes>, n: nat)
    requires parts != [] && parts[|parts| - 1] != []
    ensures Core(parts + Empties(n)) == parts
    decreases n
  {
    if n == 0 {
      assert parts + [] == parts;
    } else {
      hide Empties;
      EmptiesEnd(n);
      var all := parts + Empties(n);
      assert all[|all| - 1] == [];
      assert all[..|all| - 1] == parts + Empties(n - 1);
      CoreDropsEmpties(parts, n - 1);
    }
  }

  lemma {:induction false} EmptiesEnd(n: nat)
    requires n > 0
    ensures |Empties(n)| == n && Empties(n) == Empties(n - 1) + [[]]
  {
    if n > 1 {
      EmptiesEnd(n - 1);
    }
  }

  lemma {:induction false} TrimSlashes(n: nat, s: Bytes)
    requires s != [] && s[0] != SLASH
    ensures TrimStart(Slashes(n) + s) == s
  {
    if n == 0 {
      assert [] + s == s;
    } else {
      assert (Slashes(n) + s)[1..] == Slashes(n - 1) + s;
      TrimSlashes(n - 1, s);
    }
  }

  /** Any number of slashes before and after well-formed components: the lookup walks exactly these
      components from the root. */
  lemma PathOfComponents(v: Volume, upper: Casing, before: nat, parts: seq<Bytes>, after: nat)
    requires parts != [] && Components(parts)
    ensures FindPath(v, upper, Slashes(before) + Join(parts, SLASH) + Slashes(after)) == Walk(v, upper, ROOT_DIR, parts)
  {
    var p := Join(parts, SLASH) + Slashes(after);
    assert Slashes(before) + Join(parts, SLASH) + Slashes(after) == Slashes(before) + p;
    assert p[0] == parts[0][0];
    TrimSlashes(before, p);
    SplitJoined(parts, after);
    CoreDropsEmpties(parts, after);
    FindPathIsWalk(v, upper, Slashes(before) + p);
  }

  // ---------------------------------------------------------------------
  // The loops
  // ---------------------------------------------------------------------

  lemma BeforeTwice(a: seq<DirEntry>, b: seq<DirEntry>, s: Scan)
    ensures Before(a, Before(b, s)) == Before(a + b, s) && Before([], s) == s
  {
    assert a + (b + s.entries) == (a + b) + s.entries;
    assert [] + s.entries == s.entries;
  }

  function Listed(record: Bytes): seq<DirEntry>
    requires |record| == RECORD
  {
    if IsListed(record) then [EntryOf(record)] else []
  }

  lemma SectorStep(block: Block, j: nat)
    requires j < SECTOR / RECORD
    ensures var record := block[j * RECORD..j * RECORD + RECORD];
            ScanSector(block, j)
            == if IsEnd(record) then Scan([], true) else Before(Listed(record), ScanSector(block, j + 1))
    ensures ScanSector(block, SECTOR / RECORD) == Scan([], false)
  {
  }

  method ScanBlock(block: Block) returns (s: Scan)
    ensures s == ScanSector(block, 0)
  {
    hide ScanSector;
    var entries: seq<DirEntry> := [];
    BeforeTwice([], [], ScanSector(block, 0));
    SectorStep(block, 0);
    var j := 0;
    while j < SECTOR / RECORD
      invariant 0 <= j <= SECTOR / RECORD
      invariant Before(entries, ScanSector(block, j)) == ScanSector(block, 0)
    {
      var record := block[j * RECORD..j * RECORD + RECORD];
      SectorStep(block, j);
      assert entries + [] == entries;
      if record[0] == 0 {
        return Scan(entries, true);
      }
      BeforeTwice(entries, Listed(record), ScanSector(block, j + 1));
      if record[0] != 0xE5 {
        var entry := EntryOf(record);
        if !entry.IsLongName() {
          entries := entries + [entry];
        }
      }
      j := j + 1;
    }
    assert entries + [] == entries;
    return Scan(entries, false);
  }

  function BeforeIfOk(entries: seq<DirEntry>, r: Result<Scan, FsError>): Result<Scan, FsError> {
    if r.Err? then r else Ok(Before(entries, r.value))
  }

  lemma BeforeIfOkTwice(a: seq<DirEntry>, b: seq<DirEntry>, r: Result<Scan, FsError>)
    ensures BeforeIfOk(a, BeforeIfOk(b, r)) == BeforeIfOk(a + b, r) && BeforeIfOk([], r) == r
  {
    if r.Ok? {
      BeforeTwice(a, b, r.value);
    }
  }

  lemma SectorsStep(v: Volume, first: nat, n: nat)
    requires n > 0
    ensures var block := v.ReadBlock(first);
            && (block.Err? ==> ScanSectors(v, first, n) == Err(block.error))
            && (block.Ok? && ScanSector(block.value, 0).ended ==>
                  ScanSectors(v, first, n) == Ok(ScanSector(block.value, 0)))
            && (block.Ok? && !ScanSector(block.value, 0).ended ==>
                  ScanSectors(v, first, n)
                  == BeforeIfOk(ScanSector(block.value, 0).entries, ScanSectors(v, first + 1, n - 1)))
  {
  }

  method ScanRegion(v: Volume, first: nat, n: nat) returns (r: Result<Scan, FsError>)
    ensures r == ScanSectors(v, first, n)
  {
    hide ScanSectors;
    hide ScanSector;
    var entries: seq<DirEntry> := [];
    BeforeIfOkTwice([], [], ScanSectors(v, first, n));
    var i := 0;
    while i < n
      invariant 0 <= i <= n
      invariant BeforeIfOk(entries, ScanSectors(v, first + i, n - i)) == ScanSectors(v, first, n)
    {
      SectorsStep(v, first + i, n - i);
      var block := v.ReadBlock(first + i);
      if block.Err? {
        return Err(block.error);
      }
      var here := ScanBlock(block.value);
      if here.ended {
        return Ok(Scan(entries + here.entries, true));
      }
      BeforeIfOkTwice(entries, here.entries, ScanSectors(v, first + i + 1, n - i - 1));
      entries := entries + here.entries;
      i := i + 1;
    }
    NoSectors(v, first + n);
    assert entries + [] == entries;
    return Ok(Scan(entries, false));
  }

  lemma NoSectors(v: Volume, first: nat)
    ensures ScanSectors(v, first, 0) == Ok(Scan([], false))
  {
  }

  function Append(entries: seq<DirEntry>, r: Result<seq<DirEntry>, FsError>): Result<seq<DirEntry>, FsError> {
    if r.Err? then r else Ok(entries + r.value)
  }

  lemma AppendTwice(a: seq<DirEntry>, b: seq<DirEntry>, r: Result<seq<DirEntry>, FsError>)
    ensures Append(a, Append(b, r)) == Append(a + b, r) && Append([], r) == r
  {
    if r.Ok? {
      assert a + (b + r.value) == (a + b) + r.value;
      assert [] + r.value == r.value;
    }
  }

  method ReadDirEntries(v: Volume, dir: Cluster) returns (r: Result<seq<DirEntry>, FsError>)
    requires Ends(v, dir)
    ensures r == ReadDir(v, dir)
  {
    hide ScanSectors;
    var entries: seq<DirEntry>, c := [], dir;
    AppendTwice([], [], ReadDir(v, dir));
    while true
      invariant Ends(v, c) && Append(entries, ReadDir(v, c)) == ReadDir(v, dir)
      decreases Left(v, c)
    {
      var here := ScanRegion(v, v.ClusterToSector(c), SectorsAt(v, c));
      if here.Err? {
        return Err(here.error);
      }
      if here.value.ended || c == ROOT_DIR {
        return Ok(entries + here.value.entries);
      }
      var next := v.NextCluster(c);
      if next.Err? || next.value.None? {
        return Ok(entries + here.value.entries);
      }
      LeftGoesDown(v, c);
      AppendTwice(entries, here.value.entries, ReadDir(v, next.value.value));
      entries := entries + here.value.entries;
      c := next.value.value;
    }
  }

  method LookUp(v: Volume, upper: Casing, dir: Cluster, name: Bytes) returns (r: Lookup)
    requires Ends(v, dir)
    ensures r == FindEntry(v, upper, dir, name)
  {
    var entries := ReadDirEntries(v, dir);
    if entries.Err? {
      return Failed(entries.error);
    }
    var target := ParseName(name, upper(name));
    if target.Bad? {
      return Failed(Name(target.error));
    }
    if target.Panic? {
      return Panicked;
    }
    var i := 0;
    assert entries.value[0..] == entries.value;
    while i < |entries.value|
      invariant 0 <= i <= |entries.value|
      invariant FirstNamed(entries.value[i..], target.file) == FirstNamed(entries.value, target.file)
    {
      assert entries.value[i..][0] == entries.value[i] && entries.value[i..][1..] == entries.value[i + 1..];
      if entries.value[i].file == target.file {
        return Found(entries.value[i]);
      }
      i := i + 1;
    }
    return Missing;
  }

  lemma EndlessFirst(v: Volume, upper: Casing, dir: Cluster, name: Bytes)
    ensures FindEntry(v, upper, dir, name) == Endless <==> !Ends(v, dir)
  {
  }

  method LookUpPath(v: Volume, upper: Casing, path: Bytes) returns (r: Lookup)
    requires FindPath(v, upper, path) != Endless
    ensures r == FindPath(v, upper, path)
  {
    hide FindEntry;
    hide Split;
    hide NonEmpty;
    hide TrimStart;
    var trimmed := TrimStart(path);
    if trimmed == [] {
      return Missing;
    }
    var parts := Split(trimmed, SLASH);
    var length := CountComponents(parts);
    var dir, i := ROOT_DIR, 0;
    while i < |parts|
      invariant 0 <= i <= |parts|
      invariant PathLoop(v, upper, dir, parts, i, length) == FindPath(v, upper, path)
    {
      EndlessFirst(v, upper, dir, parts[i]);
      r := LookUp(v, upper, dir, parts[i]);
      if !r.Found? || i + 1 == length {
        return r;
      }
      if !r.entry.IsDirectory() {
        return Failed(NotADirectory);
      }
      dir := r.entry.cluster;
      i := i + 1;
    }
    return Missing;
  }

  method CountComponents(parts: seq<Bytes>) returns (n: nat)
    ensures n == NonEmpty(parts)
  {
    n := 0;
    var i := 0;
    assert parts[..0] == [];
    while i < |parts|
      invariant 0 <= i <= |parts| && n == NonEmpty(parts[..i])
    {
      assert parts[..i + 1] == parts[..i] + [parts[i]];
      NonEmptyJoin(parts[..i], [parts[i]]);
      if parts[i] != [] {
        n := n + 1;
      }
      i := i + 1;
    }
    assert parts[..|parts|] == parts;
  }
}
