/**
  The FAT table and the data area of metadata/fat12.go: 12-bit entries packed three bytes to a pair,
  cluster chains, and the reader that follows them. The layout is that of the Microsoft FAT
  specification version 1.03, section "FAT Data Structure".
*/
module Fat12 {
  import opened Common

  const SECTOR := 512
  const TOTAL_SECTORS := 2048
  const FAT_BYTES := 3072
  const ROOT_ENTRIES := 128
  const ENTRY_SIZE := 32
  const FIRST_DATA := 21
  const EOC := 0xFFF
  /** One past the last cluster: the first two numbers are reserved. */
  const CLUSTER_LIMIT := 2029

  // ----- 12-bit entries

  function Offset(cluster: nat): nat { cluster + cluster / 2 }

  predicate HasEntry(fat: seq<byte>, cluster: nat) { Offset(cluster) + 1 < |fat| }

  /** The little-endian word at an offset. */
  function Word(b: seq<byte>, at: nat): (w: nat)
    requires at + 1 < |b|
    ensures w < 0x1_0000
  {
    var low: int, high: int := b[at], b[at + 1];
    low + 0x100 * high
  }

  /** The reader's view of one entry. */
  function Entry(fat: seq<byte>, cluster: nat): (e: nat)
    requires HasEntry(fat, cluster)
    ensures e < 0x1000
  {
    var w := Word(fat, Offset(cluster));
    if cluster % 2 == 0 then w % 0x1000 else w / 0x10
  }

  /** The word setFATEntry stores: the masks and shifts of the source as division and remainder. */
  function Merged(word: nat, cluster: nat, val: nat): (w: nat)
    requires word < 0x1_0000
    ensures w < 0x1_0000
  {
    if cluster % 2 == 0 then word / 0x1000 * 0x1000 + val % 0x1000 else word % 0x10 + val % 0x1000 * 0x10
  }

  function Updated(fat: seq<byte>, cluster: nat, val: nat): (r: seq<byte>)
    requires HasEntry(fat, cluster)
    ensures |r| == |fat|
  {
    var at := Offset(cluster);
    var w := Merged(Word(fat, at), cluster, val);
    fat[at := w % 0x100][at + 1 := w / 0x100]
  }

  lemma UpdatedWord(fat: seq<byte>, cluster: nat, val: nat)
    requires HasEntry(fat, cluster)
    ensures Word(Updated(fat, cluster, val), Offset(cluster)) == Merged(Word(fat, Offset(cluster)), cluster, val)
  {
  }

  lemma MergedReads(word: nat, cluster: nat, val: nat)
    requires word < 0x1_0000
    ensures cluster % 2 == 0 ==>
            Merged(word, cluster, val) % 0x1000 == val % 0x1000 && Merged(word, cluster, val) / 0x1000 == word / 0x1000
    ensures cluster % 2 == 1 ==>
            Merged(word, cluster, val) / 0x10 == val % 0x1000 && Merged(word, cluster, val) % 0x10 == word % 0x10
  {
  }

  /** An even entry is a byte and a low nibble, an odd one a high nibble and a byte. */
  lemma Nibbles(low: int, high: int)
    requires 0 <= low < 0x100 && 0 <= high < 0x100
    ensures (low + 0x100 * high) % 0x1000 == low + 0x100 * (high % 0x10)
    ensures (low + 0x100 * high) / 0x10 == low / 0x10 + 0x10 * high
    ensures (low + 0x100 * high) / 0x1000 == high / 0x10 && (low + 0x100 * high) % 0x10 == low % 0x10
  {
  }

  lemma WordNibbles(w: int)
    requires 0 <= w < 0x1_0000
    ensures w / 0x100 / 0x10 == w / 0x1000 && w % 0x100 % 0x10 == w % 0x10
  {
  }

  function EntryOf(odd: bool, low: int, high: int): int {
    if odd then low / 0x10 + 0x10 * high else low + 0x100 * (high % 0x10)
  }

  lemma EntryBytes(fat: seq<byte>, cluster: nat)
    requires HasEntry(fat, cluster)
    ensures Entry(fat, cluster) == EntryOf(cluster % 2 == 1, fat[Offset(cluster)], fat[Offset(cluster) + 1])
  {
    Nibbles(fat[Offset(cluster)], fat[Offset(cluster) + 1]);
  }

  /** Writing an entry is read back, and disturbs no other entry, not even the one that shares a byte. */
  lemma EntryWritten(fat: seq<byte>, cluster: nat, val: nat, other: nat)
    requires HasEntry(fat, cluster) && HasEntry(fat, other)
    ensures Entry(Updated(fat, cluster, val), cluster) == val % 0x1000
    ensures other != cluster ==> Entry(Updated(fat, cluster, val), other) == Entry(fat, other)
  {
    UpdatedWord(fat, cluster, val);
    MergedReads(Word(fat, Offset(cluster)), cluster, val);
    if other == cluster + 1 && cluster % 2 == 0 {
      NextKeepsNibble(fat, cluster, val);
    } else if other + 1 == cluster && cluster % 2 == 1 {
      PreviousKeepsNibble(fat, cluster, val);
    } else if other != cluster {
      assert Offset(other) + 1 < Offset(cluster) || Offset(cluster) + 1 < Offset(other);
    }
  }

  lemma NextKeepsNibble(fat: seq<byte>, cluster: nat, val: nat)
    requires HasEntry(fat, cluster) && HasEntry(fat, cluster + 1) && cluster % 2 == 0
    ensures Entry(Updated(fat, cluster, val), cluster + 1) == Entry(fat, cluster + 1)
  {
    var at, next := Offset(cluster), Updated(fat, cluster, val);
    var w := Word(fat, at);
    assert next[at + 1] / 0x10 == fat[at + 1] / 0x10 by {
      MergedReads(w, cluster, val);
      WordNibbles(Merged(w, cluster, val));
      Nibbles(fat[at], fat[at + 1]);
    }
    EntryBytes(fat, cluster + 1);
    EntryBytes(next, cluster + 1);
  }

  lemma PreviousKeepsNibble(fat: seq<byte>, cluster: nat, val: nat)
    requires HasEntry(fat, cluster) && cluster % 2 == 1
    ensures HasEntry(fat, cluster - 1) && Entry(Updated(fat, cluster, val), cluster - 1) == Entry(fat, cluster - 1)
  {
    var at, next := Offset(cluster), Updated(fat, cluster, val);
    var w := Word(fat, at);
    assert next[at] % 0x10 == fat[at] % 0x10 by {
      MergedReads(w, cluster, val);
      WordNibbles(Merged(w, cluster, val));
      Nibbles(fat[at], fat[at + 1]);
    }
    EntryBytes(fat, cluster - 1);
    EntryBytes(next, cluster - 1);
  }

  method SetFATEntry(fat: array<byte>, cluster: nat, val: nat)
    requires HasEntry(fat[..], cluster) && val < 0x1_0000
    modifies fat
    ensures fat[..] == Updated(old(fat[..]), cluster, val)
  {
    var at := cluster + cluster / 2;
    var low: int, high: int := fat[at], fat[at + 1];
    var word := low + 0x100 * high;
    if cluster % 2 == 0 {
      word := word / 0x1000 * 0x1000 + val % 0x1000;
    } else {
      word := word % 0x10 + val % 0x1000 * 0x10;
    }
    fat[at] := word % 0x100;
    fat[at + 1] := word / 0x100;
  }

  /** An even entry is a byte and the low nibble of the next, an odd one a high nibble and the byte after it. */
  lemma UpdatedBytes(fat: seq<byte>, cluster: nat, val: nat)
    requires HasEntry(fat, cluster)
    ensures var at := cluster + cluster / 2; var r := Updated(fat, cluster, val);
            && |r| == |fat| && at + 1 < |r|
            && (forall i | 0 <= i < |fat| && i != at && i != at + 1 :: r[i] == fat[i])
            && if cluster % 2 == 0
               then r[at] == val % 0x100 && r[at + 1] == fat[at + 1] / 0x10 * 0x10 + val / 0x100 % 0x10
               else r[at] == fat[at] % 0x10 + val % 0x10 * 0x10 && r[at + 1] == val / 0x10 % 0x100
  {
    var at := cluster + cluster / 2;
    StoredBytes(fat[at], fat[at + 1], cluster % 2 == 0, val, Merged(Word(fat, at), cluster, val));
  }

  /** The two bytes of the stored word, nibble by nibble. */
  lemma StoredBytes(low: int, high: int, even: bool, val: nat, word: nat)
    requires 0 <= low < 0x100 && 0 <= high < 0x100
    requires word == if even then (low + 0x100 * high) / 0x1000 * 0x1000 + val % 0x1000
                     else (low + 0x100 * high) % 0x10 + val % 0x1000 * 0x10
    ensures word % 0x100 == if even then val % 0x100 else low % 0x10 + val % 0x10 * 0x10
    ensures word / 0x100 == if even then high / 0x10 * 0x10 + val / 0x100 % 0x10 else val / 0x10 % 0x100
  {
    LowTwelve(val);
    if even {
      assert (low + 0x100 * high) / 0x1000 == high / 0x10;
      EvenWord(high / 0x10, val % 0x1000);
    } else {
      assert (low + 0x100 * high) % 0x10 == low % 0x10;
      OddWord(low % 0x10, val % 0x1000);
    }
  }

  lemma LowTwelve(val: nat)
    ensures val % 0x1000 % 0x100 == val % 0x100 && val % 0x1000 % 0x10 == val % 0x10
    ensures val % 0x1000 / 0x100 == val / 0x100 % 0x10 && val % 0x1000 / 0x10 == val / 0x10 % 0x100
  {
    LowByte(val / 0x1000, val % 0x1000);
    LowNibble(val / 0x1000, val % 0x1000);
  }

  lemma LowByte(q: nat, v: nat)
    requires v < 0x1000
    ensures v % 0x100 == (0x1000 * q + v) % 0x100 && v / 0x100 == (0x1000 * q + v) / 0x100 % 0x10
  {
    assert (0x1000 * q + v) / 0x100 == 0x10 * q + v / 0x100;
  }

  lemma LowNibble(q: nat, v: nat)
    requires v < 0x1000
    ensures v % 0x10 == (0x1000 * q + v) % 0x10 && v / 0x10 == (0x1000 * q + v) / 0x10 % 0x100
  {
    assert (0x1000 * q + v) / 0x10 == 0x100 * q + v / 0x10;
  }

  lemma EvenWord(q: int, v: int)
    requires 0 <= q < 0x10 && 0 <= v < 0x1000
    ensures (q * 0x1000 + v) % 0x100 == v % 0x100 && (q * 0x1000 + v) / 0x100 == q * 0x10 + v / 0x100
  {
  }

  lemma OddWord(n: int, v: int)
    requires 0 <= n < 0x10 && 0 <= v < 0x1000
    ensures (n + v * 0x10) % 0x100 == n + v % 0x10 * 0x10 && (n + v * 0x10) / 0x100 == v / 0x10
  {
  }

  // ----- chains

  predicate FatSized(fat: seq<byte>) { |fat| == FAT_BYTES }

  /** The entries a reader sees in the table, one per cluster. */
  ghost predicate Tabulates(fat: seq<byte>, table: seq<nat>) {
    FatSized(fat) && |table| == CLUSTER_LIMIT && forall c | 0 <= c < CLUSTER_LIMIT :: Entry(fat, c) == table[c]
  }

  ghost function TableOf(fat: seq<byte>): (table: seq<nat>)
    requires FatSized(fat)
    ensures Tabulates(fat, table)
  {
    seq(CLUSTER_LIMIT, c requires 0 <= c < CLUSTER_LIMIT => Entry(fat, c))
  }

  function LinkValue(start: nat, n: nat, c: nat): nat { if c + 1 == start + n then EOC else c + 1 }

  /** n clusters from start on, each naming the next and the last naming the end of the chain. */
  predicate ChainIs(table: seq<nat>, start: nat, n: nat)
    requires start + n <= |table|
  {
    forall c | start <= c < start + n :: table[c] == LinkValue(start, n, c)
  }

  /** Entries outside a range of clusters are as before. */
  predicate SameOutside(table: seq<nat>, before: seq<nat>, start: nat, n: nat) {
    |table| == |before| && forall c | 0 <= c < |table| && !(start <= c < start + n) :: table[c] == before[c]
  }

  lemma TableWritten(fat: seq<byte>, table: seq<nat>, cluster: nat, val: nat)
    requires Tabulates(fat, table) && cluster < CLUSTER_LIMIT && val < 0x1000
    ensures Tabulates(Updated(fat, cluster, val), table[cluster := val])
  {
    var next := Updated(fat, cluster, val);
    forall d | 0 <= d < CLUSTER_LIMIT ensures Entry(next, d) == table[cluster := val][d] {
      EntryWritten(fat, cluster, val, d);
      assert Entry(fat, d) == table[d];
    }
  }

  /** addFile's chain loop. */
  method LinkClusters(fat: array<byte>, start: nat, n: nat, ghost table: seq<nat>) returns (ghost t: seq<nat>)
    requires Tabulates(fat[..], table) && start + n <= CLUSTER_LIMIT
    modifies fat
    ensures Tabulates(fat[..], t) && ChainIs(t, start, n) && SameOutside(t, table, start, n)
  {
    t := table;
    for i := 0 to n
      invariant Tabulates(fat[..], t) && SameOutside(t, table, start, i)
      invariant forall c | start <= c < start + i :: t[c] == LinkValue(start, n, c)
    {
      var c := start + i;
      TableWritten(fat[..], t, c, LinkValue(start, n, c));
      t := t[c := LinkValue(start, n, c)];
      if i == n - 1 {
        SetFATEntry(fat, c, EOC);
      } else {
        SetFATEntry(fat, c, c + 1);
      }
    }
  }

  /** The clusters a reader visits from c on, None for a broken chain; steps bounds any walk over a 12-bit table. */
  function Follow(fat: seq<byte>, c: nat, steps: nat): Option<seq<nat>>
    requires FatSized(fat)
    decreases steps
  {
    if c >= 0xFF8 then Some([])
    else if c < 2 || c >= CLUSTER_LIMIT || steps == 0 then None
    else match Follow(fat, Entry(fat, c), steps - 1)
         case None => None
         case Some(rest) => Some([c] + rest)
  }

  function Range(lo: nat, hi: nat): (r: seq<nat>)
    requires lo <= hi
    ensures |r| == hi - lo && forall i | 0 <= i < |r| :: r[i] == lo + i
  {
    seq(hi - lo, i requires 0 <= i => lo + i)
  }

  lemma {:induction false} FollowChain(fat: seq<byte>, table: seq<nat>, start: nat, n: nat, c: nat, steps: nat)
    requires Tabulates(fat, table) && 2 <= start && start + n <= CLUSTER_LIMIT && ChainIs(table, start, n)
    requires start <= c < start + n && steps >= start + n - c
    ensures Follow(fat, c, steps) == Some(Range(c, start + n))
    decreases steps
  {
    assert Entry(fat, c) == table[c];
    if c == start + n - 1 {
      assert Follow(fat, EOC, steps - 1) == Some([]);
      assert [c] + [] == Range(c, start + n);
    } else {
      FollowChain(fat, table, start, n, c + 1, steps - 1);
      assert [c] + Range(c + 1, start + n) == Range(c, start + n);
    }
  }

  // ----- the data area and the reader

  function Clusters(n: nat): nat { (n + SECTOR - 1) / SECTOR }

  /** The content filled up with zeros to whole sectors. */
  function Padded(content: seq<byte>): (p: seq<byte>)
    ensures |p| == SECTOR * Clusters(|content|)
  {
    content + Zeros(SECTOR * Clusters(|content|) - |content|)
  }

  function DataArea(data: seq<seq<byte>>): seq<byte> {
    if data == [] then [] else DataArea(data[..|data| - 1]) + Padded(data[|data| - 1])
  }

  function TotalClusters(data: seq<seq<byte>>): nat {
    if data == [] then 0 else TotalClusters(data[..|data| - 1]) + Clusters(|data[|data| - 1]|)
  }

  lemma {:induction false} DataAreaLength(data: seq<seq<byte>>)
    ensures |DataArea(data)| == SECTOR * TotalClusters(data)
  {
    if data != [] {
      DataAreaLength(data[..|data| - 1]);
    }
  }

  /** The image's parts, in order. */
  function Image(boot: seq<byte>, fat: seq<byte>, root: seq<byte>, data: seq<seq<byte>>): seq<byte>
    requires TotalClusters(data) <= TOTAL_SECTORS - FIRST_DATA
  {
    boot + fat + fat + root + DataArea(data) + Zeros(SECTOR * (TOTAL_SECTORS - FIRST_DATA - TotalClusters(data)))
  }

  predicate Sized(boot: seq<byte>, fat: seq<byte>, root: seq<byte>) {
    |boot| == SECTOR && FatSized(fat) && |root| == ROOT_ENTRIES * ENTRY_SIZE
  }

  const IMAGE_BYTES := 1048576

  function FatOf(img: seq<byte>): (fat: seq<byte>)
    requires |img| == IMAGE_BYTES
    ensures FatSized(fat)
  {
    img[512..3584]
  }

  function RootOf(img: seq<byte>): seq<byte>
    requires |img| == IMAGE_BYTES
  {
    img[6656..10752]
  }

  /** The data sector of a cluster. */
  function ClusterBytes(img: seq<byte>, c: nat): seq<byte>
    requires |img| == IMAGE_BYTES && 2 <= c < CLUSTER_LIMIT
  {
    img[SECTOR * (FIRST_DATA + c - 2)..SECTOR * (FIRST_DATA + c - 2) + SECTOR]
  }

  function ReadClusters(img: seq<byte>, cs: seq<nat>): seq<byte>
    requires |img| == IMAGE_BYTES && forall i | 0 <= i < |cs| :: 2 <= cs[i] < CLUSTER_LIMIT
  {
    if cs == [] then [] else ReadClusters(img, cs[..|cs| - 1]) + ClusterBytes(img, cs[|cs| - 1])
  }

  lemma {:induction false} FollowInRange(fat: seq<byte>, c: nat, steps: nat)
    requires FatSized(fat)
    ensures Follow(fat, c, steps).Some? ==>
            forall i | 0 <= i < |Follow(fat, c, steps).value| :: 2 <= Follow(fat, c, steps).value[i] < CLUSTER_LIMIT
    decreases steps
  {
    if 2 <= c < CLUSTER_LIMIT && steps > 0 {
      FollowInRange(fat, Entry(fat, c), steps - 1);
    }
  }

  /** The reader: follow the chain from start, join the sectors, cut at the size. */
  function ReadFile(img: seq<byte>, start: nat, size: nat): Option<seq<byte>>
    requires |img| == IMAGE_BYTES
  {
    if size == 0 then Some([])
    else match Follow(FatOf(img), start, 0x1000)
         case None => None
         case Some(cs) =>
           FollowInRange(FatOf(img), start, 0x1000);
           Cut(ReadClusters(img, cs), size)
  }

  function Cut(bytes: seq<byte>, size: nat): Option<seq<byte>> { if size > |bytes| then None else Some(bytes[..size]) }

  lemma ImageParts(boot: seq<byte>, fat: seq<byte>, root: seq<byte>, data: seq<seq<byte>>)
    requires Sized(boot, fat, root) && TotalClusters(data) <= TOTAL_SECTORS - FIRST_DATA
    ensures var img := Image(boot, fat, root, data);
            && |img| == IMAGE_BYTES && FatOf(img) == fat && img[3584..6656] == fat && RootOf(img) == root
            && img[10752..10752 + |DataArea(data)|] == DataArea(data)
  {
    DataAreaLength(data);
    var img := Image(boot, fat, root, data);
    assert img[512..3584] == fat;
    assert img[3584..6656] == fat;
    assert img[6656..10752] == root;
  }

  /** Consecutive clusters are consecutive bytes. */
  lemma {:induction false} ReadRange(img: seq<byte>, lo: nat, hi: nat)
    requires |img| == IMAGE_BYTES && 2 <= lo <= hi <= CLUSTER_LIMIT
    ensures forall i | 0 <= i < |Range(lo, hi)| :: 2 <= Range(lo, hi)[i] < CLUSTER_LIMIT
    ensures ReadClusters(img, Range(lo, hi)) == img[SECTOR * (FIRST_DATA + lo - 2)..SECTOR * (FIRST_DATA + hi - 2)]
    decreases hi
  {
    if hi > lo {
      ReadRange(img, lo, hi - 1);
      assert Range(lo, hi)[..hi - 1 - lo] == Range(lo, hi - 1);
      assert Range(lo, hi)[hi - 1 - lo] == hi - 1;
    }
  }

  /** Where the i-th content starts. */
  function StartOf(data: seq<seq<byte>>, i: nat): nat
    requires i <= |data|
  {
    2 + TotalClusters(data[..i])
  }

  lemma {:induction false} DataSlice(data: seq<seq<byte>>, i: nat)
    requires i < |data|
    ensures var from := SECTOR * TotalClusters(data[..i]); var p := Padded(data[i]);
            from + |p| <= |DataArea(data)| && DataArea(data)[from..from + |p|] == p
    decreases |data|
  {
    var init := data[..|data| - 1];
    DataAreaLength(init);
    if i < |data| - 1 {
      DataSlice(init, i);
      assert init[..i] == data[..i];
    } else {
      assert data[..i] == init;
    }
  }

  lemma {:induction false} TotalUpTo(data: seq<seq<byte>>, i: nat)
    requires i < |data|
    ensures TotalClusters(data[..i]) + Clusters(|data[i]|) <= TotalClusters(data)
    decreases |data|
  {
    var init := data[..|data| - 1];
    if i < |data| - 1 {
      TotalUpTo(init, i);
      assert init[..i] == data[..i];
    } else {
      assert data[..i] == init;
    }
  }

  /** A content's sectors lie together in the image. */
  lemma FileSlice(boot: seq<byte>, fat: seq<byte>, root: seq<byte>, data: seq<seq<byte>>, i: nat)
    requires Sized(boot, fat, root) && TotalClusters(data) <= TOTAL_SECTORS - FIRST_DATA && i < |data|
    ensures var img := Image(boot, fat, root, data); var s := StartOf(data, i); var n := Clusters(|data[i]|);
            && s + n <= CLUSTER_LIMIT && |img| == IMAGE_BYTES
            && img[SECTOR * (FIRST_DATA + s - 2)..SECTOR * (FIRST_DATA + s + n - 2)] == Padded(data[i])
  {
    ImageParts(boot, fat, root, data);
    TotalUpTo(data, i);
    DataSlice(data, i);
    AreaSlice(Image(boot, fat, root, data), DataArea(data), Padded(data[i]), TotalClusters(data[..i]),
              Clusters(|data[i]|));
  }

  lemma AreaSlice(img: seq<byte>, area: seq<byte>, part: seq<byte>, t: nat, n: nat)
    requires 10752 + |area| <= |img| && img[10752..10752 + |area|] == area
    requires SECTOR * t + SECTOR * n <= |area| && area[SECTOR * t..SECTOR * t + SECTOR * n] == part
    ensures img[SECTOR * (FIRST_DATA + t)..SECTOR * (FIRST_DATA + t + n)] == part
  {
    Subslice(img, 10752, |area|, SECTOR * t, SECTOR * n);
  }

  lemma Subslice(b: seq<byte>, from: nat, len: nat, at: nat, n: nat)
    requires from + len <= |b| && at + n <= len
    ensures b[from..from + len][at..at + n] == b[from + at..from + at + n]
  {
    var x, y := b[from..from + len][at..at + n], b[from + at..from + at + n];
    forall i | 0 <= i < n ensures x[i] == y[i] {
      assert x[i] == b[from..from + len][at + i];
    }
  }

  predicate ReadsAs(img: seq<byte>, start: nat, content: seq<byte>)
    requires |img| == IMAGE_BYTES
  {
    ReadFile(img, start, |content|) == Some(content)
  }

  /** Following the chain from a content's first cluster recovers exactly its bytes. */
  lemma ReadBack(boot: seq<byte>, fat: seq<byte>, root: seq<byte>, data: seq<seq<byte>>, table: seq<nat>, i: nat)
    requires Sized(boot, fat, root) && TotalClusters(data) <= TOTAL_SECTORS - FIRST_DATA
    requires i < |data| && data[i] != [] && StartOf(data, i) + Clusters(|data[i]|) <= CLUSTER_LIMIT
    requires Tabulates(fat, table) && ChainIs(table, StartOf(data, i), Clusters(|data[i]|))
    ensures var img := Image(boot, fat, root, data);
            && |img| == IMAGE_BYTES
            && Follow(FatOf(img), StartOf(data, i), 0x1000) ==
              Some(Range(StartOf(data, i), StartOf(data, i) + Clusters(|data[i]|)))
            && ReadsAs(img, StartOf(data, i), data[i])
  {
    ImageParts(boot, fat, root, data);
    FileSlice(boot, fat, root, data, i);
    ReadsFrom(Image(boot, fat, root, data), table, StartOf(data, i), data[i]);
  }

  /** Any image whose FAT holds the chain and whose sectors hold the padded content. */
  lemma ReadsFrom(img: seq<byte>, table: seq<nat>, s: nat, content: seq<byte>)
    requires |img| == IMAGE_BYTES && content != [] && 2 <= s && s + Clusters(|content|) <= CLUSTER_LIMIT
    requires Tabulates(FatOf(img), table) && ChainIs(table, s, Clusters(|content|))
    requires img[SECTOR * (FIRST_DATA + s - 2)..SECTOR * (FIRST_DATA + s + Clusters(|content|) - 2)] == Padded(content)
    ensures Follow(FatOf(img), s, 0x1000) == Some(Range(s, s + Clusters(|content|))) && ReadsAs(img, s, content)
  {
    FollowChain(FatOf(img), table, s, Clusters(|content|), s, 0x1000);
    JoinAndCut(img, s, content);
  }

  lemma CutPadded(content: seq<byte>)
    ensures Cut(Padded(content), |content|) == Some(content)
  {
    assert Padded(content)[..|content|] == content;
  }

  lemma JoinAndCut(img: seq<byte>, s: nat, content: seq<byte>)
    requires |img| == IMAGE_BYTES && content != [] && 2 <= s && s + Clusters(|content|) <= CLUSTER_LIMIT
    requires Follow(FatOf(img), s, 0x1000) == Some(Range(s, s + Clusters(|content|)))
    requires img[SECTOR * (FIRST_DATA + s - 2)..SECTOR * (FIRST_DATA + s + Clusters(|content|) - 2)] == Padded(content)
    ensures ReadsAs(img, s, content)
  {
    var cs := Range(s, s + Clusters(|content|));
    ReadRange(img, s, s + Clusters(|content|));
    CutPadded(content);
    assert Cut(ReadClusters(img, cs), |content|) == Some(content);
  }
}
