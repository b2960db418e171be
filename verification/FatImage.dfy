/**
  The image writer of metadata/fat12.go: files are added to a FAT, a root directory and a data area, and
  streamed as a 1 MiB FAT12 image; the reader here lists the root directory and reads each file back.

  How a name is spelled in 8.3 form, and whether it needs a long name, is the business of ShortNames.
*/
module FatImage {
  import opened Common
  import opened Fat12
  import opened Vfat

  const ROOT_BYTES := 4096

  /** A file to store: its long name if it needs one, its eleven-byte short name, its bytes. */
  datatype Input = Input(long: Option<seq<unit>>, short: seq<byte>, content: seq<byte>)

  predicate Accepted(f: Input) { |f.short| == 11 }

  /** The file's long name, if it has one, reads back. */
  predicate ReadableName(f: Input) { f.long.Some? ==> Named(f.long.value) }

  predicate AllAccepted(files: seq<Input>) { forall i | 0 <= i < |files| :: Accepted(files[i]) }

  // ----- where a file goes

  function LongCount(f: Input): nat { if f.long.Some? then EntryCount(f.long.value) else 0 }

  /** The first directory slot of file i; slot 0 is the volume label. */
  function Pos(files: seq<Input>, i: nat): (p: nat)
    requires i <= |files|
    ensures p >= 1
  {
    if i == 0 then 1 else Pos(files, i - 1) + LongCount(files[i - 1]) + 1
  }

  /** The contents that occupy clusters, in order. */
  function Stored(files: seq<Input>, i: nat): seq<seq<byte>>
    requires i <= |files|
  {
    if i == 0 then []
    else if files[i - 1].content == [] then Stored(files, i - 1)
    else Stored(files, i - 1) + [files[i - 1].content]
  }

  function Used(files: seq<Input>, i: nat): nat
    requires i <= |files|
  {
    if i == 0 then 0 else Used(files, i - 1) + Clusters(|files[i - 1].content|)
  }

  /** The first cluster of file i; an empty file has none. */
  function Start(files: seq<Input>, i: nat): nat
    requires i < |files|
  {
    if files[i].content == [] then 0 else 2 + Used(files, i)
  }

  /** Clusters are numbered from 2, so an empty file alone has the number 0. */
  lemma EmptyHasNoCluster(files: seq<Input>, i: nat)
    requires i < |files|
    ensures if files[i].content == [] then Start(files, i) == 0 else Start(files, i) >= 2
  {
  }

  predicate Fits(files: seq<Input>) {
    Used(files, |files|) <= TOTAL_SECTORS - FIRST_DATA && Pos(files, |files|) <= ROOT_ENTRIES
  }

  lemma {:induction false} UsedIsTotal(files: seq<Input>, i: nat)
    requires i <= |files|
    ensures TotalClusters(Stored(files, i)) == Used(files, i)
  {
    if i > 0 {
      UsedIsTotal(files, i - 1);
      if files[i - 1].content != [] {
        assert Stored(files, i)[..|Stored(files, i)| - 1] == Stored(files, i - 1);
      }
    }
  }

  lemma {:induction false} Grows(files: seq<Input>, i: nat, j: nat)
    requires i <= j <= |files|
    ensures Used(files, i) <= Used(files, j) && Pos(files, i) + (j - i) <= Pos(files, j)
    decreases j
  {
    if i < j {
      Grows(files, i, j - 1);
    }
  }

  /** Where earlier files go does not depend on later ones. */
  lemma {:induction false} PrefixSame(files: seq<Input>, more: seq<Input>, i: nat)
    requires files <= more && i <= |files|
    ensures Pos(files, i) == Pos(more, i) && Stored(files, i) == Stored(more, i) && Used(files, i) == Used(more, i)
    decreases i
  {
    if i > 0 {
      PrefixSame(files, more, i - 1);
    }
  }

  // ----- the root directory and its reader

  /** What the reader finds in the root directory: a short slot and the long-name slots before it. */
  datatype DirFile = DirFile(entries: seq<seq<byte>>, short: seq<byte>, start: nat, size: nat)

  /** What the reader makes of one slot. */
  datatype View = End | Free | Label | Long(entry: seq<byte>) | Short(short: seq<byte>, start: nat, size: nat)

  function Size32(slot: seq<byte>): nat
    requires |slot| == ENTRY_SIZE
  {
    Word(slot, 28) + 0x1_0000 * Word(slot, 30)
  }

  /** A byte 0 ends the directory, a byte 0xE5 marks a free slot, the attributes tell the rest apart. */
  function ViewOf(slot: seq<byte>): View
    requires |slot| == ENTRY_SIZE
  {
    if slot[0] == 0 then End
    else if slot[0] == 0xE5 then Free
    else if slot[11] == LONG_ATTR then Long(slot)
    else if slot[11] / 8 % 2 == 1 then Label
    else Short(slot[..11], Word(slot, 26), Size32(slot))
  }

  /** Long-name slots belong to the file that follows them. */
  function Scan(views: seq<View>, pending: seq<seq<byte>>): seq<DirFile> {
    if views == [] then []
    else match views[0]
         case End => []
         case Free => Scan(views[1..], [])
         case Label => Scan(views[1..], [])
         case Long(e) => Scan(views[1..], pending + [e])
         case Short(short, start, size) =>
           [DirFile(pending, short, start, size)] + Scan(views[1..], [])
  }

  /** A reader does not take the short name's slot for the end of the directory or for a free one. */
  predicate Visible(f: Input)
    requires |f.short| == 11
  {
    f.short[0] != 0 && f.short[0] != 0xE5
  }

  /** The view of a file's short slot. */
  function ShortView(f: Input, start: nat): View
    requires |f.short| == 11
  {
    if f.short[0] == 0 then End else if f.short[0] == 0xE5 then Free else Short(f.short, start, |f.content|)
  }

  function LongViews(entries: seq<seq<byte>>): (v: seq<View>)
    ensures |v| == |entries|
  {
    if entries == [] then [] else [Long(entries[0])] + LongViews(entries[1..])
  }

  /** entries carry f's long name, if it has one. */
  predicate Carries(f: Input, entries: seq<seq<byte>>) {
    if f.long.Some? then IsLongName(entries, f.long.value, Checksum(f.short)) else entries == []
  }

  predicate AllCarried(files: seq<Input>, parts: seq<seq<seq<byte>>>) {
    |parts| == |files| && forall i | 0 <= i < |files| :: Carries(files[i], parts[i])
  }

  /** The slots of one file, as the reader views them. */
  function Block(f: Input, entries: seq<seq<byte>>, start: nat): seq<View>
    requires |f.short| == 11
  {
    LongViews(entries) + [ShortView(f, start)]
  }

  /** The slots of the first k files. */
  function Blocks(files: seq<Input>, parts: seq<seq<seq<byte>>>, k: nat): seq<View>
    requires k <= |files| && |parts| == |files| && AllAccepted(files)
  {
    if k == 0 then [] else Blocks(files, parts, k - 1) + Block(files[k - 1], parts[k - 1], Start(files, k - 1))
  }

  /** What the directory should read as. */
  function Listing(files: seq<Input>, parts: seq<seq<seq<byte>>>, k: nat): (l: seq<DirFile>)
    requires k <= |files| && |parts| == |files|
    ensures |l| == k
  {
    if k == 0 then []
    else
      Listing(files, parts, k - 1) +
        [DirFile(parts[k - 1], files[k - 1].short, Start(files, k - 1), |files[k - 1].content|)]
  }

  lemma ScanHead(v: View, rest: seq<View>, pending: seq<seq<byte>>)
    ensures v.End? ==> Scan([v] + rest, pending) == []
    ensures v.Free? || v.Label? ==> Scan([v] + rest, pending) == Scan(rest, [])
    ensures v.Long? ==> Scan([v] + rest, pending) == Scan(rest, pending + [v.entry])
    ensures v.Short? ==> Scan([v] + rest, pending) == [DirFile(pending, v.short, v.start, v.size)] + Scan(rest, [])
  {
    assert ([v] + rest)[1..] == rest;
  }

  lemma {:induction false} ScanLongs(entries: seq<seq<byte>>, rest: seq<View>, pending: seq<seq<byte>>)
    ensures Scan(LongViews(entries) + rest, pending) == Scan(rest, pending + entries)
    decreases |entries|
  {
    if entries == [] {
      assert LongViews(entries) + rest == rest && pending + entries == pending;
    } else {
      var e, more := entries[0], entries[1..];
      Uncons(entries, LongViews(more), rest, pending);
      ScanHead(Long(e), LongViews(more) + rest, pending);
      ScanLongs(more, rest, pending + [e]);
    }
  }

  lemma Uncons(entries: seq<seq<byte>>, views: seq<View>, rest: seq<View>, pending: seq<seq<byte>>)
    requires entries != []
    ensures [Long(entries[0])] + views + rest == [Long(entries[0])] + (views + rest)
    ensures pending + [entries[0]] + entries[1..] == pending + entries
  {
  }

  /** One file's slots: read whole when its short slot is visible, and never as more than one file. */
  lemma ScanBlock(f: Input, entries: seq<seq<byte>>, start: nat, rest: seq<View>)
    requires |f.short| == 11
    ensures var r := Scan(Block(f, entries, start) + rest, []);
            && (Visible(f) ==> r == [DirFile(entries, f.short, start, |f.content|)] + Scan(rest, []))
            && (!Visible(f) ==> r == Scan(rest, []) || r == [])
  {
    var v := [ShortView(f, start)] + rest;
    assert Block(f, entries, start) + rest == LongViews(entries) + v;
    ScanLongs(entries, v, []);
    assert [] + entries == entries;
    ScanHead(ShortView(f, start), rest, entries);
  }

  predicate AllVisible(files: seq<Input>, k: nat)
    requires k <= |files| && AllAccepted(files)
  {
    forall i | 0 <= i < k :: Visible(files[i])
  }

  lemma BlocksSplit(files: seq<Input>, parts: seq<seq<seq<byte>>>, k: nat, rest: seq<View>)
    requires 0 < k <= |files| && |parts| == |files| && AllAccepted(files)
    ensures Blocks(files, parts, k) + rest ==
            Blocks(files, parts, k - 1) + (Block(files[k - 1], parts[k - 1], Start(files, k - 1)) + rest)
  {
  }

  lemma {:induction false} ScanVisible(files: seq<Input>, parts: seq<seq<seq<byte>>>, k: nat, rest: seq<View>)
    requires k <= |files| && |parts| == |files| && AllAccepted(files) && AllVisible(files, k)
    ensures Scan(Blocks(files, parts, k) + rest, []) == Listing(files, parts, k) + Scan(rest, [])
    decreases k
  {
    if k == 0 {
      assert Blocks(files, parts, k) + rest == rest;
    } else {
      var f, b := files[k - 1], Block(files[k - 1], parts[k - 1], Start(files, k - 1));
      assert Accepted(f) && Visible(f);
      BlocksSplit(files, parts, k, rest);
      ScanVisible(files, parts, k - 1, b + rest);
      ScanBlock(f, parts[k - 1], Start(files, k - 1), rest);
      var d := DirFile(parts[k - 1], f.short, Start(files, k - 1), |f.content|);
      JoinOne(Listing(files, parts, k - 1), d, Scan(rest, []));
    }
  }

  lemma JoinOne(a: seq<DirFile>, d: DirFile, r: seq<DirFile>)
    ensures a + ([d] + r) == (a + [d]) + r
  {
  }

  lemma {:induction false} ScanAtMost(files: seq<Input>, parts: seq<seq<seq<byte>>>, k: nat, rest: seq<View>)
    requires k <= |files| && |parts| == |files| && AllAccepted(files)
    ensures |Scan(Blocks(files, parts, k) + rest, [])| <= k + |Scan(rest, [])|
    ensures !AllVisible(files, k) ==> |Scan(Blocks(files, parts, k) + rest, [])| < k + |Scan(rest, [])|
    decreases k
  {
    if k == 0 {
      assert Blocks(files, parts, k) + rest == rest;
    } else {
      var f, b := files[k - 1], Block(files[k - 1], parts[k - 1], Start(files, k - 1));
      assert Accepted(f);
      BlocksSplit(files, parts, k, rest);
      ScanAtMost(files, parts, k - 1, b + rest);
      ScanBlock(f, parts[k - 1], Start(files, k - 1), rest);
      assert AllVisible(files, k) <==> AllVisible(files, k - 1) && Visible(f);
    }
  }

  lemma TailIsEmpty(tail: seq<View>)
    requires tail != [] ==> tail[0] == End
    ensures Scan(tail, []) == []
  {
  }

  lemma BlocksListExactly(files: seq<Input>, parts: seq<seq<seq<byte>>>, tail: seq<View>)
    requires AllAccepted(files) && |parts| == |files| && (tail != [] ==> tail[0] == End)
    ensures AllVisible(files, |files|) ==>
            Scan(Blocks(files, parts, |files|) + tail, []) == Listing(files, parts, |files|)
    ensures !AllVisible(files, |files|) ==> |Scan(Blocks(files, parts, |files|) + tail, [])| < |files|
  {
    TailIsEmpty(tail);
    ScanAtMost(files, parts, |files|, tail);
    if AllVisible(files, |files|) {
      ScanVisible(files, parts, |files|, tail);
      assert Listing(files, parts, |files|) + [] == Listing(files, parts, |files|);
    }
  }

  /** The directory as the reader views it: the label, the files, and what follows. */
  function DirViews(files: seq<Input>, parts: seq<seq<seq<byte>>>, volume: View, tail: seq<View>): seq<View>
    requires |parts| == |files| && AllAccepted(files)
  {
    [volume] + (Blocks(files, parts, |files|) + tail)
  }

  /**
    The root directory lists exactly the stored files, with their names, first clusters and sizes, if every short name
    starts with neither 0 nor 0xE5 and the label does not start with 0; otherwise it lists fewer files.
  */
  lemma DirectoryListsExactly(files: seq<Input>, parts: seq<seq<seq<byte>>>, volume: View, tail: seq<View>)
    requires AllAccepted(files) && |parts| == |files| && (volume.Label? || volume.Free? || volume.End?)
    requires tail != [] ==> tail[0] == End
    ensures var found := Scan(DirViews(files, parts, volume, tail), []);
            if (files != [] ==> !volume.End?) && AllVisible(files, |files|)
            then found == Listing(files, parts, |files|)
            else |found| < |files|
  {
    BlocksListExactly(files, parts, tail);
    ScanHead(volume, Blocks(files, parts, |files|) + tail, []);
  }

  // ----- the root directory in bytes

  predicate ZeroFrom(root: seq<byte>, at: nat) { forall i | at <= i < |root| :: root[i] == 0 }

  /** The buffer holds these slots, then zeros. */
  predicate RootHolds(root: seq<byte>, slots: seq<seq<byte>>) {
    && |root| == ROOT_BYTES && |slots| <= ROOT_ENTRIES
    && (forall i | 0 <= i < |slots| :: root[ENTRY_SIZE * i..ENTRY_SIZE * i + ENTRY_SIZE] == slots[i])
    && ZeroFrom(root, ENTRY_SIZE * |slots|)
  }

  /** The buffers agree outside slot n. */
  predicate SameButSlot(root: seq<byte>, before: seq<byte>, n: nat) {
    && |root| == |before|
    && forall i | 0 <= i < |root| && !(ENTRY_SIZE * n <= i < ENTRY_SIZE * n + ENTRY_SIZE) :: root[i] == before[i]
  }

  lemma RootAppend(root: seq<byte>, before: seq<byte>, slots: seq<seq<byte>>, slot: seq<byte>)
    requires RootHolds(before, slots) && |slots| < ROOT_ENTRIES && SameButSlot(root, before, |slots|)
    requires |slot| == ENTRY_SIZE && root[ENTRY_SIZE * |slots|..ENTRY_SIZE * |slots| + ENTRY_SIZE] == slot
    ensures RootHolds(root, slots + [slot])
  {
    var all := slots + [slot];
    forall i | 0 <= i < |all| ensures root[ENTRY_SIZE * i..ENTRY_SIZE * i + ENTRY_SIZE] == all[i] {
      if i < |slots| {
        assert before[ENTRY_SIZE * i..ENTRY_SIZE * i + ENTRY_SIZE] == slots[i];
        assert root[ENTRY_SIZE * i..ENTRY_SIZE * i + ENTRY_SIZE] == before[ENTRY_SIZE * i..ENTRY_SIZE * i + ENTRY_SIZE];
      }
    }
  }

  predicate AllSlots(slots: seq<seq<byte>>) { forall i | 0 <= i < |slots| :: |slots[i]| == ENTRY_SIZE }

  function ViewsOf(slots: seq<seq<byte>>): (v: seq<View>)
    requires AllSlots(slots)
    ensures |v| == |slots| && forall i | 0 <= i < |v| :: v[i] == ViewOf(slots[i])
  {
    seq(|slots|, i requires 0 <= i < |slots| => ViewOf(slots[i]))
  }

  function SlotsOf(root: seq<byte>): (slots: seq<seq<byte>>)
    requires |root| == ROOT_BYTES
    ensures AllSlots(slots) && |slots| == ROOT_ENTRIES
    ensures forall i | 0 <= i < |slots| :: slots[i] == root[ENTRY_SIZE * i..ENTRY_SIZE * i + ENTRY_SIZE]
  {
    seq(ROOT_ENTRIES, i requires 0 <= i < ROOT_ENTRIES => root[ENTRY_SIZE * i..ENTRY_SIZE * i + ENTRY_SIZE])
  }

  /** What a reader makes of a root directory. */
  function RootViews(root: seq<byte>): seq<View>
    requires |root| == ROOT_BYTES
  {
    ViewsOf(SlotsOf(root))
  }

  /** Past the written slots the reader meets the end of the directory. */
  lemma RootViewsAre(root: seq<byte>, slots: seq<seq<byte>>) returns (tail: seq<View>)
    requires RootHolds(root, slots) && AllSlots(slots)
    ensures RootViews(root) == ViewsOf(slots) + tail && (tail != [] ==> tail[0] == End)
  {
    var all := SlotsOf(root);
    var views := RootViews(root);
    tail := views[|slots|..];
    forall i | 0 <= i < |slots| ensures views[i] == ViewsOf(slots)[i] {
      assert all[i] == slots[i];
    }
    assert views[..|slots|] == ViewsOf(slots);
    if tail != [] {
      assert tail[0] == ViewOf(all[|slots|]);
      assert all[|slots|][0] == root[ENTRY_SIZE * |slots|];
    }
  }

  /** The views of a short slot, a long-name slot and the label slot. */
  predicate IsShort(slot: seq<byte>, short: seq<byte>, start: nat, size: nat) {
    |slot| == ENTRY_SIZE && slot[..11] == short && slot[11] == 0x20 && Word(slot, 26) == start && Size32(slot) == size
  }

  /** The fields of a short slot, byte by byte: attribute, first cluster and size, low bytes first. */
  lemma ShortBytes(slot: seq<byte>, short: seq<byte>, start: nat, size: nat)
    requires IsShort(slot, short, start, size)
    ensures slot[..11] == short && slot[11] == 0x20 && slot[26] == start % 0x100 && slot[27] == start / 0x100
    ensures slot[28] == size % 0x100 && slot[29] == size / 0x100 % 0x100
    ensures slot[30] == size / 0x1_0000 % 0x100 && slot[31] == size / 0x100_0000
  {
    assert Word(slot, 28) == size % 0x1_0000 && Word(slot, 30) == size / 0x1_0000;
  }

  lemma ShortIsViewed(slot: seq<byte>, f: Input, start: nat)
    requires |f.short| == 11 && IsShort(slot, f.short, start, |f.content|)
    ensures ViewOf(slot) == ShortView(f, start)
  {
    assert slot[..11][0] == slot[0];
  }

  lemma {:induction false} LongsAreViewed(entries: seq<seq<byte>>, k: nat)
    requires k <= |entries| && AllSlots(entries)
    requires forall j | 0 <= j < |entries| :: entries[j][0] != 0 && entries[j][0] != 0xE5 && entries[j][11] == LONG_ATTR
    ensures ViewsOf(entries[k..]) == LongViews(entries[k..])
    decreases |entries| - k
  {
    var v := ViewsOf(entries[k..]);
    if k < |entries| {
      LongsAreViewed(entries, k + 1);
      assert entries[k..][1..] == entries[k + 1..];
      assert v[0] == Long(entries[k]);
      assert v[1..] == ViewsOf(entries[k + 1..]);
    }
  }

  lemma CarriedAreViewed(f: Input, entries: seq<seq<byte>>)
    requires Accepted(f) && Carries(f, entries) && |entries| < ROOT_ENTRIES
    ensures AllSlots(entries) && ViewsOf(entries) == LongViews(entries)
  {
    CarriedAreSlots(f, entries);
    LongsAreViewed(entries, 0);
    assert entries[0..] == entries;
  }

  /** In a directory that holds them, long-name slots are neither free nor an end. */
  lemma CarriedAreSlots(f: Input, entries: seq<seq<byte>>)
    requires Carries(f, entries)
    ensures AllSlots(entries)
    ensures |entries| < ROOT_ENTRIES ==>
              forall j | 0 <= j < |entries| ::
                entries[j][0] != 0 && entries[j][0] != 0xE5 && entries[j][11] == LONG_ATTR
  {
    var n := |entries|;
    if f.long.Some? {
      forall j | 0 <= j < n
        ensures |entries[j]| == ENTRY_SIZE
        ensures n < ROOT_ENTRIES ==> entries[j][0] != 0 && entries[j][0] != 0xE5 && entries[j][11] == LONG_ATTR
      {
        assert IsLong(entries[j], f.long.value, n - 1 - j, n, Checksum(f.short));
        if n < ROOT_ENTRIES {
          NumberIsSeen(n - 1 - j, n);
        }
      }
    }
  }

  // ----- adding one file, on values

  predicate ChainOf(table: seq<nat>, files: seq<Input>, i: nat)
    requires i < |files|
  {
    && Start(files, i) + Clusters(|files[i].content|) <= |table|
    && ChainIs(table, Start(files, i), Clusters(|files[i].content|))
  }

  predicate ChainsOk(table: seq<nat>, files: seq<Input>) {
    && |table| == CLUSTER_LIMIT && 2 + Used(files, |files|) <= CLUSTER_LIMIT
    && forall i | 0 <= i < |files| && files[i].content != [] :: ChainOf(table, files, i)
  }

  lemma ChainStays(table: seq<nat>, before: seq<nat>, files: seq<Input>, f: Input, i: nat)
    requires i < |files| && files[i].content != [] && ChainOf(before, files, i)
    requires SameOutside(table, before, 2 + Used(files, |files|), Clusters(|f.content|))
    ensures ChainOf(table, files + [f], i)
  {
    assert Start(files + [f], i) == Start(files, i) by { PrefixSame(files, files + [f], i); }
    assert Start(files, i) + Clusters(|files[i].content|) <= 2 + Used(files, |files|) by {
      Grows(files, i + 1, |files|);
    }
    ChainKept(table, before, Start(files, i), Clusters(|files[i].content|), 2 + Used(files, |files|),
              Clusters(|f.content|));
  }

  lemma ChainKept(table: seq<nat>, before: seq<nat>, start: nat, n: nat, from: nat, m: nat)
    requires SameOutside(table, before, from, m) && start + n <= from && start + n <= |before| &&
             ChainIs(before, start, n)
    ensures ChainIs(table, start, n)
  {
  }

  lemma UsedAppend(files: seq<Input>, f: Input)
    ensures Used(files + [f], |files| + 1) == Used(files, |files|) + Clusters(|f.content|)
    ensures f.content != [] ==> Start(files + [f], |files|) == 2 + Used(files, |files|)
    ensures Stored(files + [f], |files| + 1) == Stored(files, |files|) + (if f.content == [] then [] else [f.content])
  {
    PrefixSame(files, files + [f], |files|);
  }

  /** Linking a new chain above the used clusters leaves every earlier chain alone. */
  lemma ChainsAppend(table: seq<nat>, before: seq<nat>, files: seq<Input>, f: Input)
    requires ChainsOk(before, files) && 2 + Used(files, |files|) + Clusters(|f.content|) <= CLUSTER_LIMIT
    requires SameOutside(table, before, 2 + Used(files, |files|), Clusters(|f.content|))
    requires ChainIs(table, 2 + Used(files, |files|), Clusters(|f.content|))
    ensures ChainsOk(table, files + [f])
  {
    UsedAppend(files, f);
    forall i | 0 <= i < |files| && files[i].content != [] ensures ChainOf(table, files + [f], i) {
      ChainStays(table, before, files, f, i);
    }
    if f.content != [] {
      ChainAdded(table, files, f);
    }
    ChainsTogether(table, files, f, files + [f]);
  }

  lemma ChainsTogether(table: seq<nat>, files: seq<Input>, f: Input, more: seq<Input>)
    requires |more| == |files| + 1 && more[|files|] == f && forall i | 0 <= i < |files| :: more[i] == files[i]
    requires |table| == CLUSTER_LIMIT && 2 + Used(more, |more|) <= CLUSTER_LIMIT
    requires forall i | 0 <= i < |files| && files[i].content != [] :: ChainOf(table, more, i)
    requires f.content != [] ==> ChainOf(table, more, |files|)
    ensures ChainsOk(table, more)
  {
  }

  lemma ChainAdded(table: seq<nat>, files: seq<Input>, f: Input)
    requires f.content != [] && 2 + Used(files, |files|) + Clusters(|f.content|) <= |table|
    requires ChainIs(table, 2 + Used(files, |files|), Clusters(|f.content|))
    ensures ChainOf(table, files + [f], |files|)
  {
    UsedAppend(files, f);
  }

  /** The slots written so far are those of the label and the files. */
  predicate DirHolds(slots: seq<seq<byte>>, volume: View, files: seq<Input>, parts: seq<seq<seq<byte>>>) {
    && AllSlots(slots) && AllAccepted(files) && AllCarried(files, parts)
    && ViewsOf(slots) == [volume] + Blocks(files, parts, |files|)
  }

  lemma {:induction false} BlocksPrefix(files: seq<Input>, parts: seq<seq<seq<byte>>>, more: seq<Input>,
                                        moreParts: seq<seq<seq<byte>>>, k: nat)
    requires files <= more && parts <= moreParts && |parts| == |files| && |moreParts| == |more| && AllAccepted(more) &&
             k <= |files|
    ensures AllAccepted(files) && Blocks(files, parts, k) == Blocks(more, moreParts, k)
    decreases k
  {
    assert forall i | 0 <= i < |files| :: files[i] == more[i];
    if k > 0 {
      BlocksPrefix(files, parts, more, moreParts, k - 1);
      PrefixSame(files, more, k - 1);
    }
  }

  lemma Regroup(v: View, a: seq<View>, b: seq<View>, c: View)
    ensures [v] + a + b + [c] == [v] + (a + (b + [c]))
  {
  }

  lemma CarriedAppend(files: seq<Input>, parts: seq<seq<seq<byte>>>, f: Input, entries: seq<seq<byte>>)
    requires AllAccepted(files) && AllCarried(files, parts) && Accepted(f) && Carries(f, entries)
    ensures AllAccepted(files + [f]) && AllCarried(files + [f], parts + [entries])
  {
    var more, moreParts := files + [f], parts + [entries];
    forall i | 0 <= i < |more| ensures Accepted(more[i]) && Carries(more[i], moreParts[i]) {
      if i < |files| {
        assert Accepted(files[i]) && Carries(files[i], parts[i]);
      }
    }
  }

  lemma BlocksAppend(files: seq<Input>, parts: seq<seq<seq<byte>>>, f: Input, entries: seq<seq<byte>>)
    requires |parts| == |files| && AllAccepted(files) && AllAccepted(files + [f])
    ensures Blocks(files + [f], parts + [entries], |files| + 1) ==
            Blocks(files, parts, |files|) + Block(f, entries, Start(files + [f], |files|))
  {
    BlocksPrefix(files, parts, files + [f], parts + [entries], |files|);
  }

  lemma DirAppend(slots: seq<seq<byte>>, volume: View, files: seq<Input>, parts: seq<seq<seq<byte>>>,
                  f: Input, entries: seq<seq<byte>>, slot: seq<byte>)
    requires DirHolds(slots, volume, files, parts) && Accepted(f) && Carries(f, entries) && |entries| < ROOT_ENTRIES
    requires IsShort(slot, f.short, Start(files + [f], |files|), |f.content|)
    ensures DirHolds(slots + entries + [slot], volume, files + [f], parts + [entries])
  {
    CarriedAppend(files, parts, f, entries);
    CarriedAreViewed(f, entries);
    ShortIsViewed(slot, f, Start(files + [f], |files|));
    BlocksAppend(files, parts, f, entries);
    ViewsJoin(slots, entries, slot);
    Regroup(volume, Blocks(files, parts, |files|), LongViews(entries), ViewOf(slot));
  }

  lemma ViewsJoin(slots: seq<seq<byte>>, entries: seq<seq<byte>>, slot: seq<byte>)
    requires AllSlots(slots) && AllSlots(entries) && |slot| == ENTRY_SIZE
    ensures AllSlots(slots + entries + [slot])
    ensures ViewsOf(slots + entries + [slot]) == ViewsOf(slots) + ViewsOf(entries) + [ViewOf(slot)]
  {
  }

  /** The table and the slots are those of the files added so far. */
  predicate Keeps(table: seq<nat>, slots: seq<seq<byte>>, volume: View, files: seq<Input>, parts: seq<seq<seq<byte>>>) {
    && ChainsOk(table, files) && DirHolds(slots, volume, files, parts) && |slots| == Pos(files, |files|)
    && (volume.Label? || volume.Free? || volume.End?)
  }

  lemma KeepsAppend(table: seq<nat>, before: seq<nat>, slots: seq<seq<byte>>, volume: View, files: seq<Input>,
                    parts: seq<seq<seq<byte>>>, f: Input, entries: seq<seq<byte>>, slot: seq<byte>)
    requires Keeps(before, slots, volume, files, parts) && Accepted(f) && Carries(f, entries) &&
             |entries| < ROOT_ENTRIES
    requires 2 + Used(files, |files|) + Clusters(|f.content|) <= CLUSTER_LIMIT
    requires SameOutside(table, before, 2 + Used(files, |files|), Clusters(|f.content|))
    requires ChainIs(table, 2 + Used(files, |files|), Clusters(|f.content|))
    requires IsShort(slot, f.short, if f.content == [] then 0 else 2 + Used(files, |files|), |f.content|)
    ensures Keeps(table, slots + entries + [slot], volume, files + [f], parts + [entries])
  {
    UsedAppend(files, f);
    PosAppend(files, f);
    ChainsAppend(table, before, files, f);
    DirAppend(slots, volume, files, parts, f, entries, slot);
  }

  // ----- the builder

  class Builder {
    var fat: array<byte>
    var rootDir: array<byte>
    var data: seq<seq<byte>>
    var nextCluster: nat
    var rootUsed: nat
    ghost var table: seq<nat>
    ghost var slots: seq<seq<byte>>
    ghost var volume: View
    ghost var files: seq<Input>
    ghost var parts: seq<seq<seq<byte>>>

    ghost predicate RootOk()
      reads this, rootDir
    {
      RootHolds(rootDir[..], slots) && rootUsed == |slots|
    }

    ghost predicate Valid()
      reads this, fat, rootDir
    {
      && fat != rootDir && Tabulates(fat[..], table) && RootOk() && Keeps(table, slots, volume, files, parts)
      && data == Stored(files, |files|) && nextCluster == 2 + Used(files, |files|)
    }

    /** newFAT12Builder: the two reserved FAT entries and the volume label's slot. */
    constructor (name: seq<byte>, time: unit, date: unit)
      requires |name| == 11
      ensures Valid() && files == [] && volume == LabelView(name) && fresh(fat) && fresh(rootDir)
      ensures slots != [] && IsVolume(slots[0], name)
    {
      fat := new byte[FAT_BYTES](_ => 0);
      rootDir := new byte[ROOT_BYTES](_ => 0);
      data, nextCluster, rootUsed := [], 2, 0;
      slots, files, parts := [], [], [];
      volume := LabelView(name);
      new;
      SetFATEntry(fat, 0, 0xFF8);
      SetFATEntry(fat, 1, EOC);
      table := TableOf(fat[..]);
      AddVolumeLabel(name, time, date);
      FirstSlot(slots, name);
    }

    method AddVolumeLabel(name: seq<byte>, time: unit, date: unit)
      requires RootOk() && slots == [] && |name| == 11
      modifies this`rootUsed, this`slots, rootDir
      ensures RootOk() && |slots| == 1 && IsVolume(slots[0], name)
    {
      ghost var before := rootDir[..];
      var off := rootUsed * ENTRY_SIZE;
      var ok := WriteDirEntry(name);
      ghost var named := rootDir[..];
      assert named[off..off + ENTRY_SIZE] == name + Zeros(21) by {
        assert slots[0] == name + Zeros(ENTRY_SIZE - 11);
      }
      rootDir[off + 11] := 0x08;
      SetStamps(rootDir, off, time, date);
      ghost var slot := rootDir[..][off..off + ENTRY_SIZE];
      NameKept(rootDir[..], named, off, name);
      RootAppend(rootDir[..], before, [], slot);
      slots := [slot];
    }

    /** writeDirEntry: the entry goes into the next slot, the rest of which is zero. */
    method WriteDirEntry(entry: seq<byte>) returns (ok: bool)
      requires RootOk() && |entry| <= ENTRY_SIZE
      modifies this`rootUsed, this`slots, rootDir
      ensures RootOk() && ok == (old(rootUsed) < ROOT_ENTRIES)
      ensures slots == if ok then old(slots) + [entry + Zeros(ENTRY_SIZE - |entry|)] else old(slots)
      ensures ok ==> SameButSlot(rootDir[..], old(rootDir[..]), old(rootUsed))
    {
      if rootUsed >= ROOT_ENTRIES {
        return false;
      }
      var off := rootUsed * ENTRY_SIZE;
      ghost var before := rootDir[..];
      forall i | 0 <= i < |entry| {
        rootDir[off + i] := entry[i];
      }
      ghost var slot := entry + Zeros(ENTRY_SIZE - |entry|);
      forall k | 0 <= k < ENTRY_SIZE ensures rootDir[off + k] == slot[k] {
        assert before[off + k] == 0;
      }
      assert rootDir[..][off..off + ENTRY_SIZE] == slot;
      RootAppend(rootDir[..], before, slots, slot);
      slots := slots + [slot];
      rootUsed := rootUsed + 1;
      ok := true;
    }

    /** addFile's loop over the long-name entries. */
    method WriteLong(entries: seq<seq<byte>>) returns (ok: bool)
      requires RootOk() && AllSlots(entries)
      modifies this`rootUsed, this`slots, rootDir
      ensures RootOk() && ok == (old(rootUsed) + |entries| <= ROOT_ENTRIES)
      ensures ok ==> slots == old(slots) + entries
    {
      for i := 0 to |entries|
        invariant RootOk() && slots == old(slots) + entries[..i]
      {
        var wrote := WriteDirEntry(entries[i]);
        if !wrote {
          return false;
        }
        assert entries[i] + Zeros(0) == entries[i];
        assert entries[..i + 1] == entries[..i] + [entries[i]];
      }
      assert entries[..|entries|] == entries;
      ok := true;
    }

    /** The short entry: the name, then the archive attribute, the timestamps, the first cluster and the size. */
    method WriteShort(short: seq<byte>, start: unit, size: nat, time: unit, date: unit) returns (ok: bool)
      requires RootOk() && |short| == 11 && size < 0x1_0000_0000
      modifies this`rootUsed, this`slots, rootDir
      ensures RootOk() && ok == (old(rootUsed) < ROOT_ENTRIES)
      ensures ok ==> |slots| == |old(slots)| + 1 && slots[..|old(slots)|] == old(slots)
      ensures ok ==> IsShort(slots[|old(slots)|], short, start, size)
    {
      ghost var before, n := rootDir[..], rootUsed;
      var off := rootUsed * ENTRY_SIZE;
      ok := WriteDirEntry(short);
      if !ok {
        return;
      }
      ghost var named := rootDir[..];
      assert named[off..off + ENTRY_SIZE] == short + Zeros(21) by {
        assert slots[n] == short + Zeros(ENTRY_SIZE - 11);
      }
      SetFields(rootDir, off, start, size, time, date);
      ghost var slot := rootDir[..][off..off + ENTRY_SIZE];
      FieldsAreShort(rootDir[..], named, off, short, start, size);
      RootAppend(rootDir[..], before, old(slots), slot);
      slots := old(slots) + [slot];
    }

    /** addFile's cluster half; None when the data area is too small. */
    method Allocate(content: seq<byte>) returns (r: Option<unit>)
      requires Tabulates(fat[..], table) && 2 <= nextCluster <= CLUSTER_LIMIT
      modifies this`data, this`nextCluster, this`table, fat
      ensures r.None? <==> content != [] && old(nextCluster) + Clusters(|content|) > CLUSTER_LIMIT
      ensures r.Some? ==> r.value == if content == [] then 0 else old(nextCluster)
      ensures r.Some? ==> nextCluster == old(nextCluster) + Clusters(|content|) <= CLUSTER_LIMIT
      ensures r.Some? ==> data == old(data) + (if content == [] then [] else [content])
      ensures r.Some? ==>
                && Tabulates(fat[..], table) && ChainIs(table, old(nextCluster), Clusters(|content|))
                && SameOutside(table, old(table), old(nextCluster), Clusters(|content|))
    {
      var n := (|content| + SECTOR - 1) / SECTOR;
      if n == 0 {
        return Some(0);
      }
      if nextCluster + n > TOTAL_SECTORS - FIRST_DATA + 2 {
        return None;
      }
      var start := nextCluster;
      table := LinkClusters(fat, start, n, table);
      data := data + [content];
      nextCluster := nextCluster + n;
      return Some(start);
    }

    /** addFile's directory half. */
    method WriteName(f: Input, start: unit, time: unit, date: unit)
      returns (ok: bool, ghost entries: seq<seq<byte>>, ghost slot: seq<byte>)
      requires RootOk() && Accepted(f) && |f.content| < 0x1_0000_0000
      modifies this`rootUsed, this`slots, rootDir
      ensures ok == (old(rootUsed) + LongCount(f) + 1 <= ROOT_ENTRIES)
      ensures ok ==> RootOk() && Carries(f, entries) && IsShort(slot, f.short, start, |f.content|)
      ensures ok ==> slots == old(slots) + entries + [slot]
    {
      var long: seq<seq<byte>> := [];
      if f.long.Some? {
        long := MakeLFNEntries(f.long.value, f.short);
      }
      entries, slot := long, [];
      CarriedAreSlots(f, long);
      ok := WriteLong(long);
      if !ok {
        return;
      }
      ok := WriteShort(f.short, start, |f.content|, time, date);
      if ok {
        slot := slots[|slots| - 1];
      }
    }

    /** The builder after a file's chain and slots are written, before the file is counted in. */
    ghost predicate Written(f: Input, was: seq<seq<byte>>, before: seq<nat>, entries: seq<seq<byte>>, slot: seq<byte>)
      reads this, fat, rootDir
    {
      && fat != rootDir && Tabulates(fat[..], table) && RootOk() && slots == was + entries + [slot]
      && Keeps(before, was, volume, files, parts) && Accepted(f) && Carries(f, entries)
      && 2 + Used(files, |files|) + Clusters(|f.content|) == nextCluster <= CLUSTER_LIMIT
      && SameOutside(table, before, 2 + Used(files, |files|), Clusters(|f.content|))
      && ChainIs(table, 2 + Used(files, |files|), Clusters(|f.content|))
      && IsShort(slot, f.short, if f.content == [] then 0 else 2 + Used(files, |files|), |f.content|)
      && data == Stored(files, |files|) + (if f.content == [] then [] else [f.content])
    }

    ghost method CountIn(f: Input, was: seq<seq<byte>>, before: seq<nat>, entries: seq<seq<byte>>, slot: seq<byte>)
      requires Written(f, was, before, entries, slot)
      modifies this`files, this`parts
      ensures Valid() && files == old(files) + [f]
    {
      UsedAppend(files, f);
      KeepsAppend(table, before, was, volume, files, parts, f, entries, slot);
      files, parts := files + [f], parts + [entries];
    }

    method AddFile(f: Input, time: unit, date: unit) returns (ok: bool)
      requires Valid() && Accepted(f)
      modifies this`data, this`nextCluster, this`table, this`rootUsed, this`slots, this`files, this`parts, fat, rootDir
      ensures ok <==> && (f.content == [] || old(nextCluster) + Clusters(|f.content|) <= CLUSTER_LIMIT)
                      && old(rootUsed) + LongCount(f) + 1 <= ROOT_ENTRIES
      ensures ok ==> Valid() && files == old(files) + [f]
      ensures ok && old(slots) != [] ==> slots != [] && slots[0] == old(slots)[0]
    {
      ghost var (was, before) := (slots, table);
      var start := Allocate(f.content);
      if start.None? {
        return false;
      }
      ghost var entries, slot;
      ok, entries, slot := WriteName(f, start.value, time, date);
      if ok {
        CountIn(f, was, before, entries, slot);
      }
    }
  }

  // ----- the image

  /** A sector of the content: a chunk, and zeros up to the sector size. */
  lemma PaddedNext(content: seq<byte>, k: nat)
    requires k < Clusters(|content|)
    ensures var chunk := content[SECTOR * k..if SECTOR * (k + 1) < |content| then SECTOR * (k + 1) else |content|];
            && |chunk| <= SECTOR
            && Padded(content)[..SECTOR * (k + 1)] == Padded(content)[..SECTOR * k] + (chunk + Zeros(SECTOR - |chunk|))
  {
  }

  /** writeTo's loops over the contents. */
  method AppendData(head: seq<byte>, data: seq<seq<byte>>) returns (out: seq<byte>)
    ensures out == head + DataArea(data)
  {
    out := head;
    for i := 0 to |data|
      invariant out == head + DataArea(data[..i])
    {
      var content := data[i];
      ghost var done := out;
      for k := 0 to Clusters(|content|)
        invariant out == done + Padded(content)[..SECTOR * k]
      {
        PaddedNext(content, k);
        var chunk := content[SECTOR * k..if SECTOR * (k + 1) < |content| then SECTOR * (k + 1) else |content|];
        out := out + (chunk + Zeros(SECTOR - |chunk|));
      }
      assert Padded(content)[..SECTOR * Clusters(|content|)] == Padded(content);
      assert data[..i + 1][..i] == data[..i];
    }
    assert data[..|data|] == data;
  }

  method AppendZeros(head: seq<byte>, sectors: nat) returns (out: seq<byte>)
    ensures out == head + Zeros(SECTOR * sectors)
  {
    out := head;
    for j := 0 to sectors
      invariant out == head + Zeros(SECTOR * j)
    {
      out := out + Zeros(SECTOR);
      assert Zeros(SECTOR * j) + Zeros(SECTOR) == Zeros(SECTOR * (j + 1));
    }
  }

  method WriteTo(boot: seq<byte>, fat: seq<byte>, root: seq<byte>, data: seq<seq<byte>>, nextCluster: nat)
    returns (out: seq<byte>)
    requires nextCluster == 2 + TotalClusters(data) <= CLUSTER_LIMIT
    ensures out == Image(boot, fat, root, data)
  {
    out := AppendData(boot + fat + fat + root, data);
    out := AppendZeros(out, TOTAL_SECTORS - FIRST_DATA - (nextCluster - 2));
  }

  /** The geometry a reader takes from the boot sector, and where it puts the data area and the end of the image. */
  predicate Geometry(boot: seq<byte>) {
    && |boot| == SECTOR && boot[510] == 0x55 && boot[511] == 0xAA
    && Word(boot, 11) == SECTOR && boot[13] == 1 && Word(boot, 14) == 1 && boot[16] == 2
    && Word(boot, 17) == ROOT_ENTRIES && Word(boot, 19) == TOTAL_SECTORS && Word(boot, 22) * SECTOR == FAT_BYTES
  }

  /** copy(b[at:], bytes). */
  method Copy(b: array<byte>, at: nat, bytes: seq<byte>)
    requires at + |bytes| <= b.Length
    modifies b
    ensures forall i | 0 <= i < b.Length :: b[i] == if at <= i < at + |bytes| then bytes[i - at] else old(b[i])
  {
    forall i | 0 <= i < |bytes| {
      b[at + i] := bytes[i];
    }
  }

  const JUMP: seq<byte> := [0xEB, 0x3C, 0x90]
  const OEM: seq<byte> := [0x43, 0x4F, 0x43, 0x4F, 0x4F, 0x4E, 0x20, 0x20]
  /** Bytes 11 to 27: the sizes and counts, the media descriptor, sectors per track and heads. */
  const PARAMETERS: seq<byte> := [0, 2, 1, 1, 0, 2, 128, 0, 0, 8, 0xF8, 6, 0, 32, 0, 64, 0]
  const FS_TYPE: seq<byte> := [0x46, 0x41, 0x54, 0x31, 0x32, 0x20, 0x20, 0x20]

  method PutParameters(b: array<byte>)
    requires b.Length == SECTOR
    modifies b
    ensures forall i | 11 <= i < 28 :: b[i] == PARAMETERS[i - 11]
    ensures (forall i | 0 <= i < 3 :: b[i] == JUMP[i]) && forall i | 3 <= i < 11 :: b[i] == OEM[i - 3]
    ensures b[36] == 0x80 && b[38] == 0x29
  {
    Copy(b, 0, JUMP);
    Copy(b, 3, OEM);
    Copy(b, 11, PARAMETERS);
    Copy(b, 36, [0x80]);
    Copy(b, 38, [0x29]);
  }

  lemma SliceIs(b: seq<byte>, at: nat, part: seq<byte>)
    requires at + |part| <= |b| && forall i | at <= i < at + |part| :: b[i] == part[i - at]
    ensures b[at..at + |part|] == part
  {
  }

  method MakeBootSector(name: seq<byte>, serial: seq<byte>) returns (boot: seq<byte>)
    requires |name| == 11 && |serial| == 4
    ensures Geometry(boot) && boot[43..54] == name
    ensures boot[..3] == JUMP && boot[3..11] == OEM && boot[39..43] == serial && boot[54..62] == FS_TYPE
    ensures boot[11] == 0 && boot[12] == 2 && boot[13] == 1 && boot[14] == 1 && boot[15] == 0 && boot[16] == 2
    ensures boot[17] == 128 && boot[18] == 0 && boot[19] == 0 && boot[20] == 8 && boot[21] == 0xF8
    ensures boot[22] == 6 && boot[23] == 0 && boot[24] == 32 && boot[25] == 0 && boot[26] == 64 && boot[27] == 0
    ensures boot[36] == 0x80 && boot[38] == 0x29
  {
    var b := new byte[SECTOR](_ => 0);
    PutParameters(b);
    PutNames(b, name, serial);
    boot := b[..];
    SliceIs(boot, 0, JUMP);
    SliceIs(boot, 3, OEM);
    SliceIs(boot, 39, serial);
    SliceIs(boot, 43, name);
    SliceIs(boot, 54, FS_TYPE);
    ParameterBytes(boot);
  }

  /** The serial number, the label, the type and the signature. */
  method PutNames(b: array<byte>, name: seq<byte>, serial: seq<byte>)
    requires b.Length == SECTOR && |name| == 11 && |serial| == 4
    modifies b
    ensures forall i | 0 <= i < 39 :: b[i] == old(b[i])
    ensures forall i | 39 <= i < 43 :: b[i] == serial[i - 39]
    ensures forall i | 43 <= i < 54 :: b[i] == name[i - 43]
    ensures forall i | 54 <= i < 62 :: b[i] == FS_TYPE[i - 54]
    ensures b[510] == 0x55 && b[511] == 0xAA
  {
    Copy(b, 39, serial);
    Copy(b, 43, name);
    Copy(b, 54, FS_TYPE);
    Copy(b, 510, [0x55, 0xAA]);
  }

  lemma ParameterBytes(boot: seq<byte>)
    requires |boot| == SECTOR && forall i | 11 <= i < 28 :: boot[i] == PARAMETERS[i - 11]
    ensures boot[11] == 0 && boot[12] == 2 && boot[13] == 1 && boot[14] == 1 && boot[15] == 0 && boot[16] == 2
    ensures boot[17] == 128 && boot[18] == 0 && boot[19] == 0 && boot[20] == 8 && boot[21] == 0xF8
    ensures boot[22] == 6 && boot[23] == 0 && boot[24] == 32 && boot[25] == 0 && boot[26] == 64 && boot[27] == 0
  {
  }

  // ----- reading the image back

  /** A directory file with its long name put together and its chain read. */
  function ReadEntry(img: seq<byte>, d: DirFile): Option<Input>
    requires |img| == IMAGE_BYTES
  {
    match ReadFile(img, d.start, d.size)
    case None => None
    case Some(content) => Some(Input(LongName(d.entries, d.short), d.short, content))
  }

  function ReadEntries(img: seq<byte>, ds: seq<DirFile>): (r: seq<Option<Input>>)
    requires |img| == IMAGE_BYTES
    ensures |r| == |ds| && forall i | 0 <= i < |ds| :: r[i] == ReadEntry(img, ds[i])
  {
    seq(|ds|, i requires 0 <= i < |ds| => ReadEntry(img, ds[i]))
  }

  /** All files of an image, as the reader finds them. */
  function ReadImage(img: seq<byte>): seq<Option<Input>>
    requires |img| == IMAGE_BYTES
  {
    ReadEntries(img, Scan(RootViews(RootOf(img)), []))
  }

  function AllOf(files: seq<Input>): seq<Option<Input>> { seq(|files|, i requires 0 <= i < |files| => Some(files[i])) }

  /** Where a stored content lies in the data area. */
  lemma {:induction false} StoredAt(files: seq<Input>, k: nat, i: nat)
    requires i < k <= |files| && files[i].content != []
    ensures var at := |Stored(files, i)|;
            && at < |Stored(files, k)| && Stored(files, k)[at] == files[i].content
            && Stored(files, k)[..at] == Stored(files, i)
    decreases k
  {
    if i < k - 1 {
      StoredAt(files, k - 1, i);
    }
  }

  predicate NamesVisible(name: seq<byte>, files: seq<Input>)
    requires |name| == 11 && AllAccepted(files)
  {
    (files != [] ==> name[0] != 0) && AllVisible(files, |files|)
  }

  predicate NamesReadable(files: seq<Input>) { forall i | 0 <= i < |files| :: ReadableName(files[i]) }

  /** Every file's chain is the run of clusters from its start, and reads as its content. */
  predicate ChainsRead(img: seq<byte>, files: seq<Input>)
    requires |img| == IMAGE_BYTES
  {
    forall i | 0 <= i < |files| :: ReadsWhole(img, Start(files, i), files[i].content)
  }

  /** Following the chain from start visits the content's clusters in order, and reads as the content. */
  predicate ReadsWhole(img: seq<byte>, start: nat, content: seq<byte>)
    requires |img| == IMAGE_BYTES
  {
    && ReadsAs(img, start, content)
    && (content != [] ==> Follow(FatOf(img), start, 0x1000) == Some(Range(start, start + Clusters(|content|))))
  }

  lemma ContentReads(boot: seq<byte>, fat: seq<byte>, root: seq<byte>, table: seq<nat>, data: seq<seq<byte>>, at: nat,
                     start: nat, content: seq<byte>)
    requires Sized(boot, fat, root) && Tabulates(fat, table) && TotalClusters(data) <= TOTAL_SECTORS - FIRST_DATA
    requires at < |data| && data[at] == content != [] && start == StartOf(data, at)
    requires start + Clusters(|content|) <= CLUSTER_LIMIT && ChainIs(table, start, Clusters(|content|))
    ensures |Image(boot, fat, root, data)| == IMAGE_BYTES && ReadsWhole(Image(boot, fat, root, data), start, content)
  {
    ReadBack(boot, fat, root, data, table, at);
  }

  lemma FileReads(boot: seq<byte>, fat: seq<byte>, root: seq<byte>, table: seq<nat>, files: seq<Input>,
                  data: seq<seq<byte>>, i: nat)
    requires Sized(boot, fat, root) && Tabulates(fat, table) && ChainsOk(table, files) && i < |files| &&
             files[i].content != []
    requires data == Stored(files, |files|)
    ensures TotalClusters(data) <= TOTAL_SECTORS - FIRST_DATA && |Image(boot, fat, root, data)| == IMAGE_BYTES
    ensures ReadsWhole(Image(boot, fat, root, data), Start(files, i), files[i].content)
  {
    UsedIsTotal(files, |files|);
    UsedIsTotal(files, i);
    StoredAt(files, |files|, i);
    assert ChainOf(table, files, i);
    ContentReads(boot, fat, root, table, data, |Stored(files, i)|, Start(files, i), files[i].content);
  }

  /** The chains of two files have no cluster in common. */
  lemma ChainsApart(files: seq<Input>, i: nat, j: nat)
    requires i < j < |files| && files[i].content != [] && files[j].content != []
    ensures Start(files, i) + Clusters(|files[i].content|) <= Start(files, j)
  {
    Grows(files, i + 1, j);
  }

  predicate IsVolume(slot: seq<byte>, name: seq<byte>) {
    |slot| == ENTRY_SIZE && slot[..11] == name && slot[11] == 0x08
  }

  function LabelView(name: seq<byte>): View
    requires |name| == 11
  {
    if name[0] == 0 then End else if name[0] == 0xE5 then Free else Label
  }

  lemma FirstSlot(slots: seq<seq<byte>>, name: seq<byte>)
    requires |slots| == 1 && |name| == 11 && IsVolume(slots[0], name)
    ensures DirHolds(slots, LabelView(name), [], [])
  {
    assert slots[0][..11][0] == slots[0][0];
    assert ViewsOf(slots) == [LabelView(name)];
  }

  lemma PosAppend(files: seq<Input>, f: Input)
    ensures Pos(files + [f], |files| + 1) == Pos(files, |files|) + LongCount(f) + 1
  {
    PrefixSame(files, files + [f], |files|);
  }

  /** The bytes of a short slot after its name, as addFile and putTimestamps set them. */
  method SetFields(root: array<byte>, off: nat, start: unit, size: nat, time: unit, date: unit)
    requires off + ENTRY_SIZE <= root.Length && size < 0x1_0000_0000
    modifies root
    ensures forall i | 0 <= i < root.Length && !(off + 11 <= i < off + ENTRY_SIZE) :: root[i] == old(root[i])
    ensures root[off + 11] == 0x20 && Word(root[..], off + 26) == start
    ensures Word(root[..], off + 28) == size % 0x1_0000 && Word(root[..], off + 30) == size / 0x1_0000
  {
    root[off + 11] := 0x20;
    SetStamps(root, off, time, date);
    PutWord(root, off + 26, start);
    PutWord(root, off + 28, size % 0x1_0000);
    PutWord(root, off + 30, size / 0x1_0000);
  }

  /** putTimestamps. */
  method SetStamps(root: array<byte>, off: nat, time: unit, date: unit)
    requires off + ENTRY_SIZE <= root.Length
    modifies root
    ensures forall i | 0 <= i < root.Length && !(off + 14 <= i < off + 26) :: root[i] == old(root[i])
    ensures Word(root[..], off + 14) == Word(root[..], off + 22) == time
    ensures Word(root[..], off + 16) == Word(root[..], off + 18) == Word(root[..], off + 24) == date
  {
    PutWord(root, off + 14, time);
    PutWord(root, off + 16, date);
    PutWord(root, off + 18, date);
    PutWord(root, off + 22, time);
    PutWord(root, off + 24, date);
  }

  lemma NameKept(root: seq<byte>, named: seq<byte>, off: nat, name: seq<byte>)
    requires |root| == |named| && off + ENTRY_SIZE <= |root| && |name| == 11
    requires named[off..off + ENTRY_SIZE] == name + Zeros(21)
    requires forall i | 0 <= i < |root| && !(off + 11 <= i < off + ENTRY_SIZE) :: root[i] == named[i]
    ensures root[off..off + ENTRY_SIZE][..11] == name
  {
    var slot := root[off..off + ENTRY_SIZE];
    forall i | 0 <= i < 11 ensures slot[i] == name[i] {
      assert named[off..off + ENTRY_SIZE][i] == name[i];
    }
  }

  /** binary.LittleEndian.PutUint16. */
  method PutWord(b: array<byte>, at: nat, v: unit)
    requires at + 1 < b.Length
    modifies b
    ensures forall i | 0 <= i < b.Length && i != at && i != at + 1 :: b[i] == old(b[i])
    ensures b[at] == v % 0x100 && b[at + 1] == v / 0x100 && Word(b[..], at) == v
  {
    b[at], b[at + 1] := v % 0x100, v / 0x100;
  }

  lemma FieldsAreShort(root: seq<byte>, named: seq<byte>, off: nat, short: seq<byte>, start: nat, size: nat)
    requires |root| == |named| && off + ENTRY_SIZE <= |root| && |short| == 11 && size < 0x1_0000_0000
    requires named[off..off + ENTRY_SIZE] == short + Zeros(21)
    requires forall i | 0 <= i < |root| && !(off + 11 <= i < off + ENTRY_SIZE) :: root[i] == named[i]
    requires root[off + 11] == 0x20 && Word(root, off + 26) == start
    requires Word(root, off + 28) == size % 0x1_0000 && Word(root, off + 30) == size / 0x1_0000
    ensures IsShort(root[off..off + ENTRY_SIZE], short, start, size)
  {
    var slot := root[off..off + ENTRY_SIZE];
    NameKept(root, named, off, short);
    assert Word(slot, 26) == Word(root, off + 26) && Word(slot, 28) == Word(root, off + 28) &&
      Word(slot, 30) == Word(root, off + 30);
  }

  // ----- CreateFAT12

  lemma {:induction false} ListingAt(files: seq<Input>, parts: seq<seq<seq<byte>>>, k: nat, i: nat)
    requires i < k <= |files| && |parts| == |files|
    ensures Listing(files, parts, k)[i] == DirFile(parts[i], files[i].short, Start(files, i), |files[i].content|)
    decreases k
  {
    if i < k - 1 {
      ListingAt(files, parts, k - 1, i);
    }
  }

  /** All but the long name reads back. */
  predicate ReadsBut(r: Input, f: Input) { r.short == f.short && r.content == f.content }

  /**
    The files in order, each with its own short name and bytes, and with its own long name exactly when that reads
    back.
  */
  predicate IsReading(found: seq<Option<Input>>, files: seq<Input>) {
    && |found| == |files|
    && forall i | 0 <= i < |files| ::
         && found[i].Some? && ReadsBut(found[i].value, files[i])
         && (found[i].value.long == files[i].long <==> ReadableName(files[i]))
  }

  lemma ReadingIsAll(found: seq<Option<Input>>, files: seq<Input>)
    requires IsReading(found, files)
    ensures found == AllOf(files) <==> NamesReadable(files)
  {
    forall i | 0 <= i < |files| ensures found[i] == AllOf(files)[i] <==> ReadableName(files[i]) {
      assert found[i].Some? && ReadsBut(found[i].value, files[i]);
    }
  }

  lemma EntryReads(img: seq<byte>, f: Input, entries: seq<seq<byte>>, start: nat)
    requires |img| == IMAGE_BYTES && Accepted(f) && Carries(f, entries) && ReadsAs(img, start, f.content)
    ensures var r := ReadEntry(img, DirFile(entries, f.short, start, |f.content|));
            r.Some? && ReadsBut(r.value, f) && (r.value.long == f.long <==> ReadableName(f))
  {
    if f.long.Some? {
      LongNameReadBack(entries, f.long.value, f.short);
    }
  }

  lemma ListingReads(img: seq<byte>, files: seq<Input>, parts: seq<seq<seq<byte>>>)
    requires |img| == IMAGE_BYTES && AllAccepted(files) && AllCarried(files, parts) && ChainsRead(img, files)
    ensures IsReading(ReadEntries(img, Listing(files, parts, |files|)), files)
  {
    var found := ReadEntries(img, Listing(files, parts, |files|));
    forall i | 0 <= i < |files|
      ensures found[i].Some? && ReadsBut(found[i].value, files[i])
      ensures found[i].value.long == files[i].long <==> ReadableName(files[i])
    {
      ListingAt(files, parts, |files|, i);
      assert ReadsWhole(img, Start(files, i), files[i].content);
      assert Accepted(files[i]) && Carries(files[i], parts[i]);
      EntryReads(img, files[i], parts[i], Start(files, i));
    }
  }

  lemma AllChainsRead(boot: seq<byte>, fat: seq<byte>, root: seq<byte>, table: seq<nat>, files: seq<Input>,
                      data: seq<seq<byte>>)
    requires Sized(boot, fat, root) && Tabulates(fat, table) && ChainsOk(table, files) && data == Stored(files, |files|)
    ensures TotalClusters(data) <= TOTAL_SECTORS - FIRST_DATA && |Image(boot, fat, root, data)| == IMAGE_BYTES
    ensures ChainsRead(Image(boot, fat, root, data), files)
  {
    UsedIsTotal(files, |files|);
    ImageParts(boot, fat, root, data);
    var img := Image(boot, fat, root, data);
    forall i | 0 <= i < |files| ensures ReadsWhole(img, Start(files, i), files[i].content) {
      if files[i].content != [] {
        FileReads(boot, fat, root, table, files, data, i);
      }
    }
  }

  /** The reader of the root directory, over the slots the builder wrote. */
  lemma RootLists(root: seq<byte>, slots: seq<seq<byte>>, name: seq<byte>, files: seq<Input>,
                  parts: seq<seq<seq<byte>>>)
    requires |name| == 11 && RootHolds(root, slots) && DirHolds(slots, LabelView(name), files, parts)
    ensures var found := Scan(RootViews(root), []);
            if NamesVisible(name, files) then found == Listing(files, parts, |files|) else |found| < |files|
  {
    var tail := RootViewsAre(root, slots);
    assert RootViews(root) == DirViews(files, parts, LabelView(name), tail);
    DirectoryListsExactly(files, parts, LabelView(name), tail);
  }

  lemma ImageReads(boot: seq<byte>, fat: seq<byte>, root: seq<byte>, table: seq<nat>, slots: seq<seq<byte>>,
                   name: seq<byte>, files: seq<Input>, parts: seq<seq<seq<byte>>>, data: seq<seq<byte>>)
    requires |name| == 11 && Sized(boot, fat, root) && Tabulates(fat, table) && RootHolds(root, slots)
    requires Keeps(table, slots, LabelView(name), files, parts) && data == Stored(files, |files|)
    ensures TotalClusters(data) <= TOTAL_SECTORS - FIRST_DATA && |Image(boot, fat, root, data)| == IMAGE_BYTES
    ensures ChainsRead(Image(boot, fat, root, data), files)
    ensures var found := ReadImage(Image(boot, fat, root, data));
            if NamesVisible(name, files) then IsReading(found, files) else |found| < |files|
  {
    AllChainsRead(boot, fat, root, table, files, data);
    ImageParts(boot, fat, root, data);
    RootLists(root, slots, name, files, parts);
    if NamesVisible(name, files) {
      ListingReads(Image(boot, fat, root, data), files, parts);
    }
  }

  /** One turn of CreateFAT12's loop. */
  method AddNext(b: Builder, files: seq<Input>, i: nat, time: unit, date: unit) returns (ok: bool)
    requires i < |files| && AllAccepted(files) && b.Valid() && b.files == files[..i]
    modifies b`data, b`nextCluster, b`table, b`rootUsed, b`slots, b`files, b`parts, b.fat, b.rootDir
    ensures ok ==> b.Valid() && b.files == files[..i + 1]
    ensures ok && old(b.slots) != [] ==> b.slots != [] && b.slots[0] == old(b.slots)[0]
    ensures ok <==> Pos(files, i + 1) <= ROOT_ENTRIES && 2 + Used(files, i + 1) <= CLUSTER_LIMIT
  {
    PrefixSame(files[..i], files, i);
    assert Accepted(files[i]);
    TakeNext(files, i);
    ok := b.AddFile(files[i], time, date);
  }

  lemma TakeNext<T>(s: seq<T>, i: nat)
    requires i < |s|
    ensures s[..i] + [s[i]] == s[..i + 1]
  {
  }

  /** CreateFAT12's loop over the files. */
  method Build(name: seq<byte>, files: seq<Input>, time: unit, date: unit) returns (b: Builder, ok: bool)
    requires |name| == 11 && AllAccepted(files)
    ensures ok <==> Fits(files)
    ensures ok ==> b.Valid() && b.files == files && b.volume == LabelView(name)
    ensures ok ==> b.slots != [] && IsVolume(b.slots[0], name)
  {
    b := new Builder(name, time, date);
    var i := 0;
    ok := true;
    while i < |files|
      invariant 0 <= i <= |files| && ok
      invariant fresh(b) && fresh(b.fat) && fresh(b.rootDir)
      invariant b.Valid() && b.files == files[..i] && b.volume == LabelView(name)
      invariant b.slots != [] && IsVolume(b.slots[0], name)
      invariant Pos(files, i) <= ROOT_ENTRIES && 2 + Used(files, i) <= CLUSTER_LIMIT
    {
      Grows(files, i + 1, |files|);
      ok := AddNext(b, files, i, time, date);
      if !ok {
        return;
      }
      i := i + 1;
    }
    assert files[..|files|] == files;
  }

  /** What is promised of an image. */
  ghost predicate GoodImage(img: seq<byte>, name: seq<byte>, files: seq<Input>)
    requires |name| == 11 && AllAccepted(files)
  {
    && |img| == IMAGE_BYTES && Geometry(img[..SECTOR]) && img[3584..6656] == FatOf(img)
    && img[43..54] == name && img[6656..6667] == name && img[6667] == 0x08
    && ChainsRead(img, files)
    && (if NamesVisible(name, files) then IsReading(ReadImage(img), files) else |ReadImage(img)| < |files|)
    && (ReadImage(img) == AllOf(files) <==> NamesVisible(name, files) && NamesReadable(files))
  }

  lemma ImageShape(boot: seq<byte>, fat: seq<byte>, root: seq<byte>, data: seq<seq<byte>>)
    requires Sized(boot, fat, root) && TotalClusters(data) <= TOTAL_SECTORS - FIRST_DATA && Geometry(boot)
    ensures var img := Image(boot, fat, root, data);
            |img| == IMAGE_BYTES && Geometry(img[..SECTOR]) && img[3584..6656] == FatOf(img)
  {
    ImageParts(boot, fat, root, data);
    assert Image(boot, fat, root, data)[..SECTOR] == boot;
  }

  lemma GoodImageFrom(boot: seq<byte>, fat: seq<byte>, root: seq<byte>, table: seq<nat>, slots: seq<seq<byte>>,
                      name: seq<byte>, files: seq<Input>, parts: seq<seq<seq<byte>>>, data: seq<seq<byte>>)
    requires |name| == 11 && Geometry(boot) && Sized(boot, fat, root) && Tabulates(fat, table) && RootHolds(root, slots)
    requires boot[43..54] == name && slots != [] && IsVolume(slots[0], name)
    requires Keeps(table, slots, LabelView(name), files, parts) && data == Stored(files, |files|)
    ensures TotalClusters(data) <= TOTAL_SECTORS - FIRST_DATA && GoodImage(Image(boot, fat, root, data), name, files)
  {
    ImageReads(boot, fat, root, table, slots, name, files, parts, data);
    if NamesVisible(name, files) {
      ReadingIsAll(ReadImage(Image(boot, fat, root, data)), files);
    }
    ImageShape(boot, fat, root, data);
    LabelIsThere(boot, fat, root, data, slots, name);
  }

  /** The label is in the boot sector and in the first slot of the root directory. */
  lemma LabelIsThere(boot: seq<byte>, fat: seq<byte>, root: seq<byte>, data: seq<seq<byte>>, slots: seq<seq<byte>>,
                     name: seq<byte>)
    requires Sized(boot, fat, root) && TotalClusters(data) <= TOTAL_SECTORS - FIRST_DATA && RootHolds(root, slots)
    requires |name| == 11 && boot[43..54] == name && slots != [] && IsVolume(slots[0], name)
    ensures var img := Image(boot, fat, root, data);
            |img| == IMAGE_BYTES && img[43..54] == name && img[6656..6667] == name && img[6667] == 0x08
  {
    ImageParts(boot, fat, root, data);
    var img := Image(boot, fat, root, data);
    assert root[ENTRY_SIZE * 0..ENTRY_SIZE * 0 + ENTRY_SIZE] == slots[0];
    FirstSlotBytes(img, root, slots[0], name);
    assert img[..512] == boot;
    assert img[43..54] == boot[43..54];
  }

  lemma FirstSlotBytes(img: seq<byte>, root: seq<byte>, slot: seq<byte>, name: seq<byte>)
    requires |img| == IMAGE_BYTES && RootOf(img) == root && |root| == ROOT_BYTES && root[..32] == slot
    requires |name| == 11 && IsVolume(slot, name)
    ensures img[6656..6667] == name && img[6667] == 0x08
  {
    forall i | 0 <= i < 11 ensures img[6656 + i] == name[i] {
      assert img[6656 + i] == root[i] == slot[i] == slot[..11][i];
    }
    assert img[6667] == root[11] == slot[11];
  }

  /**
    CreateFAT12 succeeds exactly when the files fit. The image is then exactly 1 MiB with two equal FATs; the chain of
    every file ends and reads as exactly its bytes; and a reader that lists the root directory recovers exactly the
    files, with their names, if and only if no short name starts with 0 or 0xE5, the label does not start with 0, and
    every long name is free of NUL and takes at most 63 entries.
  */
  method CreateFAT12(name: seq<byte>, files: seq<Input>, time: unit, date: unit, serial: seq<byte>)
    returns (img: Option<seq<byte>>)
    requires |name| == 11 && |serial| == 4 && AllAccepted(files)
    ensures img.Some? <==> Fits(files)
    ensures img.Some? ==> GoodImage(img.value, name, files)
  {
    var b, ok := Build(name, files, time, date);
    if !ok {
      return None;
    }
    var boot := MakeBootSector(name, serial);
    UsedIsTotal(files, |files|);
    GoodImageFrom(boot, b.fat[..], b.rootDir[..], b.table, b.slots, name, files, b.parts, b.data);
    var out := WriteTo(boot, b.fat[..], b.rootDir[..], b.data, b.nextCluster);
    return Some(out);
  }
}
