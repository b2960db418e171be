/**
  Disk deltas of hypervisor/diskdelta.go: two FIEMAP extent lists are swept into the
  ranges where they map different storage, the ranges' bytes are written out, and
  the delta is replayed onto a copy of the reference disk.
*/
module DiskDelta {
  import opened Common

  datatype Extent = Extent(logical: int, physical: int, length: int, unwritten: bool)

  datatype Mapping = Mapping(physical: int, unwritten: bool, mapped: bool)

  datatype Range = Range(offset: int, length: int, zero: bool)

  /** A delta file: the header and the bytes of its non-zero ranges, in order. */
  datatype Delta = Delta(size: nat, ranges: seq<Range>, data: seq<byte>)

  /** What the filesystem knows of a file: its size and its extents. */
  datatype File = File(size: nat, extents: seq<Extent>)

  /** The byte each physical address holds; reflinked files share it. */
  type Store = int -> byte

  const HOLE := Mapping(0, false, false)

  predicate Ordered(es: seq<Extent>) {
    && (forall i | 0 <= i < |es| :: 0 <= es[i].logical && 0 < es[i].length)
    && (forall i, j | 0 <= i < j < |es| :: es[i].logical + es[i].length <= es[j].logical)
  }

  predicate Wf(f: File) { Ordered(f.extents) && f.size <= MAX_INT64 }

  predicate Inside(e: Extent, pos: int) { e.logical <= pos < e.logical + e.length }

  /** The mapping at an offset of an ordered extent list. */
  function MapAt(es: seq<Extent>, pos: int): Mapping {
    if es == [] || pos < es[0].logical then HOLE
    else if Inside(es[0], pos) then Mapping(es[0].physical + pos - es[0].logical, es[0].unwritten, true)
    else MapAt(es[1..], pos)
  }

  /** MapAt names the one extent holding the offset, and is a hole exactly when there is none. */
  lemma {:induction false} MapAtIsTheExtent(es: seq<Extent>, pos: int)
    requires Ordered(es)
    ensures forall i | 0 <= i < |es| && Inside(es[i], pos) ::
              MapAt(es, pos) == Mapping(es[i].physical + pos - es[i].logical, es[i].unwritten, true)
    ensures MapAt(es, pos).mapped <==> exists i | 0 <= i < |es| :: Inside(es[i], pos)
    ensures !MapAt(es, pos).mapped ==> MapAt(es, pos) == HOLE
  {
    if es != [] {
      MapAtIsTheExtent(es[1..], pos);
      assert forall i | 1 <= i < |es| :: es[i] == es[1..][i - 1];
    }
  }

  predicate ReadsZero(m: Mapping) { !m.mapped || m.unwritten }

  function ByteOf(m: Mapping, store: Store): byte {
    if ReadsZero(m) then 0 else store(m.physical)
  }

  function ByteAt(f: File, store: Store, pos: int): byte { ByteOf(MapAt(f.extents, pos), store) }

  function Content(f: File, store: Store): (bytes: seq<byte>)
    ensures |bytes| == f.size
  {
    seq(f.size, i => ByteAt(f, store, i))
  }

  // ----- the sweep

  /** The mapping `d` bytes further into the same extent or hole. */
  function Shift(m: Mapping, d: int): Mapping {
    if m.mapped then m.(physical := m.physical + d) else m
  }

  lemma {:induction false} DropPassed(es: seq<Extent>, pos: int)
    requires Ordered(es) && es != [] && es[0].logical + es[0].length <= pos
    ensures forall q | pos <= q :: MapAt(es[1..], q) == MapAt(es, q)
  {
    forall q | pos <= q ensures MapAt(es[1..], q) == MapAt(es, q) {
    }
  }

  predicate Passed(e: Extent, pos: int) { e.logical + e.length <= pos }

  /** rest is es without a front of extents that end at or before pos. */
  predicate Dropped(es: seq<Extent>, rest: seq<Extent>, pos: int) {
    |rest| <= |es| && rest == es[|es| - |rest|..] && forall i | 0 <= i < |es| - |rest| :: Passed(es[i], pos)
  }

  /** rest is es without exactly the extents that end at or before pos. */
  predicate IsRest(es: seq<Extent>, rest: seq<Extent>, pos: int) {
    && |rest| <= |es| && rest == es[|es| - |rest|..]
    && forall i | 0 <= i < |es| :: Passed(es[i], pos) <==> i < |es| - |rest|
  }

  lemma DropNext(es: seq<Extent>, rest: seq<Extent>, pos: int)
    requires Dropped(es, rest, pos) && rest != [] && Passed(rest[0], pos)
    ensures Dropped(es, rest[1..], pos)
  {
    assert rest[0] == es[|es| - |rest|];
  }

  /** Dropping extents that end at or before pos changes no mapping from pos on. */
  lemma {:induction false} RestMapsSame(es: seq<Extent>, rest: seq<Extent>, pos: int)
    requires Ordered(es) && Dropped(es, rest, pos)
    ensures Ordered(rest) && forall q | pos <= q :: MapAt(rest, q) == MapAt(es, q)
    decreases |es|
  {
    if |rest| < |es| {
      assert Passed(es[0], pos);
      var t := es[1..];
      assert rest == t[|t| - |rest|..];
      assert forall i | 0 <= i < |t| :: t[i] == es[i + 1];
      RestMapsSame(t, rest, pos);
      DropPassed(es, pos);
    }
  }

  lemma DropsExactly(es: seq<Extent>, rest: seq<Extent>, pos: int)
    requires Ordered(es) && Dropped(es, rest, pos) && (rest != [] ==> !Passed(rest[0], pos))
    ensures IsRest(es, rest, pos)
  {
    var k := |es| - |rest|;
    if rest != [] {
      assert rest[0] == es[k];
      assert forall i | k < i < |es| :: es[k].logical + es[k].length <= es[i].logical;
    }
  }

  method ExtentAt(es: seq<Extent>, pos: int) returns (rest: seq<Extent>, m: Mapping, end: int)
    requires Ordered(es) && 0 <= pos < MAX_INT64
    ensures Ordered(rest) && pos < end && IsRest(es, rest, pos)
    ensures forall q | pos <= q :: MapAt(rest, q) == MapAt(es, q)
    ensures forall q | pos <= q < end && q < MAX_INT64 :: MapAt(es, q) == Shift(m, q - pos)
  {
    rest := es;
    while |rest| > 0 && rest[0].logical + rest[0].length <= pos
      invariant Dropped(es, rest, pos)
    {
      DropNext(es, rest, pos);
      rest := rest[1..];
    }
    DropsExactly(es, rest, pos);
    RestMapsSame(es, rest, pos);
    if |rest| == 0 {
      return rest, HOLE, MAX_INT64;
    }
    var e := rest[0];
    if pos < e.logical {
      return rest, HOLE, e.logical;
    }
    return rest, Mapping(e.physical + pos - e.logical, e.unwritten, true), e.logical + e.length;
  }

  predicate Covers(r: Range, q: int) { r.offset <= q < r.offset + r.length }

  predicate RangeIn(r: Range, limit: int) { 0 <= r.offset && 0 < r.length && r.offset + r.length <= limit }

  predicate RangesIn(out: seq<Range>, limit: int) { forall i | 0 <= i < |out| :: RangeIn(out[i], limit) }

  predicate RangesWf(out: seq<Range>, limit: int) {
    && RangesIn(out, limit)
    && (forall i, j | 0 <= i < j < |out| :: out[i].offset + out[i].length <= out[j].offset)
  }

  /** No two neighbouring ranges of the same kind touch. */
  predicate Coalesced(out: seq<Range>) {
    forall i | 0 < i < |out| ::
      out[i - 1].offset + out[i - 1].length == out[i].offset ==> out[i - 1].zero != out[i].zero
  }

  ghost predicate Covered(out: seq<Range>, q: int) { exists i | 0 <= i < |out| :: Covers(out[i], q) }

  /** Covered exactly when the two mappings differ, and marked zero exactly when the current one reads as zeros. */
  ghost predicate ExactAt(out: seq<Range>, ref: seq<Extent>, cur: seq<Extent>, q: int) {
    && (Covered(out, q) <==> MapAt(ref, q) != MapAt(cur, q))
    && (forall i | 0 <= i < |out| && Covers(out[i], q) :: out[i].zero == ReadsZero(MapAt(cur, q)))
  }

  /** Ranges below `size`: exactly the offsets mapped differently, sorted, in bounds, fully merged. */
  ghost predicate IsDiff(out: seq<Range>, ref: seq<Extent>, cur: seq<Extent>, size: int) {
    && RangesWf(out, size) && Coalesced(out)
    && forall q | 0 <= q < size :: ExactAt(out, ref, cur, q)
  }

  /** The loop's append-or-extend of one differing stretch. */
  function AddRange(out: seq<Range>, pos: int, end: int, zero: bool): seq<Range> {
    var n := |out| - 1;
    if n >= 0 && out[n].zero == zero && out[n].offset + out[n].length == pos
    then out[n := out[n].(length := out[n].length + (end - pos))]
    else out + [Range(pos, end - pos, zero)]
  }

  lemma AddRangeExact(out: seq<Range>, ref: seq<Extent>, cur: seq<Extent>, pos: int, end: int, zero: bool, q: int)
    requires RangesWf(out, pos) && 0 <= q < end && 0 <= pos < end
    requires q < pos ==> ExactAt(out, ref, cur, q)
    requires pos <= q ==> MapAt(ref, q) != MapAt(cur, q) && zero == ReadsZero(MapAt(cur, q))
    ensures ExactAt(AddRange(out, pos, end, zero), ref, cur, q)
  {
    var r := AddRange(out, pos, end, zero);
    if pos <= q {
      assert Covers(r[|r| - 1], q);
    } else if Covered(out, q) {
      var i :| 0 <= i < |out| && Covers(out[i], q);
      assert Covers(r[i], q);
    }
    forall i | 0 <= i < |r| && Covers(r[i], q)
      ensures q < pos ==> i < |out| && Covers(out[i], q) && out[i].zero == r[i].zero
    { }
  }

  lemma AddRangeShape(out: seq<Range>, pos: int, end: int, zero: bool)
    requires RangesWf(out, pos) && Coalesced(out) && 0 <= pos < end
    ensures RangesWf(AddRange(out, pos, end, zero), end) && Coalesced(AddRange(out, pos, end, zero))
  {
  }

  /** One turn of the sweep: both mappings run on from `pos` to `end`. */
  lemma SweepStep(out: seq<Range>, ref: seq<Extent>, cur: seq<Extent>, pos: int, end: int, refAt: Mapping,
                  curAt: Mapping)
    requires IsDiff(out, ref, cur, pos) && 0 <= pos < end
    requires forall q | pos <= q < end :: MapAt(ref, q) == Shift(refAt, q - pos)
    requires forall q | pos <= q < end :: MapAt(cur, q) == Shift(curAt, q - pos)
    ensures IsDiff(if refAt != curAt then AddRange(out, pos, end, ReadsZero(curAt)) else out, ref, cur, end)
  {
    var next := if refAt != curAt then AddRange(out, pos, end, ReadsZero(curAt)) else out;
    AddRangeShape(out, pos, end, ReadsZero(curAt));
    forall q | 0 <= q < end ensures ExactAt(next, ref, cur, q) {
      if q < pos {
        assert ExactAt(out, ref, cur, q);
      }
      if refAt != curAt {
        AddRangeExact(out, ref, cur, pos, end, ReadsZero(curAt), q);
      }
    }
  }

  method DiffExtents(ref: seq<Extent>, cur: seq<Extent>, size: int) returns (out: seq<Range>)
    requires Ordered(ref) && Ordered(cur) && size <= MAX_INT64
    ensures IsDiff(out, ref, cur, if size < 0 then 0 else size)
  {
    out := [];
    var r, c, pos := ref, cur, 0;
    while pos < size
      invariant 0 <= pos && (pos <= size || pos == 0)
      invariant Ordered(r) && Ordered(c)
      invariant forall q | pos <= q :: MapAt(r, q) == MapAt(ref, q)
      invariant forall q | pos <= q :: MapAt(c, q) == MapAt(cur, q)
      invariant IsDiff(out, ref, cur, pos)
    {
      var refAt, refEnd, curAt, curEnd;
      r, refAt, refEnd := ExtentAt(r, pos);
      c, curAt, curEnd := ExtentAt(c, pos);
      var end := if refEnd < curEnd then refEnd else curEnd;
      if size < end { end := size; }
      SweepStep(out, ref, cur, pos, end, refAt, curAt);
      if refAt != curAt {
        out := AddRange(out, pos, end, !curAt.mapped || curAt.unwritten);
      }
      pos := end;
    }
  }

  /** IsDiff leaves no freedom: the sweep's output is the only list of ranges meeting it. */
  lemma {:induction false} DiffIsUnique(a: seq<Range>, b: seq<Range>, ref: seq<Extent>, cur: seq<Extent>, size: int)
    requires IsDiff(a, ref, cur, size) && IsDiff(b, ref, cur, size)
    ensures a == b
  {
    var k := 0;
    while k < |a| && k < |b|
      invariant 0 <= k <= |a| && k <= |b|
      invariant a[..k] == b[..k]
    {
      StartsAgree(a, b, ref, cur, size, k);
      StartsAgree(b, a, ref, cur, size, k);
      EndsAgree(a, b, ref, cur, size, k);
      EndsAgree(b, a, ref, cur, size, k);
      assert a[k] == b[k];
      assert a[..k + 1] == a[..k] + [a[k]] && b[..k + 1] == b[..k] + [b[k]];
      k := k + 1;
    }
    if k < |a| { NoExtraRange(a, b, ref, cur, size); }
    if k < |b| { NoExtraRange(b, a, ref, cur, size); }
  }

  lemma NoExtraRange(a: seq<Range>, b: seq<Range>, ref: seq<Extent>, cur: seq<Extent>, size: int)
    requires IsDiff(a, ref, cur, size) && IsDiff(b, ref, cur, size)
    requires |b| <= |a| && a[..|b|] == b
    ensures |a| == |b|
  {
    assert forall j | 0 <= j < |b| :: a[j] == a[..|b|][j];
    if |b| < |a| {
      StartIsCovered(a, b, ref, cur, size, |b|);
    }
  }

  lemma StartIsCovered(a: seq<Range>, b: seq<Range>, ref: seq<Extent>, cur: seq<Extent>, size: int, k: nat)
    requires IsDiff(a, ref, cur, size) && IsDiff(b, ref, cur, size) && k < |a|
    ensures exists i | 0 <= i < |b| :: Covers(b[i], a[k].offset)
  {
    var q := a[k].offset;
    assert Covers(a[k], q) && ExactAt(a, ref, cur, q) && ExactAt(b, ref, cur, q);
  }

  lemma StartsAgree(a: seq<Range>, b: seq<Range>, ref: seq<Extent>, cur: seq<Extent>, size: int, k: nat)
    requires IsDiff(a, ref, cur, size) && IsDiff(b, ref, cur, size)
    requires k < |a| && k < |b| && a[..k] == b[..k]
    ensures b[k].offset <= a[k].offset
  {
    assert forall j | 0 <= j < k :: a[j] == a[..k][j] == b[..k][j] == b[j];
    StartIsCovered(a, b, ref, cur, size, k);
  }

  lemma EndsAgree(a: seq<Range>, b: seq<Range>, ref: seq<Extent>, cur: seq<Extent>, size: int, k: nat)
    requires IsDiff(a, ref, cur, size) && IsDiff(b, ref, cur, size)
    requires k < |a| && k < |b| && a[k].offset == b[k].offset
    ensures a[k].zero == b[k].zero
    ensures b[k].length <= a[k].length
  {
    assert Covers(a[k], a[k].offset) && Covers(b[k], a[k].offset);
    assert ExactAt(a, ref, cur, a[k].offset) && ExactAt(b, ref, cur, a[k].offset);
    if a[k].length < b[k].length {
      var q := a[k].offset + a[k].length;
      assert Covers(b[k], q) && ExactAt(a, ref, cur, q) && ExactAt(b, ref, cur, q);
      var i :| 0 <= i < |a| && Covers(a[i], q);
      NextStartsThere(a, size, k, i);
    }
  }

  /** Only the following range can hold the offset where a range ends. */
  lemma NextStartsThere(a: seq<Range>, size: int, k: nat, i: nat)
    requires RangesWf(a, size) && k < |a| && i < |a|
    requires Covers(a[i], a[k].offset + a[k].length)
    ensures i == k + 1 && a[i].offset == a[k].offset + a[k].length
  {
    assert k + 1 < |a| ==> a[k].offset + a[k].length <= a[k + 1].offset;
  }

  // ----- writing and replaying a delta

  /** Where the data section of the first k ranges ends. */
  function DataEnd(ranges: seq<Range>, k: nat): int
    requires k <= |ranges|
  {
    if k == 0 then 0 else DataEnd(ranges, k - 1) + (if ranges[k - 1].zero then 0 else ranges[k - 1].length)
  }

  /** From `at` on, the data section holds a range's bytes of the source, if it contributes any. */
  predicate IsPart(data: seq<byte>, at: int, r: Range, src: seq<byte>) {
    RangeIn(r, |src|) && !r.zero ==>
      && 0 <= at && at + r.length <= |data|
      && forall q | r.offset <= q < r.offset + r.length :: data[at + (q - r.offset)] == src[q]
  }

  predicate PartAt(data: seq<byte>, ranges: seq<Range>, src: seq<byte>, i: nat) {
    i < |ranges| && IsPart(data, DataEnd(ranges, i), ranges[i], src)
  }

  /**
    The data section of the first k ranges: the bytes of each non-zero range of the source, in order, and no others.
  */
  predicate IsData(data: seq<byte>, ranges: seq<Range>, src: seq<byte>, k: nat) {
    && k <= |ranges| && |data| == DataEnd(ranges, k)
    && forall i {:trigger PartAt(data, ranges, src, i)} | 0 <= i < k :: PartAt(data, ranges, src, i)
  }

  lemma PartKept(data: seq<byte>, part: seq<byte>, at: int, r: Range, src: seq<byte>)
    requires IsPart(data, at, r, src)
    ensures IsPart(data + part, at, r, src)
  {
  }

  lemma PartAdded(data: seq<byte>, r: Range, src: seq<byte>)
    requires RangeIn(r, |src|) && !r.zero
    ensures IsPart(data + src[r.offset..r.offset + r.length], |data|, r, src)
  {
  }

  lemma PartAppended(data: seq<byte>, more: seq<byte>, ranges: seq<Range>, src: seq<byte>, k: nat)
    requires k < |ranges| && IsData(data, ranges, src, k) && RangeIn(ranges[k], |src|)
    requires more == data + if ranges[k].zero then [] else src[ranges[k].offset..ranges[k].offset + ranges[k].length]
    ensures IsData(more, ranges, src, k + 1)
  {
    var part := if ranges[k].zero then [] else src[ranges[k].offset..ranges[k].offset + ranges[k].length];
    forall i {:trigger PartAt(more, ranges, src, i)} | 0 <= i < k + 1 ensures PartAt(more, ranges, src, i) {
      if i < k {
        assert PartAt(data, ranges, src, i);
        PartKept(data, part, DataEnd(ranges, i), ranges[i], src);
      } else if !ranges[k].zero {
        PartAdded(data, ranges[k], src);
      }
    }
  }

  method WriteDeltaFile(ranges: seq<Range>, src: seq<byte>) returns (d: Delta)
    requires RangesIn(ranges, |src|)
    ensures d.size == |src| && d.ranges == ranges && IsData(d.data, ranges, src, |ranges|)
  {
    var data: seq<byte> := [];
    for k := 0 to |ranges|
      invariant IsData(data, ranges, src, k)
    {
      assert RangeIn(ranges[k], |src|);
      ghost var before := data;
      if !ranges[k].zero {
        data := data + src[ranges[k].offset..ranges[k].offset + ranges[k].length];
      }
      PartAppended(before, data, ranges, src, k);
    }
    d := Delta(|src|, ranges, data);
  }

  function Resized(b: seq<byte>, n: nat): (r: seq<byte>)
    ensures |r| == n
    ensures forall i | 0 <= i < n :: r[i] == if i < |b| then b[i] else 0
  {
    seq(n, i requires 0 <= i < n => if i < |b| then b[i] else 0)
  }

  /** PUNCH_HOLE|KEEP_SIZE: the range reads as zeros, the size stays. */
  function Punched(b: seq<byte>, off: nat, len: nat): seq<byte> {
    seq(|b|, i requires 0 <= i < |b| => if off <= i < off + len then 0 else b[i])
  }

  lemma PunchedAt(b: seq<byte>, off: nat, len: nat)
    ensures |Punched(b, off, len)| == |b|
    ensures forall i | 0 <= i < |b| :: Punched(b, off, len)[i] == if off <= i < off + len then 0 else b[i]
  {
  }

  /** A write of data[at..at + n] at an offset, zero-filling a gap past the end. */
  function Written(b: seq<byte>, off: nat, data: seq<byte>, at: nat, n: nat): seq<byte>
    requires at + n <= |data|
  {
    var size := if n == 0 || off + n <= |b| then |b| else off + n;
    seq(size, i requires 0 <= i < size =>
      if off <= i < off + n then data[at + (i - off)] else if i < |b| then b[i] else 0)
  }

  lemma WrittenAt(b: seq<byte>, off: nat, data: seq<byte>, at: nat, n: nat)
    requires at + n <= |data|
    ensures |Written(b, off, data, at, n)| == if n == 0 || off + n <= |b| then |b| else off + n
    ensures forall i | 0 <= i < |Written(b, off, data, at, n)| ::
              Written(b, off, data, at, n)[i] ==
              if off <= i < off + n then data[at + (i - off)] else if i < |b| then b[i] else 0
  {
  }

  /** The bytes after some ranges, and how much of the data section they used. */
  datatype Progress = Progress(bytes: seq<byte>, at: nat)

  /** Replays one range; a bad offset, an empty punch or missing data is an error. */
  function ApplyRange(p: Progress, r: Range, data: seq<byte>): Result<Progress> {
    if r.offset < 0 then Err
    else if r.zero then
      if r.length <= 0 then Err else Ok(Progress(Punched(p.bytes, r.offset, r.length), p.at))
    else
      var n := if r.length < 0 then 0 else r.length;
      if p.at + n > |data| then Err else Ok(Progress(Written(p.bytes, r.offset, data, p.at, n), p.at + n))
  }

  /** Replays the first k ranges over bytes. */
  function ApplyTo(b: seq<byte>, ranges: seq<Range>, data: seq<byte>, k: nat): Result<Progress>
    requires k <= |ranges|
  {
    if k == 0 then Ok(Progress(b, 0))
    else match ApplyTo(b, ranges, data, k - 1)
         case Err => Err
         case Ok(p) => ApplyRange(p, ranges[k - 1], data)
  }

  function ApplyDelta(b: seq<byte>, d: Delta): Result<seq<byte>> {
    match ApplyTo(Resized(b, d.size), d.ranges, d.data, |d.ranges|)
    case Err => Err
    case Ok(p) => Ok(p.bytes)
  }

  lemma {:induction false} ErrorsStay(b: seq<byte>, ranges: seq<Range>, data: seq<byte>, k: nat, m: nat)
    requires k <= m <= |ranges| && ApplyTo(b, ranges, data, k).Err?
    ensures ApplyTo(b, ranges, data, m).Err?
    decreases m
  {
    if k < m { ErrorsStay(b, ranges, data, k, m - 1); }
  }

  /** A file opened for writing. */
  class DiskFile {
    var bytes: seq<byte>

    constructor (bytes: seq<byte>)
      ensures this.bytes == bytes
    {
      this.bytes := bytes;
    }

    method Truncate(n: nat)
      modifies this
      ensures |bytes| == n
      ensures forall i | 0 <= i < n :: bytes[i] == if i < |old(bytes)| then old(bytes)[i] else 0
    {
      bytes := if n <= |bytes| then bytes[..n] else bytes + Zeros(n - |bytes|);
    }

    /** The range reads as zeros, every other byte and the size stay. */
    method PunchHole(off: nat, len: nat)
      modifies this
      ensures |bytes| == |old(bytes)|
      ensures forall i | 0 <= i < |bytes| :: bytes[i] == if off <= i < off + len then 0 else old(bytes)[i]
    {
      var size := |bytes|;
      var lo, hi := if off < size then off else size, if off + len < size then off + len else size;
      bytes := bytes[..lo] + Zeros(hi - lo) + bytes[hi..];
    }

    /** The data lands at its offset, a gap before it reads as zeros, and every other byte stays. */
    method WriteAt(off: nat, data: seq<byte>)
      modifies this
      ensures |bytes| == if data == [] || off + |data| <= |old(bytes)| then |old(bytes)| else off + |data|
      ensures forall i | 0 <= i < |bytes| ::
                bytes[i] == if off <= i < off + |data| then data[i - off]
                            else if i < |old(bytes)| then old(bytes)[i] else 0
    {
      if data == [] {
        return;
      }
      if off + |data| > |bytes| {
        Truncate(off + |data|);
      }
      bytes := bytes[..off] + data + bytes[off + |data|..];
    }
  }

  /** One turn of applyDiskDelta's loop. */
  method ReplayRange(out: DiskFile, r: Range, data: seq<byte>, at: nat) returns (ok: bool, next: nat)
    requires at <= |data|
    modifies out
    ensures next <= |data| && ok == ApplyRange(Progress(old(out.bytes), at), r, data).Ok?
    ensures ok ==> Ok(Progress(out.bytes, next)) == ApplyRange(Progress(old(out.bytes), at), r, data)
  {
    next := at;
    if r.offset < 0 || (r.zero && r.length <= 0) {
      return false, at;
    }
    if r.zero {
      out.PunchHole(r.offset, r.length);
      PunchedAt(old(out.bytes), r.offset, r.length);
      assert out.bytes == Punched(old(out.bytes), r.offset, r.length);
    } else {
      var n := if r.length < 0 then 0 else r.length;
      if |data| - at < n {
        return false, at;
      }
      out.WriteAt(r.offset, data[at..at + n]);
      WrittenAt(old(out.bytes), r.offset, data, at, n);
      assert out.bytes == Written(old(out.bytes), r.offset, data, at, n);
      next := at + n;
    }
    ok := true;
  }

  method ApplyDiskDelta(out: DiskFile, d: Delta) returns (ok: bool)
    modifies out
    ensures ok == ApplyDelta(old(out.bytes), d).Ok?
    ensures ok ==> Ok(out.bytes) == ApplyDelta(old(out.bytes), d)
  {
    if |out.bytes| != d.size {
      out.Truncate(d.size);
    }
    ghost var start := Resized(old(out.bytes), d.size);
    assert out.bytes == start;
    var at: nat := 0;
    for k := 0 to |d.ranges|
      invariant at <= |d.data| && ApplyTo(start, d.ranges, d.data, k) == Ok(Progress(out.bytes, at))
    {
      ok, at := ReplayRange(out, d.ranges[k], d.data, at);
      if !ok {
        ErrorsStay(start, d.ranges, d.data, k + 1, |d.ranges|);
        return;
      }
    }
    ok := true;
  }

  /** The byte a range leaves where it covers. */
  function LeftBy(r: Range, src: seq<byte>, q: nat): byte
    requires q < |src|
  {
    if r.zero then 0 else src[q]
  }

  /** r is b with exactly the bytes the first k ranges cover rewritten from src. */
  ghost predicate RewrittenTo(r: seq<byte>, b: seq<byte>, ranges: seq<Range>, src: seq<byte>, k: nat) {
    && |r| == |b| == |src| && k <= |ranges|
    && forall q | 0 <= q < |b| ::
         && ((forall i | 0 <= i < k :: !Covers(ranges[i], q)) ==> r[q] == b[q])
         && (forall i | 0 <= i < k && Covers(ranges[i], q) :: r[q] == LeftBy(ranges[i], src, q))
  }

  /** One range rewrites exactly the bytes it covers. */
  lemma RangeRewrites(b: seq<byte>, r: Range, src: seq<byte>, data: seq<byte>, at: nat)
    requires RangeIn(r, |src|) && |b| == |src| && IsPart(data, at, r, src)
    ensures var p := ApplyRange(Progress(b, at), r, data);
            && p.Ok? && p.value.at == at + (if r.zero then 0 else r.length) && |p.value.bytes| == |b|
            && forall q | 0 <= q < |b| :: p.value.bytes[q] == if Covers(r, q) then LeftBy(r, src, q) else b[q]
  {
    if r.zero {
      PunchedAt(b, r.offset, r.length);
    } else {
      WrittenAt(b, r.offset, data, at, r.length);
    }
  }

  /** Replaying the ranges of a source over equally long bytes rewrites exactly the covered offsets. */
  lemma {:induction false} ApplyRangesAt(b: seq<byte>, ranges: seq<Range>, src: seq<byte>, data: seq<byte>, k: nat)
    returns (p: Progress)
    requires RangesWf(ranges, |src|) && |b| == |src| && k <= |ranges| && IsData(data, ranges, src, |ranges|)
    ensures ApplyTo(b, ranges, data, k) == Ok(p)
    ensures p.at == DataEnd(ranges, k) && RewrittenTo(p.bytes, b, ranges, src, k)
    decreases k
  {
    if k == 0 {
      p := Progress(b, 0);
    } else {
      var q := ApplyRangesAt(b, ranges, src, data, k - 1);
      assert RangeIn(ranges[k - 1], |src|) && PartAt(data, ranges, src, k - 1);
      p := RangesApplyNext(b, ranges, src, data, q, k - 1);
      ApplyToNext(b, ranges, data, k - 1, q);
    }
  }

  lemma ApplyToNext(b: seq<byte>, ranges: seq<Range>, data: seq<byte>, k: nat, p: Progress)
    requires k < |ranges| && ApplyTo(b, ranges, data, k) == Ok(p)
    ensures ApplyTo(b, ranges, data, k + 1) == ApplyRange(p, ranges[k], data)
  {
  }

  lemma RangesApplyNext(b: seq<byte>, ranges: seq<Range>, src: seq<byte>, data: seq<byte>, p: Progress, k: nat)
    returns (next: Progress)
    requires RangesWf(ranges, |src|) && |b| == |src| && k < |ranges| && RangeIn(ranges[k], |src|)
    requires IsPart(data, p.at, ranges[k], src) && RewrittenTo(p.bytes, b, ranges, src, k)
    ensures ApplyRange(p, ranges[k], data) == Ok(next)
    ensures next.at == p.at + (if ranges[k].zero then 0 else ranges[k].length)
    ensures RewrittenTo(next.bytes, b, ranges, src, k + 1)
  {
    RangeRewrites(p.bytes, ranges[k], src, data, p.at);
    next := ApplyRange(p, ranges[k], data).value;
    RewritesNext(next.bytes, p.bytes, b, ranges, src, k);
  }

  lemma RewritesNext(r: seq<byte>, before: seq<byte>, b: seq<byte>, ranges: seq<Range>, src: seq<byte>, k: nat)
    requires k < |ranges| && RangesWf(ranges, |src|) && RewrittenTo(before, b, ranges, src, k) && |r| == |b|
    requires forall q | 0 <= q < |b| :: r[q] == if Covers(ranges[k], q) then LeftBy(ranges[k], src, q) else before[q]
    ensures RewrittenTo(r, b, ranges, src, k + 1)
  {
    forall q | 0 <= q < |b|
      ensures (forall i | 0 <= i < k + 1 :: !Covers(ranges[i], q)) ==> r[q] == b[q]
      ensures forall i | 0 <= i < k + 1 && Covers(ranges[i], q) :: r[q] == LeftBy(ranges[i], src, q)
    {
      if Covers(ranges[k], q) {
        assert forall i | 0 <= i < k :: !Covers(ranges[i], q);
      } else {
        assert r[q] == before[q];
      }
    }
  }

  /** A delta file recording how `cur` differs from `ref`. */
  ghost predicate IsDelta(d: Delta, ref: File, cur: File, store: Store) {
    && d.size == cur.size
    && IsDiff(d.ranges, ref.extents, cur.extents, cur.size)
    && IsData(d.data, d.ranges, Content(cur, store), |d.ranges|)
  }

  method WriteDiskDelta(ref: File, src: File, store: Store) returns (d: Delta)
    requires Wf(ref) && Wf(src)
    ensures IsDelta(d, ref, src, store)
  {
    var ranges := DiffExtents(ref.extents, src.extents, src.size);
    d := WriteDeltaFile(ranges, Content(src, store));
  }

  /** Bytes and a new state agree wherever the reference and the new state map the same storage. */
  ghost predicate AgreesOnShared(dst: seq<byte>, ref: File, cur: File, store: Store) {
    forall q | 0 <= q < cur.size && MapAt(ref.extents, q) == MapAt(cur.extents, q) ::
      Resized(dst, cur.size)[q] == ByteAt(cur, store, q)
  }

  /**
    A replayed delta gives the current file if and only if the target already agreed with it
    wherever the two extent lists map the same storage.
  */
  lemma ApplyIsExact(dst: seq<byte>, d: Delta, ref: File, cur: File, store: Store)
    requires IsDelta(d, ref, cur, store)
    ensures ApplyDelta(dst, d).Ok?
    ensures ApplyDelta(dst, d) == Ok(Content(cur, store)) <==> AgreesOnShared(dst, ref, cur, store)
  {
    var want, base := Content(cur, store), Resized(dst, cur.size);
    var _ := ApplyRangesAt(base, d.ranges, want, d.data, |d.ranges|);
    var got := ApplyDelta(dst, d).value;
    forall q | 0 <= q < cur.size
      ensures MapAt(ref.extents, q) != MapAt(cur.extents, q) ==> got[q] == want[q]
      ensures MapAt(ref.extents, q) == MapAt(cur.extents, q) ==> got[q] == base[q]
    {
      assert ExactAt(d.ranges, ref.extents, cur.extents, q);
      if MapAt(ref.extents, q) != MapAt(cur.extents, q) {
        var i :| 0 <= i < |d.ranges| && Covers(d.ranges[i], q);
      }
    }
    assert got == want <==> forall q | 0 <= q < cur.size :: got[q] == want[q];
  }

  /** Storage mapped past a file's end reads as zeros, as block tails and preallocations do. */
  ghost predicate TailReadsZero(f: File, store: Store) {
    forall q | f.size <= q :: ByteAt(f, store, q) == 0
  }

  /** The delta applied to a copy of the reference yields the current file byte for byte. */
  lemma DeltaOntoReference(d: Delta, ref: File, cur: File, store: Store)
    requires IsDelta(d, ref, cur, store) && TailReadsZero(ref, store)
    ensures ApplyDelta(Content(ref, store), d) == Ok(Content(cur, store))
  {
    ApplyIsExact(Content(ref, store), d, ref, cur, store);
    forall q | 0 <= q < cur.size && MapAt(ref.extents, q) == MapAt(cur.extents, q)
      ensures Resized(Content(ref, store), cur.size)[q] == ByteAt(cur, store, q)
    {
      assert ByteAt(ref, store, q) == ByteAt(cur, store, q);
    }
  }
}
