/**
  Sparse tar entries of utils/tar.go: a file is archived whole, or as its data segments with a map of where
  they go, and extraction rebuilds it, seeking over zero blocks instead of writing them.
*/
module Tar {
  import opened Common

  const BLOCK := 4096
  const READ_BUF := 1048576
  const TWO64 := 0x1_0000_0000_0000_0000

  datatype Segment = Segment(offset: int, length: int)

  /** An archived file: a plain body, or a body with a sparse map and the real size. */
  datatype Entry = Plain(body: seq<byte>) | Sparse(segments: seq<Segment>, realSize: int, body: seq<byte>)

  predicate AllZero(s: seq<byte>) { forall i | 0 <= i < |s| :: s[i] == 0 }

  function Min(a: int, b: int): int { if a < b then a else b }

  function Max(a: int, b: int): int { if a < b then b else a }

  // ----- isAllZero

  /** The bytes as a little-endian number. */
  function Value(b: seq<byte>): (v: nat)
    ensures v == 0 <==> AllZero(b)
  {
    if b == [] then 0
    else
      var low: int := b[0];
      assert AllZero(b) <==> b[0] == 0 && AllZero(b[1..]) by { assert b == [b[0]] + b[1..]; }
      low + 0x100 * Value(b[1..])
  }

  method IsAllZero(s: seq<byte>) returns (zero: bool)
    ensures zero <==> AllZero(s)
  {
    var b := s;
    while |b| >= 8
      invariant |b| <= |s| && b == s[|s| - |b|..]
      invariant AllZero(s[..|s| - |b|])
      decreases |b|
    {
      // One word at a time: in either byte order it is zero exactly when its eight bytes are.
      if Value(b[..8]) != 0 {
        return false;
      }
      assert s[..|s| - |b| + 8] == s[..|s| - |b|] + b[..8];
      b := b[8..];
    }
    for i := 0 to |b|
      invariant AllZero(b[..i])
    {
      if b[i] != 0 {
        return false;
      }
    }
    assert s == s[..|s| - |b|] + b;
    zero := true;
  }

  // ----- a file being written

  /** What a write at pos leaves of the content, a gap reading as zeros. */
  function Written(data: seq<byte>, pos: nat, bytes: seq<byte>): seq<byte> {
    if bytes == [] then data
    else
      var size := Max(|data|, pos + |bytes|);
      seq(size, i requires 0 <= i < size =>
        if pos <= i < pos + |bytes| then bytes[i - pos] else if i < |data| then data[i] else 0)
  }

  lemma IsWritten(now: seq<byte>, data: seq<byte>, pos: nat, bytes: seq<byte>)
    requires |now| == if bytes == [] then |data| else Max(|data|, pos + |bytes|)
    requires forall i | 0 <= i < |now| ::
               now[i] == if pos <= i < pos + |bytes| then bytes[i - pos] else if i < |data| then data[i] else 0
    ensures now == Written(data, pos, bytes)
  {
  }

  function Span(at: int, n: nat): (s: set<int>)
    ensures forall i :: i in s <==> at <= i < at + n
  {
    if n == 0 then {} else Span(at, n - 1) + {at + n - 1}
  }

  /** An *os.File opened with O_TRUNC: its content and its offset. */
  class OutFile {
    var data: seq<byte>
    var pos: nat
    /** The offsets written to so far; all else is hole. */
    ghost var touched: set<int>

    constructor ()
      ensures data == [] && pos == 0 && touched == {}
    {
      data, pos, touched := [], 0, {};
    }

    method SeekStart(offset: nat)
      modifies this`pos
      ensures pos == offset
    {
      pos := offset;
    }

    method SeekCurrent(delta: nat)
      modifies this`pos
      ensures pos == old(pos) + delta
    {
      pos := pos + delta;
    }

    /**
      The bytes land at the offset, which moves past them; a gap before them reads as zeros, every other byte stays.
    */
    method Write(bytes: seq<byte>)
      modifies this
      ensures pos == old(pos) + |bytes| && touched == old(touched) + Span(old(pos), |bytes|)
      ensures |data| == if bytes == [] then |old(data)| else Max(|old(data)|, pos)
      ensures forall i | 0 <= i < |data| ::
                data[i] == if old(pos) <= i < pos then bytes[i - old(pos)]
                           else if i < |old(data)| then old(data)[i] else 0
    {
      touched := touched + Span(pos, |bytes|);
      if bytes == [] {
        return;
      }
      var end := pos + |bytes|;
      if end > |data| {
        Truncate(end);
      }
      data := data[..pos] + bytes + data[end..];
      pos := end;
    }

    /** Cut, or extended with zeros; the offset stays. */
    method Truncate(size: nat)
      modifies this`data
      ensures |data| == size
      ensures forall i | 0 <= i < size :: data[i] == if i < |old(data)| then old(data)[i] else 0
    {
      data := if size <= |data| then data[..size] else data + Zeros(size - |data|);
    }
  }

  // ----- extractFile

  /** The file holds what was consumed, up to zeros that were seeked over at its end. */
  predicate Holds(data: seq<byte>, pos: nat, consumed: seq<byte>) {
    && pos == |consumed| && |data| <= pos
    && (forall i | 0 <= i < |data| :: data[i] == consumed[i])
    && (forall i | |data| <= i < pos :: consumed[i] == 0)
  }

  lemma HoldsHole(data: seq<byte>, pos: nat, consumed: seq<byte>, run: seq<byte>)
    requires Holds(data, pos, consumed) && AllZero(run)
    ensures Holds(data, pos + |run|, consumed + run)
  {
  }

  lemma HoldsWritten(data: seq<byte>, pos: nat, consumed: seq<byte>, run: seq<byte>)
    requires Holds(data, pos, consumed) && run != []
    ensures Holds(Written(data, pos, run), pos + |run|, consumed + run) && |Written(data, pos, run)| == pos + |run|
  {
  }

  lemma HoldsAll(data: seq<byte>, pos: nat, consumed: seq<byte>, full: seq<byte>)
    requires Holds(data, pos, consumed) && |full| == pos
    requires forall i | 0 <= i < pos :: full[i] == if i < |data| then data[i] else 0
    ensures full == consumed
  {
  }

  /** Block k of the bytes, the last one cut short, is all zero. */
  predicate ZeroBlock(b: seq<byte>, k: nat) { forall i | BLOCK * k <= i < BLOCK * (k + 1) && i < |b| :: b[i] == 0 }

  lemma BlockIsZero(b: seq<byte>, k: nat)
    requires BLOCK * k < |b|
    ensures AllZero(b[BLOCK * k..Min(BLOCK * (k + 1), |b|)]) <==> ZeroBlock(b, k)
  {
    var part := b[BLOCK * k..Min(BLOCK * (k + 1), |b|)];
    assert forall i | BLOCK * k <= i < BLOCK * (k + 1) && i < |b| :: b[i] == part[i - BLOCK * k];
  }

  lemma ZeroBlocks(b: seq<byte>, n: nat)
    requires forall k | 0 <= k < n :: ZeroBlock(b, k)
    ensures AllZero(b[..Min(BLOCK * n, |b|)])
  {
    forall i | 0 <= i < Min(BLOCK * n, |b|) ensures b[i] == 0 {
      assert ZeroBlock(b, i / BLOCK);
    }
  }

  /** The run of n blocks at the front of the chunk that are all zero, or all not, up to the first of the other kind. */
  method NextRun(chunk: seq<byte>) returns (run: nat, hole: bool, ghost n: nat)
    requires chunk != []
    ensures n >= 1 && 0 < run == Min(BLOCK * n, |chunk|)
    ensures forall k | 0 <= k < n :: ZeroBlock(chunk, k) == hole
    ensures run < |chunk| ==> ZeroBlock(chunk, n) != hole
    ensures hole ==> AllZero(chunk[..run])
  {
    run := Min(BLOCK, |chunk|);
    hole := IsAllZero(chunk[..run]);
    n := 1;
    BlockIsZero(chunk, 0);
    while run < |chunk|
      invariant n >= 1 && Min(run, |chunk|) == Min(BLOCK * n, |chunk|) && 0 < run
      invariant run < |chunk| ==> run == BLOCK * n
      invariant forall k | 0 <= k < n :: ZeroBlock(chunk, k) == hole
      decreases |chunk| - run
    {
      var zero := IsAllZero(chunk[run..Min(run + BLOCK, |chunk|)]);
      BlockIsZero(chunk, n);
      if zero != hole {
        break;
      }
      run, n := run + BLOCK, n + 1;
    }
    run := Min(run, |chunk|);
    if hole {
      ZeroBlocks(chunk, n);
    }
  }

  /** Of the first n bytes of a buffer at base, exactly those in blocks with a nonzero byte were written. */
  ghost predicate Wrote(now: set<int>, was: set<int>, base: nat, buf: seq<byte>, n: nat) {
    forall i :: i in now <==> i in was || (base <= i < base + n && !InZeroBlock(buf, i - base))
  }

  predicate InZeroBlock(b: seq<byte>, i: nat) { ZeroBlock(b, i / BLOCK) }

  lemma WroteRun(now: set<int>, was: set<int>, base: nat, buf: seq<byte>, m: nat, n: nat, run: nat, hole: bool)
    requires Wrote(now, was, base, buf, BLOCK * m) && BLOCK * m < |buf| && run == Min(BLOCK * n, |buf| - BLOCK * m)
    requires forall k | m <= k < m + n :: ZeroBlock(buf, k) == hole
    ensures Wrote(if hole then now else now + Span(base + BLOCK * m, run), was, base, buf, BLOCK * m + run)
  {
    forall j | BLOCK * m <= j < BLOCK * m + run ensures InZeroBlock(buf, j) == hole {
      assert m <= j / BLOCK < m + n;
    }
  }

  lemma ShiftedBlock(b: seq<byte>, m: nat, k: nat)
    requires BLOCK * m <= |b|
    ensures ZeroBlock(b[BLOCK * m..], k) <==> ZeroBlock(b, m + k)
  {
    var c := b[BLOCK * m..];
    if ZeroBlock(c, k) {
      forall i | BLOCK * (m + k) <= i < BLOCK * (m + k + 1) && i < |b| ensures b[i] == 0 {
        assert b[i] == c[i - BLOCK * m];
      }
    }
    if ZeroBlock(b, m + k) {
      forall i | BLOCK * k <= i < BLOCK * (k + 1) && i < |c| ensures c[i] == 0 {
        assert c[i] == b[i + BLOCK * m];
      }
    }
  }

  /** One run is seeked over or written. */
  method PutRun(f: OutFile, part: seq<byte>, hole: bool, ghost consumed: seq<byte>)
    requires Holds(f.data, f.pos, consumed) && part != [] && (hole ==> AllZero(part))
    modifies f
    ensures Holds(f.data, f.pos, consumed + part) && (!hole ==> |f.data| == f.pos)
    ensures f.touched == if hole then old(f.touched) else old(f.touched) + Span(|consumed|, |part|)
  {
    if hole {
      HoldsHole(f.data, f.pos, consumed, part);
      f.SeekCurrent(|part|);
    } else {
      HoldsWritten(f.data, f.pos, consumed, part);
      ghost var was, at := f.data, f.pos;
      f.Write(part);
      IsWritten(f.data, was, at, part);
    }
  }

  /** The chunk loop over one buffer. */
  method WriteChunk(f: OutFile, buf: seq<byte>, ghost consumed: seq<byte>, ends: bool) returns (endsWithHole: bool)
    requires Holds(f.data, f.pos, consumed) && (!ends ==> |f.data| == f.pos)
    modifies f
    ensures Holds(f.data, f.pos, consumed + buf) && (!endsWithHole ==> |f.data| == f.pos)
    ensures Wrote(f.touched, old(f.touched), |consumed|, buf, |buf|)
  {
    endsWithHole := ends;
    var chunk := buf;
    ghost var done, m := 0, 0;
    assert consumed + buf[..0] == consumed;
    while |chunk| > 0
      invariant done + |chunk| == |buf| && chunk == buf[done..] && (chunk != [] ==> done == BLOCK * m)
      invariant Holds(f.data, f.pos, consumed + buf[..done]) && (!endsWithHole ==> |f.data| == f.pos)
      invariant Wrote(f.touched, old(f.touched), |consumed|, buf, done)
      decreases |chunk|
    {
      ghost var n;
      var run, hole;
      run, hole, n := NextRun(chunk);
      RunWrote(f.touched, old(f.touched), |consumed|, buf, chunk, m, n, run, hole);
      NextPart(consumed, buf, done, run);
      PutRun(f, chunk[..run], hole, consumed + buf[..done]);
      endsWithHole := hole;
      done, m := done + run, m + n;
      chunk := chunk[run..];
    }
    assert buf[..done] == buf;
  }

  lemma NextPart(consumed: seq<byte>, buf: seq<byte>, done: nat, run: nat)
    requires done + run <= |buf|
    ensures (consumed + buf[..done]) + buf[done..][..run] == consumed + buf[..done + run]
    ensures |consumed + buf[..done]| == |consumed| + done
  {
  }

  lemma RunWrote(now: set<int>, was: set<int>, base: nat, buf: seq<byte>, chunk: seq<byte>, m: nat, n: nat, run: nat,
                 hole: bool)
    requires BLOCK * m < |buf| && chunk == buf[BLOCK * m..] && run == Min(BLOCK * n, |chunk|)
    requires Wrote(now, was, base, buf, BLOCK * m) && forall k | 0 <= k < n :: ZeroBlock(chunk, k) == hole
    ensures Wrote(if hole then now else now + Span(base + BLOCK * m, run), was, base, buf, BLOCK * m + run)
  {
    forall k | m <= k < m + n ensures ZeroBlock(buf, k) == hole {
      ShiftedBlock(buf, m, k - m);
      assert ZeroBlock(chunk, k - m) == hole;
    }
    WroteRun(now, was, base, buf, m, n, run, hole);
  }

  /** Blocks of a buffer that starts on a block boundary, and ends on one or with the body, are blocks of the body. */
  lemma BufferBlock(body: seq<byte>, m: nat, n: nat, k: nat)
    requires BLOCK * m + n <= |body| && BLOCK * k < n && (BLOCK * m + n == |body| || n % BLOCK == 0)
    ensures ZeroBlock(body[BLOCK * m..BLOCK * m + n], k) <==> ZeroBlock(body, m + k)
  {
    ShiftedBlock(body, m, k);
    var c := body[BLOCK * m..BLOCK * m + n];
    assert forall i | 0 <= i < n :: c[i] == body[BLOCK * m..][i];
    if n % BLOCK == 0 {
      assert BLOCK * (k + 1) <= n;
    }
  }

  lemma BufferWrote(now: set<int>, was: set<int>, body: seq<byte>, m: nat, n: nat)
    requires Wrote(was, {}, 0, body, BLOCK * m) && BLOCK * m + n <= |body|
    requires BLOCK * m + n == |body| || n % BLOCK == 0
    requires Wrote(now, was, BLOCK * m, body[BLOCK * m..BLOCK * m + n], n)
    ensures Wrote(now, {}, 0, body, BLOCK * m + n)
  {
    forall i | BLOCK * m <= i < BLOCK * m + n
      ensures InZeroBlock(body[BLOCK * m..BLOCK * m + n], i - BLOCK * m) <==> InZeroBlock(body, i)
    {
      BufferBlock(body, m, n, (i - BLOCK * m) / BLOCK);
      assert m + (i - BLOCK * m) / BLOCK == i / BLOCK;
    }
  }

  /**
    The extracted file is the entry's bytes, whatever the buffer size and wherever its boundaries cut a zero run; with
    the size from the entry's header, exactly the blocks with a nonzero byte are written, so the others stay holes.
  */
  method ExtractFile(f: OutFile, body: seq<byte>, size: int)
    requires f.data == [] && f.pos == 0 && f.touched == {}
    modifies f
    ensures f.data == body
    ensures size == |body| ==> Wrote(f.touched, {}, 0, body, |body|)
  {
    var bufLen := Min(READ_BUF, Max(size, BLOCK));
    var total := 0;
    var endsWithHole := false;
    while true
      invariant 0 <= total <= |body|
      invariant Holds(f.data, f.pos, body[..total]) && (!endsWithHole ==> |f.data| == f.pos)
      invariant size == |body| ==> Wrote(f.touched, {}, 0, body, total) && (total < |body| ==> total % BLOCK == 0)
      decreases |body| - total
    {
      var n := Min(bufLen, |body| - total);
      ghost var touched := f.touched;
      endsWithHole := WriteChunk(f, body[total..total + n], body[..total], endsWithHole);
      if size == |body| && total < |body| {
        assert total == BLOCK * (total / BLOCK) && (total + n == |body| || n % BLOCK == 0);
        BufferWrote(f.touched, touched, body, total / BLOCK, n);
      }
      assert body[..total] + body[total..total + n] == body[..total + n];
      total := total + n;
      if n < bufLen {
        break;
      }
    }
    assert body[..total] == body;
    ghost var was := f.data;
    if endsWithHole {
      f.Truncate(total);
    }
    HoldsAll(was, f.pos, body, f.data);
  }

  // ----- extractFileSparse

  predicate InBounds(seg: Segment, size: int) {
    0 <= seg.offset && 0 <= seg.length && seg.offset <= size && seg.length <= size - seg.offset
  }

  predicate AllInBounds(segments: seq<Segment>, size: int) {
    forall i | 0 <= i < |segments| :: InBounds(segments[i], size)
  }

  /** The lengths of the first k segments. */
  function Sum(segments: seq<Segment>, k: nat): int
    requires k <= |segments|
  {
    if k == 0 then 0 else Sum(segments, k - 1) + segments[k - 1].length
  }

  function SumLengths(segments: seq<Segment>): int { Sum(segments, |segments|) }

  /** An int64 addition. */
  function Add64(a: int, b: int): int {
    var w := (a + b) % TWO64;
    if w > MAX_INT64 then w - TWO64 else w
  }

  /** The data with n bytes of the body, from `from` on, laid over it at the offset. */
  function Patched(data: seq<byte>, offset: nat, body: seq<byte>, from: nat, n: nat): seq<byte>
    requires offset + n <= |data| && from + n <= |body|
  {
    seq(|data|, i requires 0 <= i < |data| => if offset <= i < offset + n then body[from + (i - offset)] else data[i])
  }

  /** The first k segments laid over a file of zeros, taking their bytes from the body in order. */
  function Laid(segments: seq<Segment>, size: nat, body: seq<byte>, k: nat): (data: seq<byte>)
    requires k <= |segments| && AllInBounds(segments, size) && Sum(segments, k) <= |body|
    ensures |data| == size
  {
    if k == 0 then Zeros(size)
    else
      SumNonNegative(segments, size, k - 1);
      var from, seg := Sum(segments, k - 1), segments[k - 1];
      Patched(Laid(segments, size, body, k - 1), seg.offset, body, from, seg.length)
  }

  lemma {:induction false} SumNonNegative(segments: seq<Segment>, size: int, k: nat)
    requires k <= |segments| && AllInBounds(segments, size)
    ensures Sum(segments, k) >= 0
  {
    if k > 0 {
      SumNonNegative(segments, size, k - 1);
    }
  }

  lemma {:induction false} SumGrows(segments: seq<Segment>, size: int, k: nat)
    requires k <= |segments| && AllInBounds(segments, size)
    ensures Sum(segments, k) <= SumLengths(segments)
    decreases |segments| - k
  {
    if k < |segments| {
      SumGrows(segments, size, k + 1);
    }
  }

  /** What extraction of a sparse entry yields; None is an error. */
  function Extracted(e: Entry): Option<seq<byte>> {
    match e
    case Plain(body) => Some(body)
    case Sparse(segments, size, body) =>
      if size >= 0 && AllInBounds(segments, size) && SumLengths(segments) == |body| then
        Some(Laid(segments, size, body, |segments|))
      else None
  }

  lemma WrittenIsPatched(data: seq<byte>, offset: nat, body: seq<byte>, from: nat, n: nat)
    requires offset + n <= |data| && from + n <= |body|
    ensures Written(data, offset, body[from..from + n]) == Patched(data, offset, body, from, n)
  {
  }

  /** The first loop: every segment in bounds, and the sum as an int64. */
  method CheckMap(segments: seq<Segment>, realSize: int) returns (sum: Option<int>)
    ensures sum.Some? <==> AllInBounds(segments, realSize)
    ensures sum.Some? ==> (sum.value - SumLengths(segments)) % TWO64 == 0 && -MAX_INT64 - 1 <= sum.value <= MAX_INT64
  {
    var s := 0;
    for i := 0 to |segments|
      invariant forall k | 0 <= k < i :: InBounds(segments[k], realSize)
      invariant (s - Sum(segments, i)) % TWO64 == 0 && -MAX_INT64 - 1 <= s <= MAX_INT64
    {
      var seg := segments[i];
      if seg.offset < 0 || seg.length < 0 || seg.offset > realSize || seg.length > realSize - seg.offset {
        assert !InBounds(segments[i], realSize);
        return None;
      }
      AddWraps(s, seg.length, Sum(segments, i));
      s := Add64(s, seg.length);
    }
    return Some(s);
  }

  lemma AddWraps(a: int, b: int, t: int)
    requires (a - t) % TWO64 == 0
    ensures (Add64(a, b) - (t + b)) % TWO64 == 0 && -MAX_INT64 - 1 <= Add64(a, b) <= MAX_INT64
  {
    var w := (a + b) % TWO64;
    assert (a + b) - w == TWO64 * ((a + b) / TWO64);
    assert a - t == TWO64 * ((a - t) / TWO64);
  }

  lemma SameInt64(a: int, b: int)
    requires 0 <= a <= MAX_INT64 && 0 <= b <= MAX_INT64 && (a - b) % TWO64 == 0
    ensures a == b
  {
    assert a - b == TWO64 * ((a - b) / TWO64);
  }

  /** One seek and one copy lay the next segment. */
  lemma LaidNext(segments: seq<Segment>, size: nat, body: seq<byte>, k: nat)
    requires k < |segments| && AllInBounds(segments, size) && Sum(segments, k + 1) <= |body|
    ensures var from := Sum(segments, k);
            && 0 <= from <= from + segments[k].length <= |body|
            && Laid(segments, size, body, k + 1) ==
               Written(Laid(segments, size, body, k), segments[k].offset, body[from..from + segments[k].length])
  {
    SumNonNegative(segments, size, k);
    var from := Sum(segments, k);
    WrittenIsPatched(Laid(segments, size, body, k), segments[k].offset, body, from, segments[k].length);
  }

  /** The copy loop; ok is false when the body runs out. */
  method LayAll(f: OutFile, segments: seq<Segment>, size: nat, body: seq<byte>) returns (ok: bool)
    requires AllInBounds(segments, size) && f.data == Zeros(size)
    modifies f
    ensures ok <==> SumLengths(segments) <= |body|
    ensures ok ==> f.data == Laid(segments, size, body, |segments|)
  {
    var used := 0;
    for k := 0 to |segments|
      invariant used == Sum(segments, k) && used <= |body|
      invariant f.data == Laid(segments, size, body, k)
    {
      var seg := segments[k];
      f.SeekStart(seg.offset);
      if seg.length > |body| - used {
        SumGrows(segments, size, k + 1);
        return false;
      }
      LaidNext(segments, size, body, k);
      ghost var was := f.data;
      f.Write(body[used..used + seg.length]);
      IsWritten(f.data, was, seg.offset, body[used..used + seg.length]);
      used := used + seg.length;
    }
    ok := true;
  }

  /** The file is rebuilt exactly when the map is in bounds and describes as many bytes as the entry holds. */
  method ExtractFileSparse(f: OutFile, segments: seq<Segment>, realSize: int, body: seq<byte>) returns (ok: bool)
    requires f.data == [] && f.pos == 0 && |body| <= MAX_INT64
    modifies f
    ensures ok <==> Extracted(Sparse(segments, realSize, body)).Some?
    ensures ok ==> f.data == Extracted(Sparse(segments, realSize, body)).value
  {
    if realSize < 0 {
      return false;
    }
    f.Truncate(realSize);
    assert f.data == Zeros(realSize);
    var sum := CheckMap(segments, realSize);
    if sum.None? {
      return false;
    }
    if sum.value != |body| {
      return false;
    }
    SumNonNegative(segments, realSize, |segments|);
    ok := LayAll(f, segments, realSize, body);
    if SumLengths(segments) <= |body| {
      SameInt64(|body|, SumLengths(segments));
    }
  }

  // ----- tarFileMaybeSparse

  /** The first k segments' bytes, one after the other. */
  function Collected(content: seq<byte>, segments: seq<Segment>, k: nat): seq<byte>
    requires k <= |segments| && AllInBounds(segments, |content|)
  {
    if k == 0 then []
    else
      var seg := segments[k - 1];
      Collected(content, segments, k - 1) + content[seg.offset..seg.offset + seg.length]
  }

  /** The entry of a file: scan is what the data-segment scan found, None when it failed. */
  function Archived(content: seq<byte>, scan: Option<seq<Segment>>, mapTooLarge: bool): Entry
    requires scan.Some? ==> AllInBounds(scan.value, |content|)
  {
    if scan.None? || SumLengths(scan.value) == |content| || mapTooLarge then Plain(content)
    else Sparse(scan.value, |content|, Collected(content, scan.value, |scan.value|))
  }

  /** The segments lie in the file, as the kernel reports them, and their lengths add up within an int64. */
  method TarFileMaybeSparse(content: seq<byte>, scan: Option<seq<Segment>>, mapSize: nat, maxMapSize: nat)
    returns (e: Entry)
    requires scan.Some? ==> AllInBounds(scan.value, |content|) && SumLengths(scan.value) <= MAX_INT64
    ensures e == Archived(content, scan, mapSize > maxMapSize)
    ensures e.Sparse? <==> scan.Some? && SumLengths(scan.value) != |content| && mapSize <= maxMapSize
    ensures e.Plain? ==> e.body == content
    ensures e.Sparse? ==> e.segments == scan.value && e.realSize == |content| && |e.body| == SumLengths(scan.value)
  {
    if scan.None? {
      return Plain(content);
    }
    var segments := scan.value;
    CollectedLength(content, segments, |segments|);
    var dataSize := 0;
    for i := 0 to |segments|
      invariant dataSize == Sum(segments, i)
    {
      dataSize := dataSize + segments[i].length;
    }
    if dataSize == |content| {
      return Plain(content);
    }
    if mapSize > maxMapSize {
      return Plain(content);
    }
    var body: seq<byte> := [];
    for i := 0 to |segments|
      invariant body == Collected(content, segments, i)
    {
      var seg := segments[i];
      body := body + content[seg.offset..seg.offset + seg.length];
    }
    return Sparse(segments, |content|, body);
  }

  // ----- scanDataSegments
  //
  // A file's bytes are data or hole; `mapped` says which. The kernel's SEEK_DATA and SEEK_HOLE look ahead in that
  // map, the end of the file counting as a hole.

  /** The first offset from `at` on that is data, or hole, as wanted; the size if there is none. */
  function Seek(mapped: seq<bool>, at: nat, want: bool): (r: nat)
    requires at <= |mapped|
    ensures at <= r <= |mapped| && (r < |mapped| ==> mapped[r] == want)
    decreases |mapped| - at
  {
    if at == |mapped| || mapped[at] == want then at else Seek(mapped, at + 1, want)
  }

  lemma {:induction false} SeekPasses(mapped: seq<bool>, at: nat, want: bool, i: nat)
    requires at <= i < |mapped| && i < Seek(mapped, at, want)
    ensures mapped[i] != want
    decreases |mapped| - at
  {
    if at < i {
      SeekPasses(mapped, at + 1, want, i);
    }
  }

  predicate Reaches(seg: Segment, end: int) { 0 <= seg.offset && 0 < seg.length && seg.offset + seg.length <= end }

  /** The segments lie in order in the first `end` bytes, with a hole between any two. */
  predicate Spaced(segments: seq<Segment>, end: int) {
    && (forall i | 0 <= i < |segments| :: Reaches(segments[i], end))
    && (forall i, j | 0 <= i < j < |segments| :: segments[i].offset + segments[i].length < segments[j].offset)
  }

  /** Up to `end`, the segments hold exactly the data. */
  predicate HoldsData(segments: seq<Segment>, mapped: seq<bool>, end: nat)
    requires end <= |mapped|
  {
    forall i {:trigger Covered(segments, |segments|, i)} | 0 <= i < end ::
      mapped[i] <==> Covered(segments, |segments|, i)
  }

  lemma CoveredSnoc(segments: seq<Segment>, seg: Segment, i: int)
    ensures Covered(segments + [seg], |segments| + 1, i) <==> Covered(segments, |segments|, i) || Inside(seg, i)
  {
    var more := segments + [seg];
    if Covered(segments, |segments|, i) {
      var j :| 0 <= j < |segments| && Inside(segments[j], i);
      assert Inside(more[j], i);
    }
    if Inside(seg, i) {
      assert Inside(more[|segments|], i);
    }
    if Covered(more, |segments| + 1, i) && !Inside(seg, i) {
      var j :| 0 <= j < |segments| + 1 && Inside(more[j], i);
      assert Inside(segments[j], i);
    }
  }

  /** The lengths of the first segments add up to no more than where the last of them ends. */
  lemma {:induction false} SpacedSum(segments: seq<Segment>, end: int, k: nat)
    requires Spaced(segments, end) && 0 < k <= |segments|
    ensures Sum(segments, k) <= segments[k - 1].offset + segments[k - 1].length
  {
    assert Reaches(segments[k - 1], end);
    if k > 1 {
      SpacedSum(segments, end, k - 1);
      assert segments[k - 2].offset + segments[k - 2].length < segments[k - 1].offset;
    } else {
      assert Sum(segments, 1) == Sum(segments, 0) + segments[0].length;
    }
  }

  lemma SpacedInBounds(segments: seq<Segment>, size: nat)
    requires Spaced(segments, size)
    ensures AllInBounds(segments, size) && SumLengths(segments) <= size
  {
    forall k | 0 <= k < |segments| ensures InBounds(segments[k], size) {
      assert Reaches(segments[k], size);
    }
    if segments != [] {
      SpacedSum(segments, size, |segments|);
      assert Reaches(segments[|segments| - 1], size);
    }
  }

  /** The scan has come to `at`: the data before it is found, and after a segment it stands on a hole. */
  predicate Scanned(segments: seq<Segment>, mapped: seq<bool>, at: nat) {
    && at <= |mapped| && Spaced(segments, at) && HoldsData(segments, mapped, at)
    && (segments != [] && at < |mapped| ==> !mapped[at])
  }

  lemma NothingAhead(segments: seq<Segment>, end: int, i: int)
    requires Spaced(segments, end) && end <= i
    ensures !Covered(segments, |segments|, i)
  {
    forall k | 0 <= k < |segments| ensures !Inside(segments[k], i) {
      assert Reaches(segments[k], end);
    }
  }

  lemma ScanEnds(segments: seq<Segment>, mapped: seq<bool>, at: nat)
    requires Scanned(segments, mapped, at) && Seek(mapped, at, true) == |mapped|
    ensures Scanned(segments, mapped, |mapped|)
  {
    forall i | at <= i < |mapped| ensures !mapped[i] && !Covered(segments, |segments|, i) {
      SeekPasses(mapped, at, true, i);
      NothingAhead(segments, at, i);
    }
    assert Spaced(segments, |mapped|) by {
      SpacedWiden(segments, at, |mapped|);
    }
  }

  lemma SpacedWiden(segments: seq<Segment>, end: int, more: int)
    requires Spaced(segments, end) && end <= more
    ensures Spaced(segments, more)
  {
    forall k | 0 <= k < |segments| ensures Reaches(segments[k], more) {
      assert Reaches(segments[k], end);
    }
  }

  lemma SpacedSnoc(segments: seq<Segment>, end: int, seg: Segment, more: int)
    requires Spaced(segments, end) && end <= more && Reaches(seg, more) && (segments != [] ==> end < seg.offset)
    ensures Spaced(segments + [seg], more)
  {
    SpacedWiden(segments, end, more);
    var all := segments + [seg];
    forall i, j | 0 <= i < j < |all| ensures all[i].offset + all[i].length < all[j].offset {
      assert Reaches(segments[i], end);
    }
  }

  /** One turn of the scan: the next stretch of data, up to the hole after it. */
  lemma ScanStep(segments: seq<Segment>, mapped: seq<bool>, at: nat)
    requires Scanned(segments, mapped, at) && Seek(mapped, at, true) < |mapped|
    ensures var start := Seek(mapped, at, true); var next := Seek(mapped, start, false);
            at < next && Scanned(segments + [Segment(start, next - start)], mapped, next)
  {
    var start := Seek(mapped, at, true);
    var next := Seek(mapped, start, false);
    var seg := Segment(start, next - start);
    SpacedSnoc(segments, at, seg, next);
    forall i | 0 <= i < next ensures mapped[i] <==> Covered(segments + [seg], |segments| + 1, i) {
      CoveredSnoc(segments, seg, i);
      if at <= i {
        NothingAhead(segments, at, i);
        if i < start {
          SeekPasses(mapped, at, true, i);
        } else {
          SeekPasses(mapped, start, false, i);
        }
      }
    }
  }

  /** Some seek the scan makes from `at` on fails with an error of its own. */
  predicate SeekFails(mapped: seq<bool>, broken: set<int>, at: nat)
    requires at <= |mapped|
    decreases |mapped| - at
  {
    at < |mapped| &&
    (at in broken ||
     (var start := Seek(mapped, at, true);
      start < |mapped| && (start in broken || SeekFails(mapped, broken, Seek(mapped, start, false)))))
  }

  /**
    The scan finds the file's data and nothing else, as non-empty segments in order with holes between them; it fails
    exactly when a seek it makes does.
  */
  method ScanDataSegments(mapped: seq<bool>, broken: set<int>) returns (scan: Option<seq<Segment>>)
    ensures scan.None? <==> SeekFails(mapped, broken, 0)
    ensures scan.Some? ==> Spaced(scan.value, |mapped|) && HoldsData(scan.value, mapped, |mapped|)
  {
    ghost var fails := SeekFails(mapped, broken, 0);
    var segments: seq<Segment> := [];
    var offset := 0;
    while offset < |mapped|
      invariant 0 <= offset <= |mapped| && Scanned(segments, mapped, offset)
      invariant SeekFails(mapped, broken, offset) <==> fails
      decreases |mapped| - offset
    {
      if offset in broken {
        return None;
      }
      var dataStart := Seek(mapped, offset, true);
      if dataStart == |mapped| {
        ScanEnds(segments, mapped, offset);
        return Some(segments);
      }
      if dataStart in broken {
        return None;
      }
      var holeStart := Seek(mapped, dataStart, false);
      ScanStep(segments, mapped, offset);
      segments := segments + [Segment(dataStart, holeStart - dataStart)];
      offset := holeStart;
    }
    return Some(segments);
  }

  /** What the kernel promises of a hole: it reads as zeros. */
  predicate HolesAreZero(content: seq<byte>, mapped: seq<bool>) {
    |mapped| == |content| && forall i | 0 <= i < |content| :: mapped[i] || content[i] == 0
  }

  /** So the scan's segments are in bounds, add up to no more than the file, and cover its nonzero bytes. */
  lemma ScanCoversData(content: seq<byte>, mapped: seq<bool>, segments: seq<Segment>)
    requires HolesAreZero(content, mapped)
    requires Spaced(segments, |mapped|) && HoldsData(segments, mapped, |mapped|)
    ensures AllInBounds(segments, |content|) && SumLengths(segments) <= |content| && CoversData(content, segments)
  {
    SpacedInBounds(segments, |content|);
  }

  /** A hole leaves less data than the file is long. */
  lemma HoleShortens(segments: seq<Segment>, mapped: seq<bool>, hole: nat)
    requires Spaced(segments, |mapped|) && HoldsData(segments, mapped, |mapped|) && hole < |mapped| && !mapped[hole]
    ensures SumLengths(segments) < |mapped|
  {
    var n := |segments|;
    if n >= 1 {
      SpacedSum(segments, |mapped|, n);
      assert Reaches(segments[n - 1], |mapped|);
      if n >= 2 {
        SpacedSum(segments, |mapped|, n - 1);
        assert segments[n - 2].offset + segments[n - 2].length < segments[n - 1].offset;
      } else {
        assert Sum(segments, 1) == Sum(segments, 0) + segments[0].length;
        assert !Covered(segments, 1, hole);
        assert !Inside(segments[0], hole);
      }
    }
  }

  /** The byte after the first of several segments is in none. */
  lemma GapIsUncovered(segments: seq<Segment>, size: int)
    requires Spaced(segments, size) && |segments| > 1
    ensures var end := segments[0].offset + segments[0].length;
            0 <= end < size && !Covered(segments, |segments|, end)
  {
    var end := segments[0].offset + segments[0].length;
    assert Reaches(segments[0], size) && Reaches(segments[1], size);
    forall j | 0 <= j < |segments| ensures !Inside(segments[j], end) {
      if j > 0 {
        assert end < segments[j].offset;
      }
    }
  }

  /** A file with no hole is one segment. */
  lemma DenseIsWhole(segments: seq<Segment>, mapped: seq<bool>)
    requires Spaced(segments, |mapped|) && HoldsData(segments, mapped, |mapped|)
    requires forall i | 0 <= i < |mapped| :: mapped[i]
    ensures SumLengths(segments) == |mapped|
  {
    var n, size := |segments|, |mapped|;
    if size > 0 {
      assert Covered(segments, n, 0);
    }
    if n > 0 {
      assert Reaches(segments[0], size);
      assert Covered(segments, n, 0) && Covered(segments, n, size - 1);
      if n > 1 {
        GapIsUncovered(segments, size);
        assert false;
      }
      assert Sum(segments, 1) == Sum(segments, 0) + segments[0].length;
    }
  }

  // ----- the round trip

  predicate Inside(seg: Segment, i: int) { seg.offset <= i < seg.offset + seg.length }

  /** One of the first k segments holds byte i. */
  predicate Covered(segments: seq<Segment>, k: nat, i: int)
    requires k <= |segments|
  {
    exists j | 0 <= j < k :: Inside(segments[j], i)
  }

  predicate CoversData(content: seq<byte>, segments: seq<Segment>) {
    forall i | 0 <= i < |content| && content[i] != 0 :: Covered(segments, |segments|, i)
  }

  lemma {:induction false} CollectedLength(content: seq<byte>, segments: seq<Segment>, k: nat)
    requires k <= |segments| && AllInBounds(segments, |content|)
    ensures |Collected(content, segments, k)| == Sum(segments, k)
  {
    if k > 0 {
      CollectedLength(content, segments, k - 1);
    }
  }

  lemma {:induction false} CollectedPrefix(content: seq<byte>, segments: seq<Segment>, k: nat)
    requires AllInBounds(segments, |content|) && k <= |segments|
    ensures Collected(content, segments, k) <= Collected(content, segments, |segments|)
    decreases |segments| - k
  {
    if k < |segments| {
      CollectedPrefix(content, segments, k + 1);
    }
  }

  /** The k-th slice of the collected body is the k-th segment. */
  lemma SliceIsSegment(content: seq<byte>, segments: seq<Segment>, k: nat, i: nat)
    requires AllInBounds(segments, |content|) && k < |segments| && i < |content|
    ensures var from := Sum(segments, k); var body := Collected(content, segments, |segments|); var seg := segments[k];
            && 0 <= from && from + seg.length <= |body|
            && (Inside(seg, i) ==> body[from + (i - seg.offset)] == content[i])
  {
    CollectedLength(content, segments, k);
    CollectedLength(content, segments, k + 1);
    CollectedPrefix(content, segments, k + 1);
    var from, seg := Sum(segments, k), segments[k];
    var front := Collected(content, segments, k + 1);
    assert Inside(seg, i) ==> front[from + (i - seg.offset)] == content[i];
  }

  lemma PatchedAt(data: seq<byte>, seg: Segment, body: seq<byte>, from: nat, i: nat)
    requires InBounds(seg, |data|) && from + seg.length <= |body| && i < |data|
    ensures Patched(data, seg.offset, body, from, seg.length)[i] ==
            if Inside(seg, i) then body[from + (i - seg.offset)] else data[i]
  {
  }

  lemma CoveredNext(segments: seq<Segment>, k: nat, i: int)
    requires k < |segments|
    ensures Covered(segments, k + 1, i) <==> Covered(segments, k, i) || Inside(segments[k], i)
  {
  }

  /** After k segments, covered bytes are the file's and the rest are zero. */
  lemma {:induction false} LaidMeans(content: seq<byte>, segments: seq<Segment>, k: nat, i: nat)
    requires AllInBounds(segments, |content|) && k <= |segments| && i < |content|
    ensures var body := Collected(content, segments, |segments|);
            && Sum(segments, k) <= |body|
            && Laid(segments, |content|, body, k)[i] == if Covered(segments, k, i) then content[i] else 0
    decreases k
  {
    assert Sum(segments, k) <= |Collected(content, segments, |segments|)| by {
      CollectedLength(content, segments, |segments|);
      SumGrows(segments, |content|, k);
    }
    if k > 0 {
      LaidMeans(content, segments, k - 1, i);
      SliceIsSegment(content, segments, k - 1, i);
      LaidStep(content, segments, Collected(content, segments, |segments|), k - 1, i);
      CoveredNext(segments, k - 1, i);
    }
  }

  /** Laying one segment changes the bytes inside it, to the file's. */
  lemma LaidStep(content: seq<byte>, segments: seq<Segment>, body: seq<byte>, k: nat, i: nat)
    requires AllInBounds(segments, |content|) && k < |segments| && i < |content|
    requires 0 <= Sum(segments, k) && Sum(segments, k) + segments[k].length <= |body|
    requires Inside(segments[k], i) ==> body[Sum(segments, k) + (i - segments[k].offset)] == content[i]
    ensures Laid(segments, |content|, body, k + 1)[i] ==
            if Inside(segments[k], i) then content[i] else Laid(segments, |content|, body, k)[i]
  {
    assert InBounds(segments[k], |content|);
    PatchedAt(Laid(segments, |content|, body, k), segments[k], body, Sum(segments, k), i);
  }

  /**
    Whichever branch archives the file, extraction restores its exact bytes and length, for every content and every
    segment list that covers its nonzero bytes; and the sparse branch does so for no other list.
  */
  lemma RoundTripExactly(content: seq<byte>, scan: Option<seq<Segment>>, mapTooLarge: bool)
    requires scan.Some? ==> AllInBounds(scan.value, |content|)
    ensures var e := Archived(content, scan, mapTooLarge);
            Extracted(e) == Some(content) <==> e.Plain? || CoversData(content, scan.value)
  {
    var e := Archived(content, scan, mapTooLarge);
    if e.Sparse? {
      var segments := scan.value;
      CollectedLength(content, segments, |segments|);
      var data := Extracted(e).value;
      forall i | 0 <= i < |content| ensures data[i] == if Covered(segments, |segments|, i) then content[i] else 0 {
        LaidMeans(content, segments, |segments|, i);
      }
      if CoversData(content, segments) {
        assert data == content;
      } else {
        var i :| 0 <= i < |content| && content[i] != 0 && !Covered(segments, |segments|, i);
        assert data[i] != content[i];
      }
    }
  }

  /** The scan's data falls short of the file exactly when the file has a hole. */
  lemma SparseExactly(segments: seq<Segment>, mapped: seq<bool>)
    requires Spaced(segments, |mapped|) && HoldsData(segments, mapped, |mapped|)
    ensures SumLengths(segments) < |mapped| <==> false in mapped
    ensures SumLengths(segments) <= |mapped|
  {
    if false in mapped {
      var hole :| 0 <= hole < |mapped| && !mapped[hole];
      HoleShortens(segments, mapped, hole);
    } else {
      assert forall i | 0 <= i < |mapped| :: mapped[i] in mapped;
      DenseIsWhole(segments, mapped);
    }
  }

  /** Scan, archive and extract: the file comes back, whatever of it is hole and whichever seek of the scan fails. */
  method ArchiveAndExtract(content: seq<byte>, mapped: seq<bool>, broken: set<int>, mapSize: nat, maxMapSize: nat,
                           f: OutFile)
    returns (ok: bool, e: Entry)
    requires HolesAreZero(content, mapped) && |content| <= MAX_INT64
    requires f.data == [] && f.pos == 0 && f.touched == {}
    modifies f
    ensures ok && f.data == content
    ensures e.Sparse? <==> !SeekFails(mapped, broken, 0) && false in mapped && mapSize <= maxMapSize
    ensures e.Sparse? ==> |e.body| < |content|
  {
    var scan := ScanDataSegments(mapped, broken);
    if scan.Some? {
      ScanCoversData(content, mapped, scan.value);
      SparseExactly(scan.value, mapped);
    }
    e := TarFileMaybeSparse(content, scan, mapSize, maxMapSize);
    RoundTripExactly(content, scan, mapSize > maxMapSize);
    if e.Plain? {
      ExtractFile(f, e.body, |e.body|);
      ok := true;
    } else {
      CollectedLength(content, scan.value, |scan.value|);
      ok := ExtractFileSparse(f, e.segments, e.realSize, e.body);
    }
  }
}
