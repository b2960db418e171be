/**
  Long file names of metadata/fat12.go: the entries that carry a name of UTF-16 units, thirteen to an
  entry, and the reader that puts it back together. The layout is that of the Microsoft FAT specification
  version 1.03, section "FAT Long Directory Entries".
*/
module Vfat {
  import opened Common

  type unit = x: int | 0 <= x < 0x1_0000

  const ENTRY := 32
  const PER_ENTRY := 13
  const LONG_ATTR := 0x0F
  const LAST_FLAG := 0x40

  // ----- the checksum

  /** One step of the checksum: rotate right by one, then add, in a byte. */
  function Fold(sum: byte, b: byte): byte { (sum / 2 + sum % 2 * 0x80 + b) % 0x100 }

  /** The checksum of the first n bytes. */
  function ChecksumTo(short: seq<byte>, n: nat): byte
    requires n <= |short|
  {
    if n == 0 then 0 else Fold(ChecksumTo(short, n - 1), short[n - 1])
  }

  function Checksum(short: seq<byte>): byte { ChecksumTo(short, |short|) }

  /** A byte rotated right by one bit. */
  function Rotated(x: bv8): bv8 { (x >> 1) | (x << 7) }

  lemma RotatedIs(x: bv8)
    ensures Rotated(x) as int == (x as int) / 2 + (x as int) % 2 * 0x80
  {
  }

  lemma {:induction false} ChecksumOfPrefix(short: seq<byte>, more: seq<byte>, n: nat)
    requires n <= |short| && short <= more
    ensures ChecksumTo(more, n) == ChecksumTo(short, n)
  {
    if n > 0 {
      ChecksumOfPrefix(short, more, n - 1);
    }
  }

  /** One more byte rotates the sum right by one bit and adds the byte, in a byte. */
  lemma ChecksumAppends(short: seq<byte>, b: byte, x: bv8)
    requires x as int == Checksum(short)
    ensures Checksum([]) == 0 && Checksum(short + [b]) == (Rotated(x) as int + b) % 0x100
  {
    RotatedIs(x);
    ChecksumOfPrefix(short, short + [b], |short|);
  }

  lemma ChecksumNext(short: seq<byte>, n: nat, c: byte)
    requires n < |short| && ChecksumTo(short, n) == c
    ensures ChecksumTo(short, n + 1) == (c / 2 + c % 2 * 0x80 + short[n]) % 0x100
  {
  }

  /** Swapping two neighbouring bytes can change the sum. */
  lemma ChecksumIsOrdered(a: seq<byte>, b: seq<byte>)
    requires |a| == |b| == 2 && a[0] == b[1] == 1 && a[1] == b[0] == 2
    ensures Checksum(a) == 130 && Checksum(b) == 2
  {
    ChecksumNext(a, 0, 0);
    ChecksumNext(a, 1, 1);
    ChecksumNext(b, 0, 0);
    ChecksumNext(b, 1, 2);
  }

  /** The short name "META-D~1   ", which "meta-data" gets. */
  predicate IsMetaData(s: seq<byte>) {
    && |s| == 11 && s[0] == 0x4D && s[1] == 0x45 && s[2] == 0x54 && s[3] == 0x41 && s[4] == 0x2D && s[5] == 0x44
    && s[6] == 0x7E && s[7] == 0x31 && s[8] == s[9] == s[10] == 0x20
  }

  lemma MetaDataChecksum(s: seq<byte>)
    requires IsMetaData(s)
    ensures Checksum(s) == 212
  {
    ChecksumNext(s, 0, 0);
    ChecksumNext(s, 1, 77);
    ChecksumNext(s, 2, 235);
    ChecksumNext(s, 3, 73);
    ChecksumNext(s, 4, 229);
    ChecksumNext(s, 5, 31);
    ChecksumNext(s, 6, 211);
    ChecksumNext(s, 7, 103);
    ChecksumNext(s, 8, 228);
    ChecksumNext(s, 9, 146);
    ChecksumNext(s, 10, 105);
  }

  method LfnChecksum(short: seq<byte>) returns (sum: byte)
    ensures sum == Checksum(short)
  {
    sum := 0;
    for i := 0 to |short|
      invariant sum == ChecksumTo(short, i)
    {
      sum := (sum / 2 + sum % 2 * 0x80 + short[i]) % 0x100;
    }
  }

  // ----- characters in entries

  /** What slot idx of the name's entries holds: a unit, the terminator, or padding. */
  function CharAt(units: seq<unit>, idx: nat): unit {
    if idx < |units| then units[idx] else if idx == |units| then 0 else 0xFFFF
  }

  /** Where the k-th character of an entry is stored. */
  function CharPos(k: nat): (p: nat)
    requires k < PER_ENTRY
    ensures 1 <= p <= ENTRY - 2
  {
    if k < 5 then 1 + 2 * k else if k < 11 then 14 + 2 * (k - 5) else 28 + 2 * (k - 11)
  }

  function Unit(entry: seq<byte>, at: nat): unit
    requires at + 1 < |entry|
  {
    var low: int, high: int := entry[at], entry[at + 1];
    low + 0x100 * high
  }

  /** count characters of the name from offset on are stored from dst on. */
  predicate CharsAt(entry: seq<byte>, dst: nat, units: seq<unit>, offset: nat, count: nat)
    requires dst + 2 * count <= |entry|
  {
    forall j | 0 <= j < count :: Unit(entry, dst + 2 * j) == CharAt(units, offset + j)
  }

  lemma CharsKept(before: seq<byte>, entry: seq<byte>, dst: nat, units: seq<unit>, offset: nat, count: nat)
    requires |before| == |entry| && dst + 2 * count <= |entry| && CharsAt(before, dst, units, offset, count)
    requires forall i | dst <= i < dst + 2 * count :: entry[i] == before[i]
    ensures CharsAt(entry, dst, units, offset, count)
  {
    forall j | 0 <= j < count ensures Unit(entry, dst + 2 * j) == CharAt(units, offset + j) {
      assert Unit(before, dst + 2 * j) == CharAt(units, offset + j);
    }
  }

  /** Characters offset.. offset+count of the name, written at dst; a slot of the terminator is left alone. */
  method PutLFNChars(entry: array<byte>, dst: nat, units: seq<unit>, offset: nat, count: nat)
    requires dst + 2 * count <= entry.Length && forall i | dst <= i < dst + 2 * count :: entry[i] == 0
    modifies entry
    ensures CharsAt(entry[..], dst, units, offset, count)
    ensures forall i | 0 <= i < entry.Length && !(dst <= i < dst + 2 * count) :: entry[i] == old(entry[i])
  {
    for j := 0 to count
      invariant CharsAt(entry[..], dst, units, offset, j)
      invariant forall i | 0 <= i < entry.Length && !(dst <= i < dst + 2 * j) :: entry[i] == old(entry[i])
    {
      var idx, pos := offset + j, dst + 2 * j;
      ghost var before := entry[..];
      if idx < |units| {
        entry[pos] := units[idx] % 0x100;
        entry[pos + 1] := units[idx] / 0x100;
      } else if idx == |units| {
      } else {
        entry[pos] := 0xFF;
        entry[pos + 1] := 0xFF;
      }
      CharsKept(before, entry[..], dst, units, offset, j);
    }
  }

  // ----- entries

  function EntryCount(units: seq<unit>): nat { (|units| + 12) / PER_ENTRY }

  /** Or-ing in the last-entry flag: a byte whose flag bit is set already stays as it is. */
  function Flagged(number: byte): byte { if number / LAST_FLAG % 2 == 1 then number else number + LAST_FLAG }

  /** Byte 0 of the i-th of n entries: the number, cut to a byte, with the flag on the last. */
  function NumberByte(i: nat, n: nat): byte {
    var number := (i + 1) % 0x100;
    if i == n - 1 then Flagged(number) else number
  }

  /** In a directory of at most 127 such entries the number is neither an end nor a free mark. */
  lemma NumberIsSeen(i: nat, n: nat)
    requires i < n < 128
    ensures NumberByte(i, n) != 0 && NumberByte(i, n) != 0xE5
  {
  }

  /** entry is the i-th of the n entries of a long name, in name order. */
  predicate IsLong(entry: seq<byte>, units: seq<unit>, i: nat, n: nat, sum: byte) {
    && |entry| == ENTRY && entry[0] == NumberByte(i, n) && entry[11] == LONG_ATTR && entry[13] == sum
    && entry[12] == 0 && entry[26] == 0 && entry[27] == 0
    && forall k | 0 <= k < PER_ENTRY :: Unit(entry, CharPos(k)) == CharAt(units, PER_ENTRY * i + k)
  }

  /** The name reads back: it is not empty, holds no NUL, and its numbers stay clear of the last-entry flag. */
  predicate Named(units: seq<unit>) { 1 <= |units| <= 63 * PER_ENTRY && forall i | 0 <= i < |units| :: units[i] != 0 }

  lemma CharsTogether(entry: seq<byte>, units: seq<unit>, base: nat, k: nat)
    requires |entry| == ENTRY && k < PER_ENTRY
    requires CharsAt(entry, 1, units, base, 5) && CharsAt(entry, 14, units, base + 5, 6) &&
             CharsAt(entry, 28, units, base + 11, 2)
    ensures Unit(entry, CharPos(k)) == CharAt(units, base + k)
  {
    if k < 5 {
      assert Unit(entry, 1 + 2 * k) == CharAt(units, base + k);
    } else if k < 11 {
      assert Unit(entry, 14 + 2 * (k - 5)) == CharAt(units, base + 5 + (k - 5));
    } else {
      assert Unit(entry, 28 + 2 * (k - 11)) == CharAt(units, base + 11 + (k - 11));
    }
  }

  /** The three character fields of an entry; the other bytes stay. */
  method PutName(entry: array<byte>, units: seq<unit>, base: nat)
    requires entry.Length == ENTRY && forall i | 0 <= i < ENTRY && i != 0 && i != 11 && i != 13 :: entry[i] == 0
    modifies entry
    ensures forall k | 0 <= k < PER_ENTRY :: Unit(entry[..], CharPos(k)) == CharAt(units, base + k)
    ensures forall i | i == 0 || 11 <= i < 14 || 26 <= i < 28 :: entry[i] == old(entry[i])
  {
    PutLFNChars(entry, 1, units, base, 5);
    ghost var first := entry[..];
    PutLFNChars(entry, 14, units, base + 5, 6);
    ghost var second := entry[..];
    PutLFNChars(entry, 28, units, base + 11, 2);
    CharsKept(first, entry[..], 1, units, base, 5);
    CharsKept(second, entry[..], 14, units, base + 5, 6);
    forall k | 0 <= k < PER_ENTRY ensures Unit(entry[..], CharPos(k)) == CharAt(units, base + k) {
      CharsTogether(entry[..], units, base, k);
    }
  }

  method MakeEntry(units: seq<unit>, i: nat, n: nat, sum: byte) returns (entry: seq<byte>)
    requires i < n
    ensures IsLong(entry, units, i, n, sum)
  {
    var e := new byte[ENTRY](_ => 0);
    var number: byte := (i + 1) % 0x100;
    if i == n - 1 {
      number := Flagged(number);
    }
    e[0] := number;
    e[11] := LONG_ATTR;
    e[13] := sum;
    PutName(e, units, PER_ENTRY * i);
    entry := e[..];
  }

  lemma UnitBytes(entry: seq<byte>, at: nat, v: unit)
    requires at + 1 < |entry| && Unit(entry, at) == v
    ensures entry[at] == v % 0x100 && entry[at + 1] == v / 0x100
  {
  }

  /** The units of "meta-data". */
  predicate MetaDataUnits(u: seq<unit>) {
    && |u| == 9 && u[0] == 0x6D && u[1] == 0x65 && u[2] == 0x74 && u[3] == 0x61 && u[4] == 0x2D
    && u[5] == 0x64 && u[6] == 0x61 && u[7] == 0x74 && u[8] == 0x61
  }

  /** The only entry of "meta-data", byte for byte. */
  lemma MetaDataEntry(entry: seq<byte>, units: seq<unit>, short: seq<byte>)
    requires MetaDataUnits(units) && IsMetaData(short) && IsLong(entry, units, 0, 1, Checksum(short))
    ensures entry[0] == 0x41 && entry[11] == 0x0F && entry[12] == 0 && entry[13] == 212
    ensures entry[1] == 0x6D && entry[3] == 0x65 && entry[5] == 0x74 && entry[7] == 0x61 && entry[9] == 0x2D
    ensures entry[14] == 0x64 && entry[16] == 0x61 && entry[18] == 0x74 && entry[20] == 0x61
    ensures entry[2] == entry[4] == entry[6] == entry[8] == entry[10] == 0
    ensures entry[15] == entry[17] == entry[19] == entry[21] == 0
    ensures entry[22] == entry[23] == entry[26] == entry[27] == 0
    ensures entry[24] == entry[25] == entry[28] == entry[29] == entry[30] == entry[31] == 0xFF
  {
    MetaDataChecksum(short);
    forall k | 0 <= k < PER_ENTRY
      ensures entry[CharPos(k)] == CharAt(units, k) % 0x100 && entry[CharPos(k) + 1] == CharAt(units, k) / 0x100
    {
      assert Unit(entry, CharPos(k)) == CharAt(units, PER_ENTRY * 0 + k);
      UnitBytes(entry, CharPos(k), CharAt(units, k));
    }
    assert CharPos(0) == 1 && CharPos(1) == 3 && CharPos(2) == 5 && CharPos(3) == 7 && CharPos(4) == 9;
    assert CharPos(5) == 14 && CharPos(6) == 16 && CharPos(7) == 18 && CharPos(8) == 20 && CharPos(9) == 22;
    assert CharPos(10) == 24 && CharPos(11) == 28 && CharPos(12) == 30;
  }

  /** The entries as they lie on disk, highest number first. */
  predicate IsLongName(entries: seq<seq<byte>>, units: seq<unit>, sum: byte) {
    && |entries| == EntryCount(units)
    && forall j | 0 <= j < |entries| :: IsLong(entries[j], units, |entries| - 1 - j, |entries|, sum)
  }

  method MakeLFNEntries(units: seq<unit>, short: seq<byte>) returns (entries: seq<seq<byte>>)
    ensures IsLongName(entries, units, Checksum(short))
  {
    var sum := LfnChecksum(short);
    var n := (|units| + 12) / 13;
    entries := [];
    for i := 0 to n
      invariant |entries| == i && forall j | 0 <= j < i :: IsLong(entries[j], units, i - 1 - j, n, sum)
    {
      var entry := MakeEntry(units, i, n, sum);
      // Built in name order and reversed: each entry goes before those already there.
      entries := [entry] + entries;
    }
  }

  // ----- the reader

  /** The thirteen characters of an entry. */
  function Chars(entry: seq<byte>): (c: seq<unit>)
    requires |entry| == ENTRY
    ensures |c| == PER_ENTRY
  {
    seq(PER_ENTRY, k requires 0 <= k < PER_ENTRY => Unit(entry, CharPos(k)))
  }

  /** The characters of entries in disk order, put back into name order. */
  function AllChars(entries: seq<seq<byte>>): (c: seq<unit>)
    requires forall j | 0 <= j < |entries| :: |entries[j]| == ENTRY
    ensures |c| == PER_ENTRY * |entries|
  {
    if entries == [] then [] else AllChars(entries[1..]) + Chars(entries[0])
  }

  /** The name up to its terminator, if it has one. */
  function UpToNul(c: seq<unit>): seq<unit> { if c == [] || c[0] == 0 then [] else [c[0]] + UpToNul(c[1..]) }

  /**
    What a reader demands of the entries: numbers counting down to 1 in the low six bits, the flag on the first alone.
  */
  predicate WellNumbered(entries: seq<seq<byte>>, sum: byte) {
    forall j | 0 <= j < |entries| ::
      && |entries[j]| == ENTRY && entries[j][11] == LONG_ATTR && entries[j][13] == sum
      && entries[j][0] % LAST_FLAG == |entries| - j && entries[j][0] / LAST_FLAG == (if j == 0 then 1 else 0)
  }

  /** The long name of a short entry, from the entries that precede it. */
  function LongName(entries: seq<seq<byte>>, short: seq<byte>): Option<seq<unit>> {
    if entries != [] && WellNumbered(entries, Checksum(short)) then Some(UpToNul(AllChars(entries))) else None
  }

  lemma {:induction false} AllCharsAt(entries: seq<seq<byte>>, units: seq<unit>, n: nat, sum: byte, idx: nat)
    requires |entries| <= n && idx < PER_ENTRY * |entries|
    requires forall j | 0 <= j < |entries| :: |entries[j]| == ENTRY
    requires forall j | 0 <= j < |entries| :: IsLong(entries[j], units, |entries| - 1 - j, n, sum)
    ensures AllChars(entries)[idx] == CharAt(units, idx)
    decreases |entries|
  {
    var rest := entries[1..];
    assert forall j | 0 <= j < |rest| :: rest[j] == entries[j + 1];
    if idx < PER_ENTRY * |rest| {
      AllCharsAt(rest, units, n, sum, idx);
    } else {
      var k := idx - PER_ENTRY * |rest|;
      assert AllChars(entries)[idx] == Chars(entries[0])[k];
    }
  }

  lemma {:induction false} UpToNulIs(c: seq<unit>, units: seq<unit>)
    requires |units| <= |c| && units == c[..|units|] && (forall i | 0 <= i < |units| :: units[i] != 0)
    requires |units| < |c| ==> c[|units|] == 0
    ensures UpToNul(c) == units
  {
    if units != [] {
      assert c[0] == units[0];
      UpToNulIs(c[1..], units[1..]);
      assert units == [units[0]] + units[1..];
    }
  }

  lemma {:induction false} UpToNulIsClean(c: seq<unit>, i: nat)
    requires i < |UpToNul(c)|
    ensures UpToNul(c)[i] != 0
  {
    if i > 0 {
      UpToNulIsClean(c[1..], i - 1);
    }
  }

  /** Numbers below the flag count down in order; from the flag on, the first entry's number no longer reads back. */
  lemma NumbersExactly(entries: seq<seq<byte>>, units: seq<unit>, sum: byte)
    requires IsLongName(entries, units, sum)
    ensures WellNumbered(entries, sum) <==> |units| <= 63 * PER_ENTRY
  {
    var n := |entries|;
    forall j | 0 <= j < n
      ensures |entries[j]| == ENTRY && entries[j][11] == LONG_ATTR && entries[j][13] == sum
      ensures entries[j][0] == NumberByte(n - 1 - j, n)
    {
      assert IsLong(entries[j], units, n - 1 - j, n, sum);
    }
    if n > 63 {
      assert entries[0][0] % LAST_FLAG != n;
    }
  }

  /**
    Reading the entries in disk order recovers the name if and only if it is not empty, holds no NUL and takes at most
    63 entries: the number of a longer name runs into the last-entry flag, and a NUL ends the name early.
  */
  lemma LongNameReadBack(entries: seq<seq<byte>>, units: seq<unit>, short: seq<byte>)
    requires IsLongName(entries, units, Checksum(short))
    ensures LongName(entries, short) == Some(units) <==> Named(units)
    ensures Named(units) ==> WellNumbered(entries, Checksum(short))
  {
    NumbersExactly(entries, units, Checksum(short));
    var c := AllChars(entries);
    if Named(units) {
      forall idx | 0 <= idx < |c| ensures c[idx] == CharAt(units, idx) {
        AllCharsAt(entries, units, |entries|, Checksum(short), idx);
      }
      assert units == c[..|units|];
      UpToNulIs(c, units);
    } else if UpToNul(c) == units {
      forall i | 0 <= i < |units| ensures units[i] != 0 {
        UpToNulIsClean(c, i);
      }
    }
  }
}
