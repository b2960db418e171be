/**
  The 8.3 spelling of file names in metadata/fat12.go: which names need a long name, the short name each file
  gets, when two files get the same one, and what that makes of an image of files under their own names.

  Names are their UTF-8 bytes. The upper-case form and the UTF-16 units of a name are given with it.
*/
module ShortNames {
  import opened Common
  import opened Vfat
  import opened Fat12
  import opened FatImage

  const DOT: byte := 0x2E
  const SPACE: byte := 0x20
  const TILDE: byte := 0x7E

  /** A file as the caller names it. */
  datatype Source = Source(name: seq<byte>, upper: seq<byte>, units: seq<unit>, content: seq<byte>)

  // ----- spelling

  /** One past the last dot among the first n bytes, or 0. */
  function LastDot(s: seq<byte>, n: nat): (d: nat)
    requires n <= |s|
    ensures d <= n && (d > 0 ==> s[d - 1] == DOT) && forall i | d <= i < n :: s[i] != DOT
  {
    if n == 0 then 0 else if s[n - 1] == DOT then n else LastDot(s, n - 1)
  }

  function Base(upper: seq<byte>): seq<byte> {
    var d := LastDot(upper, |upper|);
    if d == 0 then upper else upper[..d - 1]
  }

  function Ext(upper: seq<byte>): seq<byte> {
    var d := LastDot(upper, |upper|);
    if d == 0 then [] else upper[d..]
  }

  function Dots(s: seq<byte>): nat { if s == [] then 0 else Dots(s[1..]) + (if s[0] == DOT then 1 else 0) }

  predicate NeedsLFN(f: Source) {
    |Base(f.upper)| > 8 || |Ext(f.upper)| > 3 || f.name != f.upper || Dots(f.name) > 1
  }

  lemma {:induction false} DotsTell(s: seq<byte>)
    ensures Dots(s) == 0 <==> forall i | 0 <= i < |s| :: s[i] != DOT
    ensures Dots(s) == 1 <==> exists d | 0 <= d < |s| :: OnlyDot(s, d)
  {
    if s != [] {
      var rest := s[1..];
      DotsTell(rest);
      assert forall i | 0 <= i < |rest| :: rest[i] == s[i + 1];
      if Dots(s) == 0 {
        assert forall i | 0 < i < |s| :: s[i] == rest[i - 1];
      }
      if Dots(s) == 1 {
        if s[0] == DOT {
          assert forall i | 0 < i < |s| :: s[i] == rest[i - 1];
          assert OnlyDot(s, 0);
        } else {
          var d :| 0 <= d < |rest| && OnlyDot(rest, d);
          assert forall i | 0 < i < |s| :: s[i] == rest[i - 1];
          assert OnlyDot(s, d + 1);
        }
      }
      if d :| 0 <= d < |s| && OnlyDot(s, d) {
        if d > 0 {
          assert OnlyDot(rest, d - 1);
        }
      }
    }
  }

  predicate OnlyDot(s: seq<byte>, d: nat) {
    d < |s| && s[d] == DOT && forall i | 0 <= i < |s| && i != d :: s[i] != DOT
  }

  /** At most eight bytes with no dot, or before the only dot and then at most three after it. */
  predicate FitsEightThree(name: seq<byte>) {
    || (|name| <= 8 && forall i | 0 <= i < |name| :: name[i] != DOT)
    || (exists d | 0 <= d < |name| :: OnlyDot(name, d) && d <= 8 && |name| - d - 1 <= 3)
  }

  /** A file goes without a long name exactly when its name is in upper case and fits 8.3. */
  lemma NeedsLFNExactly(f: Source)
    ensures !NeedsLFN(f) <==> f.name == f.upper && FitsEightThree(f.name)
  {
    DotsTell(f.name);
    var d := LastDot(f.name, |f.name|);
    if f.name == f.upper && Dots(f.name) == 1 {
      var e :| 0 <= e < |f.name| && OnlyDot(f.name, e);
      assert d == e + 1;
    }
  }

  function Undotted(s: seq<byte>): seq<byte> {
    if s == [] then [] else if s[0] == DOT then Undotted(s[1..]) else [s[0]] + Undotted(s[1..])
  }

  function Cut(s: seq<byte>, width: nat): (r: seq<byte>)
    ensures |r| <= width
  {
    if |s| <= width then s else s[..width]
  }

  function Spaces(n: nat): (r: seq<byte>)
    ensures |r| == n && forall i | 0 <= i < n :: r[i] == SPACE
  {
    seq(n, _ => SPACE)
  }

  /** What a copy into a blank field of the width leaves there. */
  function Field(s: seq<byte>, width: nat): (r: seq<byte>)
    ensures |r| == width
  {
    Cut(s, width) + Spaces(width - |Cut(s, width)|)
  }

  function ToShortName(upper: seq<byte>): (r: seq<byte>)
    ensures |r| == 11
  {
    Field(Base(upper), 8) + Field(Ext(upper), 3)
  }

  function Decimal(n: nat): seq<byte> { if n < 10 then [0x30 + n] else Decimal(n / 10) + [0x30 + n % 10] }

  function Tail(k: nat): seq<byte> { [TILDE] + Decimal(k) }

  /** The base of a generated name; a directory holds too few files for the tail to outgrow the field. */
  function Stem(upper: seq<byte>, k: nat): seq<byte> {
    Cut(Undotted(Base(upper)), if |Tail(k)| <= 8 then 8 - |Tail(k)| else 0) + Tail(k)
  }

  function GenerateShortName(upper: seq<byte>, k: nat): (r: seq<byte>)
    ensures |r| == 11
  {
    Field(Stem(upper, k), 8) + Field(Ext(upper), 3)
  }

  function CountTrue(flags: seq<bool>, i: nat): (k: nat)
    requires i <= |flags|
    ensures k <= i
  {
    if i == 0 then 0 else CountTrue(flags, i - 1) + (if flags[i - 1] then 1 else 0)
  }

  function LongFlags(files: seq<Source>): seq<bool> {
    seq(|files|, i requires 0 <= i < |files| => NeedsLFN(files[i]))
  }

  /** The builder's counter once it has spelled the first i files. */
  function ShortSeq(files: seq<Source>, i: nat): (k: nat)
    requires i <= |files|
    ensures k <= i
  {
    CountTrue(LongFlags(files), i)
  }

  function Spell(files: seq<Source>, i: nat): (f: Input)
    requires i < |files|
    ensures Accepted(f)
  {
    if NeedsLFN(files[i])
    then Input(Some(files[i].units), GenerateShortName(files[i].upper, ShortSeq(files, i + 1)), files[i].content)
    else Input(None, ToShortName(files[i].upper), files[i].content)
  }

  /** The files as CreateFAT12's loop adds them. */
  function Spelled(files: seq<Source>): (r: seq<Input>)
    ensures |r| == |files| && AllAccepted(r) && forall i | 0 <= i < |r| :: r[i] == Spell(files, i)
  {
    seq(|files|, i requires 0 <= i < |files| => Spell(files, i))
  }

  // ----- when two short names are the same

  /** One past the last byte of the first n that is no space, or 0. */
  function TrimEnd(s: seq<byte>, n: nat): (e: nat)
    requires n <= |s|
    ensures e <= n && (e > 0 ==> s[e - 1] != SPACE) && forall i | e <= i < n :: s[i] == SPACE
  {
    if n > 0 && s[n - 1] == SPACE then TrimEnd(s, n - 1) else n
  }

  function Trim(s: seq<byte>): seq<byte> { s[..TrimEnd(s, |s|)] }

  lemma TrimEndIs(s: seq<byte>, e: nat)
    requires e <= |s| && (e > 0 ==> s[e - 1] != SPACE) && forall i | e <= i < |s| :: s[i] == SPACE
    ensures TrimEnd(s, |s|) == e
  {
  }

  lemma TrimSpaces(s: seq<byte>, n: nat)
    ensures Trim(s + Spaces(n)) == Trim(s)
  {
    var e := TrimEnd(s, |s|);
    TrimEndIs(s + Spaces(n), e);
    assert (s + Spaces(n))[..e] == s[..e];
  }

  /** What was copied into a field differs from what is read there in trailing spaces alone. */
  lemma FieldTrims(s: seq<byte>, width: nat)
    ensures Trim(Field(s, width)) == Trim(Cut(s, width))
  {
    TrimSpaces(Cut(s, width), width - |Cut(s, width)|);
  }

  lemma TrimDetermines(a: seq<byte>, b: seq<byte>)
    requires |a| == |b| && Trim(a) == Trim(b)
    ensures a == b
  {
    var e := TrimEnd(a, |a|);
    assert e == |Trim(a)| == TrimEnd(b, |b|);
    forall i | 0 <= i < |a| ensures a[i] == b[i] {
      if i < e {
        assert a[i] == Trim(a)[i] && b[i] == Trim(b)[i];
      }
    }
  }

  /** Fields are equal exactly when what was copied differs in trailing spaces alone. */
  lemma FieldsEqualExactly(a: seq<byte>, b: seq<byte>, width: nat)
    ensures Field(a, width) == Field(b, width) <==> Trim(Cut(a, width)) == Trim(Cut(b, width))
  {
    FieldTrims(a, width);
    FieldTrims(b, width);
    if Trim(Cut(a, width)) == Trim(Cut(b, width)) {
      TrimDetermines(Field(a, width), Field(b, width));
    }
  }

  lemma {:induction false} DecimalIsDigits(n: nat, i: nat)
    requires i < |Decimal(n)|
    ensures 0x30 <= Decimal(n)[i] <= 0x39
  {
    if n >= 10 && i < |Decimal(n / 10)| {
      DecimalIsDigits(n / 10, i);
    }
  }

  lemma {:induction false} DecimalIsInjective(m: nat, n: nat)
    requires Decimal(m) == Decimal(n)
    ensures m == n
  {
    var d, e := Decimal(m), Decimal(n);
    assert d[|d| - 1] == e[|e| - 1];
    if m >= 10 && n >= 10 {
      assert Decimal(m / 10) == d[..|d| - 1] && Decimal(n / 10) == e[..|e| - 1];
      DecimalIsInjective(m / 10, n / 10);
    } else {
      DecimalIsNotEmpty(m / 10);
      DecimalIsNotEmpty(n / 10);
    }
  }

  lemma DecimalIsNotEmpty(n: nat)
    ensures Decimal(n) != []
  {
  }

  lemma TildeInside(p: seq<byte>, q: seq<byte>, a: seq<byte>, b: seq<byte>)
    requires p + ([TILDE] + a) == q + ([TILDE] + b) && |a| < |b|
    ensures b[|b| - |a| - 1] == TILDE
  {
    var s, t := p + ([TILDE] + a), q + ([TILDE] + b);
    assert s[|p|] == TILDE && t[|p|] == b[|p| - |q| - 1];
  }

  /** The digits after a last tilde are determined by the whole. */
  lemma TailsAgree(p: seq<byte>, q: seq<byte>, a: seq<byte>, b: seq<byte>)
    requires p + ([TILDE] + a) == q + ([TILDE] + b) && |a| <= |b|
    requires forall i | 0 <= i < |b| :: b[i] != TILDE
    ensures a == b
  {
    var s, t := p + ([TILDE] + a), q + ([TILDE] + b);
    if |a| < |b| {
      TildeInside(p, q, a, b);
      assert false;
    }
    assert a == s[|p| + 1..] && b == t[|q| + 1..];
  }

  lemma StemsDiffer(u: seq<byte>, v: seq<byte>, j: nat, k: nat)
    requires Stem(u, j) == Stem(v, k)
    ensures j == k
  {
    var p := Cut(Undotted(Base(u)), if |Tail(j)| <= 8 then 8 - |Tail(j)| else 0);
    var q := Cut(Undotted(Base(v)), if |Tail(k)| <= 8 then 8 - |Tail(k)| else 0);
    forall i | 0 <= i < |Decimal(j)| ensures Decimal(j)[i] != TILDE {
      DecimalIsDigits(j, i);
    }
    forall i | 0 <= i < |Decimal(k)| ensures Decimal(k)[i] != TILDE {
      DecimalIsDigits(k, i);
    }
    if |Decimal(j)| <= |Decimal(k)| {
      TailsAgree(p, q, Decimal(j), Decimal(k));
    } else {
      TailsAgree(q, p, Decimal(k), Decimal(j));
    }
    DecimalIsInjective(j, k);
  }

  lemma StemEnds(upper: seq<byte>, k: nat)
    requires |Tail(k)| <= 8
    ensures |Stem(upper, k)| <= 8 && Trim(Stem(upper, k)) == Stem(upper, k)
  {
    var s := Stem(upper, k);
    DecimalIsNotEmpty(k);
    DecimalIsDigits(k, |Decimal(k)| - 1);
    assert s[|s| - 1] == Decimal(k)[|Decimal(k)| - 1];
  }

  /** Two generated names with different numbers differ, whatever the files are called. */
  lemma GeneratedNamesDiffer(u: seq<byte>, v: seq<byte>, j: nat, k: nat)
    requires |Tail(j)| <= 8 && |Tail(k)| <= 8 && j != k
    ensures GenerateShortName(u, j) != GenerateShortName(v, k)
  {
    if GenerateShortName(u, j) == GenerateShortName(v, k) {
      assert Field(Stem(u, j), 8) == GenerateShortName(u, j)[..8] &&
        Field(Stem(v, k), 8) == GenerateShortName(v, k)[..8];
      StemEnds(u, j);
      StemEnds(v, k);
      FieldsEqualExactly(Stem(u, j), Stem(v, k), 8);
      StemsDiffer(u, v, j, k);
    }
  }

  /** What goes into the base field. */
  function SpelledBase(files: seq<Source>, i: nat): seq<byte>
    requires i < |files|
  {
    if NeedsLFN(files[i]) then Stem(files[i].upper, ShortSeq(files, i + 1)) else Base(files[i].upper)
  }

  lemma {:induction false} CountGrows(flags: seq<bool>, i: nat, j: nat)
    requires i <= j <= |flags|
    ensures CountTrue(flags, i) <= CountTrue(flags, j)
    decreases j
  {
    if i < j {
      CountGrows(flags, i, j - 1);
    }
  }

  /**
    Two files of one image get the same short name if and only if at least one of them has no long name and the bases
    and extensions written for them differ in trailing spaces alone: two generated names never clash.
  */
  lemma ShortNamesClashExactly(files: seq<Source>, i: nat, j: nat)
    requires i < j < |files| && Fits(Spelled(files))
    ensures Spell(files, i).short == Spell(files, j).short <==>
            && !(NeedsLFN(files[i]) && NeedsLFN(files[j]))
            && Trim(Cut(SpelledBase(files, i), 8)) == Trim(Cut(SpelledBase(files, j), 8))
            && Trim(Cut(Ext(files[i].upper), 3)) == Trim(Cut(Ext(files[j].upper), 3))
  {
    FewFit(files);
    var a, b := Spell(files, i).short, Spell(files, j).short;
    assert a[..8] == Field(SpelledBase(files, i), 8) && b[..8] == Field(SpelledBase(files, j), 8);
    assert a[8..] == Field(Ext(files[i].upper), 3) && b[8..] == Field(Ext(files[j].upper), 3);
    assert a == a[..8] + a[8..] && b == b[..8] + b[8..];
    FieldsEqualExactly(SpelledBase(files, i), SpelledBase(files, j), 8);
    FieldsEqualExactly(Ext(files[i].upper), Ext(files[j].upper), 3);
    if NeedsLFN(files[i]) && NeedsLFN(files[j]) {
      var m, n := ShortSeq(files, i + 1), ShortSeq(files, j + 1);
      CountGrows(LongFlags(files), i + 1, j);
      TailIsShort(m);
      TailIsShort(n);
      GeneratedNamesDiffer(files[i].upper, files[j].upper, m, n);
    }
  }

  lemma TailIsShort(k: nat)
    requires k < 1000
    ensures 2 <= |Tail(k)| <= 4
  {
    assert k >= 10 ==> |Decimal(k)| == |Decimal(k / 10)| + 1;
    assert k >= 100 ==> |Decimal(k / 10)| == |Decimal(k / 100)| + 1;
  }

  /** Every file takes a slot of the root directory. */
  lemma FewFit(files: seq<Source>)
    requires Fits(Spelled(files))
    ensures |files| < ROOT_ENTRIES
  {
    Grows(Spelled(files), 0, |files|);
  }

  /** Files "A~1" and "a": the generated name of the second is the first one's own. */
  lemma ShortNamesCanClash(content: seq<byte>)
    ensures var files := [Source([0x41, TILDE, 0x31], [0x41, TILDE, 0x31], [0x41, 0x7E, 0x31], content),
                          Source([0x61], [0x41], [0x61], content)];
            Spell(files, 0).short == Spell(files, 1).short
  {
    var plain: seq<byte> := [0x41, TILDE, 0x31];
    var files := [Source(plain, plain, [0x41, 0x7E, 0x31], content), Source([0x61], [0x41], [0x61], content)];
    assert LastDot(plain, 0) == LastDot(plain, 1) == LastDot(plain, 2) == LastDot(plain, 3) == 0;
    assert Base(plain) == plain && Ext(plain) == [];
    assert Dots(plain) == 0 by {
      assert plain[1..] == [TILDE, 0x31] && plain[1..][1..] == [0x31] && plain[1..][1..][1..] == [];
    }
    assert !NeedsLFN(files[0]) && NeedsLFN(files[1]);
    assert ShortSeq(files, 1) == 0 && ShortSeq(files, 2) == 1;
    assert Stem([0x41], 1) == plain by {
      assert LastDot([0x41], 1) == 0 && Base([0x41]) == [0x41];
      assert Undotted([0x41]) == [0x41];
    }
  }

  // ----- images of files under their own names

  /** The first byte of the base a file's short name starts from. */
  function FirstByte(f: Source): Option<byte> {
    var b := if NeedsLFN(f) then Undotted(Base(f.upper)) else Base(f.upper);
    if b == [] then None else Some(b[0])
  }

  predicate Hidden(f: Source) { FirstByte(f) == Some(0) || FirstByte(f) == Some(0xE5) }

  lemma HiddenExactly(files: seq<Source>, i: nat)
    requires i < |files| < ROOT_ENTRIES
    ensures Visible(Spell(files, i)) <==> !Hidden(files[i])
  {
    var k := ShortSeq(files, i + 1);
    TailIsShort(k);
    assert Tail(k)[0] == TILDE;
  }

  /** The label's slot does not end the directory, and no file's slot is hidden. */
  predicate AllSeen(name: seq<byte>, files: seq<Source>)
    requires |name| == 11
  {
    (files != [] ==> name[0] != 0) && forall i | 0 <= i < |files| :: !Hidden(files[i])
  }

  lemma SeenExactly(name: seq<byte>, files: seq<Source>)
    requires |name| == 11 && Fits(Spelled(files))
    ensures NamesVisible(name, Spelled(files)) <==> AllSeen(name, files)
  {
    FewFit(files);
    var all := Spelled(files);
    forall i | 0 <= i < |files| ensures Visible(all[i]) <==> !Hidden(files[i]) {
      HiddenExactly(files, i);
    }
  }

  /**
    A reader of the image recovers exactly the files, as spelled, if and only if the label does not start with 0, no
    name's base starts with 0 or 0xE5 in upper case, and every long name is free of NUL and takes at most 63 entries.
  */
  lemma ImageOfNamesExactly(img: seq<byte>, name: seq<byte>, files: seq<Source>)
    requires |name| == 11 && Fits(Spelled(files)) && GoodImage(img, name, Spelled(files))
    ensures ReadImage(img) == AllOf(Spelled(files)) <==>
            AllSeen(name, files) && forall i | 0 <= i < |files| && NeedsLFN(files[i]) :: Named(files[i].units)
  {
    SeenExactly(name, files);
    var all := Spelled(files);
    assert forall i | 0 <= i < |files| :: ReadableName(all[i]) <==> (NeedsLFN(files[i]) ==> Named(files[i].units));
  }

  // ----- under their own names

  /** The name a reader shows for a short entry: base and extension without their padding. */
  function DecodeShort(short: seq<byte>): seq<byte>
    requires |short| == 11
  {
    var base, ext := Trim(short[..8]), Trim(short[8..]);
    if ext == [] then base else base + [DOT] + ext
  }

  predicate EndsWell(b: seq<byte>) { b == [] || b[|b| - 1] != SPACE }

  /** Neither the base nor the extension ends in a space, and the name does not end in a dot. */
  predicate PlainName(name: seq<byte>) {
    EndsWell(Base(name)) && EndsWell(Ext(name)) && (name == [] || name[|name| - 1] != DOT)
  }

  lemma TrimsExactly(b: seq<byte>)
    ensures |Trim(b)| <= |b| && (|Trim(b)| == |b| <==> EndsWell(b)) && (EndsWell(b) ==> Trim(b) == b)
  {
  }

  lemma ShortDecodes(upper: seq<byte>)
    requires |Base(upper)| <= 8 && |Ext(upper)| <= 3
    ensures var base, ext := Trim(Base(upper)), Trim(Ext(upper));
            DecodeShort(ToShortName(upper)) == if ext == [] then base else base + [DOT] + ext
  {
    ShortFields(Field(Base(upper), 8), Field(Ext(upper), 3));
    FieldTrims(Base(upper), 8);
    FieldTrims(Ext(upper), 3);
  }

  lemma ShortFields(a: seq<byte>, b: seq<byte>)
    requires |a| == 8
    ensures (a + b)[..8] == a && (a + b)[8..] == b
  {
  }

  /** A file without a long name reads back under its own name if and only if the name is plain. */
  lemma PlainNameExactly(f: Source)
    requires !NeedsLFN(f)
    ensures DecodeShort(ToShortName(f.upper)) == f.name <==> PlainName(f.name)
  {
    ShortDecodes(f.name);
    if LastDot(f.name, |f.name|) > 0 {
      DottedName(f.name);
      DottedExactly(Base(f.name), Ext(f.name));
    } else {
      TrimsExactly(f.name);
    }
  }

  lemma DotsOf(c: byte, rest: seq<byte>)
    ensures Dots([c] + rest) == Dots(rest) + (if c == DOT then 1 else 0)
  {
    assert ([c] + rest)[1..] == rest;
  }

  /** Files "A." and "A " take no long name and read back as "A". */
  lemma NamesCanChange(name: seq<byte>, units: seq<unit>)
    requires name == [0x41, DOT] || name == [0x41, SPACE]
    ensures !NeedsLFN(Source(name, name, units, [])) && DecodeShort(ToShortName(name)) == [0x41]
  {
    assert LastDot(name, 0) == LastDot(name, 1) == 0 && LastDot(name, 2) == if name[1] == DOT then 2 else 0;
    DotsOf(name[1], []);
    DotsOf(0x41, [name[1]] + []);
    assert name == [0x41] + ([name[1]] + []);
    ShortDecodes(name);
    TrimEndIs(Base(name), 1);
    assert Trim(Base(name)) == [0x41] && Ext(name) == [] && Trim(Ext(name)) == [];
  }

  /** A name with a dot is split at its last one. */
  lemma DottedName(name: seq<byte>)
    requires LastDot(name, |name|) > 0
    ensures name == Base(name) + [DOT] + Ext(name) && (name[|name| - 1] == DOT <==> Ext(name) == [])
  {
    var d := LastDot(name, |name|);
    SplitAt(name, d);
  }

  lemma SplitAt(s: seq<byte>, d: nat)
    requires 0 < d <= |s|
    ensures s == s[..d - 1] + [s[d - 1]] + s[d..]
  {
  }

  lemma DottedExactly(base: seq<byte>, ext: seq<byte>)
    ensures (if Trim(ext) == [] then Trim(base) else Trim(base) + [DOT] + Trim(ext)) == base + [DOT] + ext <==>
            EndsWell(base) && EndsWell(ext) && ext != []
  {
    TrimsExactly(base);
    TrimsExactly(ext);
    var shown := if Trim(ext) == [] then Trim(base) else Trim(base) + [DOT] + Trim(ext);
    assert |shown| <= |base| + 1 + |ext|;
  }

  /** A file's name, as the caller gave it or as a reader shows it: UTF-16 units or bytes. */
  datatype OwnName = Units(units: seq<unit>) | Bytes(bytes: seq<byte>)

  function GivenName(f: Source): OwnName { if NeedsLFN(f) then Units(f.units) else Bytes(f.name) }

  function ShownName(f: Input): OwnName
    requires |f.short| == 11
  {
    if f.long.Some? then Units(f.long.value) else Bytes(DecodeShort(f.short))
  }

  /** The reader finds the files, in order, under the names they were given and with their bytes. */
  predicate RecoversOwn(found: seq<Option<Input>>, files: seq<Source>) {
    && |found| == |files|
    && forall i | 0 <= i < |files| ::
         && found[i].Some? && found[i].value.content == files[i].content
         && |found[i].value.short| == 11 && ShownName(found[i].value) == GivenName(files[i])
  }

  /** The file reads back under its own name once its slot is visible. */
  predicate KeepsName(f: Source) { if NeedsLFN(f) then Named(f.units) else PlainName(f.name) }

  lemma ShownExactly(r: Input, files: seq<Source>, i: nat)
    requires i < |files| && ReadsBut(r, Spell(files, i))
    requires r.long == Spell(files, i).long <==> ReadableName(Spell(files, i))
    ensures ShownName(r) == GivenName(files[i]) <==> KeepsName(files[i])
  {
    if !NeedsLFN(files[i]) {
      PlainNameExactly(files[i]);
    }
  }

  lemma ReadingShows(found: seq<Option<Input>>, files: seq<Source>)
    requires IsReading(found, Spelled(files))
    ensures RecoversOwn(found, files) <==> forall i | 0 <= i < |files| :: KeepsName(files[i])
  {
    var all := Spelled(files);
    forall i | 0 <= i < |files|
      ensures found[i].Some? && ReadsBut(found[i].value, all[i])
      ensures ShownName(found[i].value) == GivenName(files[i]) <==> KeepsName(files[i])
    {
      assert all[i] == Spell(files, i);
      ShownExactly(found[i].value, files, i);
    }
  }

  /**
    A reader of the image recovers the files under the names they were given if and only if the label does not start
    with 0, no name is hidden, every long name is free of NUL and takes at most 63 entries, and every other name is
    plain.
  */
  lemma OwnNamesExactly(img: seq<byte>, name: seq<byte>, files: seq<Source>)
    requires |name| == 11 && Fits(Spelled(files)) && GoodImage(img, name, Spelled(files))
    ensures RecoversOwn(ReadImage(img), files) <==>
            AllSeen(name, files) && forall i | 0 <= i < |files| :: KeepsName(files[i])
  {
    SeenExactly(name, files);
    var found := ReadImage(img);
    if NamesVisible(name, Spelled(files)) {
      ReadingShows(found, files);
    }
  }

  /** CreateFAT12 on the caller's label, in upper case, and names: the padded label and the spelled files. */
  method CreateNamed(volume: seq<byte>, files: seq<Source>, time: unit, date: unit, serial: seq<byte>)
    returns (img: Option<seq<byte>>)
    requires |serial| == 4
    ensures img.Some? <==> Fits(Spelled(files))
    ensures img.Some? ==> GoodImage(img.value, Field(volume, 11), Spelled(files))
    ensures img.Some? ==>
              (RecoversOwn(ReadImage(img.value), files) <==>
               AllSeen(Field(volume, 11), files) && forall i | 0 <= i < |files| :: KeepsName(files[i]))
  {
    img := CreateFAT12(Field(volume, 11), Spelled(files), time, date, serial);
    if img.Some? {
      OwnNamesExactly(img.value, Field(volume, 11), files);
    }
  }

  lemma NoDot(s: seq<byte>)
    requires forall i | 0 <= i < |s| :: s[i] != DOT
    ensures LastDot(s, |s|) == 0 && Base(s) == s && Ext(s) == []
  {
  }

  lemma {:induction false} UndottedPlain(s: seq<byte>)
    requires forall i | 0 <= i < |s| :: s[i] != DOT
    ensures Undotted(s) == s
  {
    if s != [] {
      UndottedPlain(s[1..]);
      assert s == [s[0]] + s[1..];
    }
  }

  /** The first long name of "META-DATA" in upper case is spelled "META-D~1   ". */
  lemma MetaDataName(upper: seq<byte>)
    requires |upper| == 9 && upper[0] == 0x4D && upper[1] == 0x45 && upper[2] == 0x54 && upper[3] == 0x41
    requires upper[4] == 0x2D && upper[5] == 0x44 && upper[6] == 0x41 && upper[7] == 0x54 && upper[8] == 0x41
    ensures IsMetaData(GenerateShortName(upper, 1))
  {
    NoDot(upper);
    UndottedPlain(upper);
    assert Tail(1) == [TILDE, 0x31];
    var stem := Stem(upper, 1);
    assert stem == upper[..6] + [TILDE, 0x31];
    assert Field(stem, 8)[0] == stem[0] && Field(stem, 8)[1] == stem[1] && Field(stem, 8)[2] == stem[2];
    assert Field(stem, 8)[3] == stem[3] && Field(stem, 8)[4] == stem[4] && Field(stem, 8)[5] == stem[5];
    assert Field(stem, 8)[6] == stem[6] && Field(stem, 8)[7] == stem[7];
  }

  /** The file named by the one character U+597D is stored, in its upper case unchanged, and never found. */
  lemma MarkedNameIsLost(name: seq<byte>, img: seq<byte>)
    requires |name| == 11
    ensures Fits(Spelled([MARKED]))
    ensures GoodImage(img, name, Spelled([MARKED])) ==> ReadImage(img) != AllOf(Spelled([MARKED]))
  {
    var all := Spelled([MARKED]);
    assert Used(all, 1) == Used(all, 0) + 1;
    assert !NeedsLFN(MARKED) by {
      MarkedIsPlain();
    }
    assert Pos(all, 1) == Pos(all, 0) + 1;
    assert Hidden([MARKED][0]) by {
      MarkedIsPlain();
    }
    if GoodImage(img, name, all) {
      ImageOfNamesExactly(img, name, [MARKED]);
    }
  }

  const MARKED := Source([0xE5, 0xA5, 0xBD], [0xE5, 0xA5, 0xBD], [0x597D], [0x41])

  lemma MarkedIsPlain()
    ensures Base(MARKED.upper) == MARKED.upper && Ext(MARKED.upper) == [] && Dots(MARKED.name) == 0
  {
    var s := MARKED.name;
    assert LastDot(s, 0) == LastDot(s, 1) == LastDot(s, 2) == LastDot(s, 3) == 0;
    assert s[1..] == [0xA5, 0xBD] && s[1..][1..] == [0xBD] && s[1..][1..][1..] == [];
  }
}
