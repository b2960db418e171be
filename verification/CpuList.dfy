/**
  Kernel cpu lists of cgroup/cgroup.go: ParseCPUList, FormatCPUList and sameCPUList over
  text such as "0-7,192-199".
*/
module CpuList {
  import opened Common

  // ----- the text helpers of Go's strings and strconv

  predicate IsDigit(c: char) { '0' <= c <= '9' }

  /** unicode.IsSpace. */
  predicate IsSpace(c: char) {
    || c == ' ' || '\t' <= c <= '\r' || c == '\U{85}' || c == '\U{A0}' || c == '\U{1680}'
    || '\U{2000}' <= c <= '\U{200A}' || c == '\U{2028}' || c == '\U{2029}' || c == '\U{202F}'
    || c == '\U{205F}' || c == '\U{3000}'
  }

  function TrimLeft(s: string): string { if s != "" && IsSpace(s[0]) then TrimLeft(s[1..]) else s }

  function TrimRight(s: string): string {
    if s != "" && IsSpace(s[|s| - 1]) then TrimRight(s[..|s| - 1]) else s
  }

  function TrimSpace(s: string): string { TrimRight(TrimLeft(s)) }

  /** strings.Split on a comma: n commas give n + 1 parts. */
  function Split(s: string): (parts: seq<string>)
    ensures |parts| > 0
  {
    if s == "" then [""]
    else if s[|s| - 1] == ',' then Split(s[..|s| - 1]) + [""]
    else
      var p := Split(s[..|s| - 1]);
      p[|p| - 1 := p[|p| - 1] + [s[|s| - 1]]]
  }

  function Join(parts: seq<string>): string {
    if parts == [] then "" else if |parts| == 1 then parts[0]
    else Join(parts[..|parts| - 1]) + "," + parts[|parts| - 1]
  }

  /** strings.Cut at the first dash. */
  function CutDash(s: string): (string, string, bool) {
    if s == "" then ("", "", false)
    else if s[0] == '-' then ("", s[1..], true)
    else
      var (lo, hi, ok) := CutDash(s[1..]);
      ([s[0]] + lo, hi, ok)
  }

  predicate AllDigits(s: string) { forall i | 0 <= i < |s| :: IsDigit(s[i]) }

  function Value(s: string): nat
    requires AllDigits(s)
  {
    if s == "" then 0 else 10 * Value(s[..|s| - 1]) + ((s[|s| - 1] as int) - ('0' as int))
  }

  /** strconv.Atoi on a 64-bit host: an optional sign, at least one digit, no overflow. */
  function Atoi(s: string): Option<int> {
    var signed := s != "" && (s[0] == '-' || s[0] == '+');
    var digits := if signed then s[1..] else s;
    if digits == "" || !AllDigits(digits) then None
    else
      var v: int := if signed && s[0] == '-' then 0 - Value(digits) else Value(digits);
      if v > MAX_INT64 || v < -MAX_INT64 - 1 then None else Some(v)
  }

  function Itoa(n: nat): (s: string)
    ensures s != "" && AllDigits(s)
  {
    if n < 10 then [('0' as int + n) as char] else Itoa(n / 10) + [('0' as int + n % 10) as char]
  }

  // ----- what a list denotes

  function IntRange(lo: int, hi: int): (s: set<int>)
    ensures forall c :: c in s <==> lo <= c <= hi
    decreases hi - lo + 1
  {
    if lo > hi then {} else IntRange(lo, hi - 1) + {hi}
  }

  function Elems(s: seq<int>): set<int> { set c | c in s }

  /** One comma-separated part: "n" or "lo-hi" with 0 <= lo <= hi. */
  function ParsePart(part: string): Option<(int, int)> {
    var (lo, hi, dash) := CutDash(TrimSpace(part));
    match Atoi(lo)
    case None => None
    case Some(start) =>
      if start < 0 then None
      else if !dash then Some((start, start))
      else match Atoi(hi)
           case None => None
           case Some(end) => if end < start then None else Some((start, end))
  }

  function DenotesParts(parts: seq<string>): Option<set<int>> {
    if parts == [] then Some({})
    else match (DenotesParts(parts[..|parts| - 1]), ParsePart(parts[|parts| - 1]))
         case (Some(s), Some((lo, hi))) => Some(s + IntRange(lo, hi))
         case _ => None
  }

  /** The cpu set a list stands for, or None when it is malformed; the empty list is the empty set. */
  function Denotes(s: string): Option<set<int>> { if s == "" then Some({}) else DenotesParts(Split(s)) }

  /** A valid list names cpus that fit the host's int. */
  lemma {:induction false} DenotesInRange(parts: seq<string>)
    ensures DenotesParts(parts).Some? ==> forall c | c in DenotesParts(parts).value :: 0 <= c <= MAX_INT64
  {
    if parts != [] {
      DenotesInRange(parts[..|parts| - 1]);
    }
  }

  predicate Increasing(s: seq<int>) { forall i, j | 0 <= i < j < |s| :: s[i] < s[j] }

  lemma {:induction false} IncreasingIsUnique(a: seq<int>, b: seq<int>)
    requires Increasing(a) && Increasing(b) && Elems(a) == Elems(b)
    ensures a == b
  {
    assert |a| > 0 ==> a[0] in Elems(b) && a[|a| - 1] in Elems(b);
    assert |b| > 0 ==> b[0] in Elems(a) && b[|b| - 1] in Elems(a);
    if a != [] && b != [] {
      var x, y := a[|a| - 1], b[|b| - 1];
      var a', b' := a[..|a| - 1], b[..|b| - 1];
      assert Elems(a') == Elems(a) - {x} && Elems(b') == Elems(b) - {y};
      IncreasingIsUnique(a', b');
      assert a == a' + [x] && b == b' + [y];
    }
  }

  // ----- parsing

  lemma ElemsSnoc(s: seq<int>, x: int)
    ensures Elems(s + [x]) == Elems(s) + {x}
  {
  }

  lemma IncreasingSnoc(s: seq<int>, x: int)
    requires Increasing(s) && forall c | c in Elems(s) :: c < x
    ensures Increasing(s + [x])
  {
    assert forall i | 0 <= i < |s| :: s[i] in Elems(s);
  }

  /** Insertion into a strictly increasing list, dropping a duplicate. */
  function Insert(x: int, s: seq<int>): seq<int> {
    if s == [] || s[|s| - 1] < x then s + [x]
    else if s[|s| - 1] == x then s
    else Insert(x, s[..|s| - 1]) + [s[|s| - 1]]
  }

  lemma IncreasingLast(init: seq<int>, last: int)
    requires Increasing(init + [last])
    ensures Increasing(init) && forall c | c in Elems(init) :: c < last
  {
    var s := init + [last];
    assert forall i | 0 <= i < |init| :: s[i] == init[i] && s[i] < s[|init|];
  }

  lemma {:induction false} InsertOk(x: int, s: seq<int>)
    requires Increasing(s)
    ensures Increasing(Insert(x, s)) && Elems(Insert(x, s)) == Elems(s) + {x}
  {
    if s == [] {
      ElemsSnoc(s, x);
      assert s + [x] == [x];
    } else {
      var init, last := s[..|s| - 1], s[|s| - 1];
      assert s == init + [last];
      if last < x {
        InsertedLast(init, last, x);
      } else if last > x {
        IncreasingLast(init, last);
        InsertOk(x, init);
        InsertedBefore(Insert(x, init), init, last, x);
      } else {
        ElemsSnoc(init, last);
      }
    }
  }

  lemma InsertedLast(init: seq<int>, last: int, x: int)
    requires Increasing(init + [last]) && last < x
    ensures Increasing(init + [last] + [x]) && Elems(init + [last] + [x]) == Elems(init + [last]) + {x}
  {
    IncreasingLast(init, last);
    ElemsSnoc(init, last);
    ElemsSnoc(init + [last], x);
    IncreasingSnoc(init + [last], x);
  }

  lemma InsertedBefore(inner: seq<int>, init: seq<int>, last: int, x: int)
    requires Increasing(inner) && Elems(inner) == Elems(init) + {x} && x < last &&
             forall c | c in Elems(init) :: c < last
    ensures Increasing(inner + [last]) && Elems(inner + [last]) == Elems(init + [last]) + {x}
  {
    IncreasingSnoc(inner, last);
    ElemsSnoc(inner, last);
    ElemsSnoc(init, last);
  }

  /** slices.Sort then slices.Compact. */
  function SortCompact(s: seq<int>): seq<int> {
    if s == [] then [] else Insert(s[|s| - 1], SortCompact(s[..|s| - 1]))
  }

  lemma {:induction false} SortCompactOk(s: seq<int>)
    ensures Increasing(SortCompact(s)) && Elems(SortCompact(s)) == Elems(s)
  {
    if s != [] {
      var init, last := s[..|s| - 1], s[|s| - 1];
      assert s == init + [last];
      SortCompactOk(init);
      InsertOk(last, SortCompact(init));
      ElemsSnoc(init, last);
    }
  }

  lemma {:induction false} BadPrefix(parts: seq<string>, k: nat)
    requires k <= |parts| && DenotesParts(parts[..k]) == None
    ensures DenotesParts(parts) == None
    decreases |parts| - k
  {
    if k < |parts| {
      assert parts[..k + 1][..k] == parts[..k];
      BadPrefix(parts, k + 1);
    } else {
      assert parts[..k] == parts;
    }
  }

  lemma DenotesNext(parts: seq<string>, i: nat)
    requires i < |parts|
    ensures DenotesParts(parts[..i + 1]) ==
            match (DenotesParts(parts[..i]), ParsePart(parts[i]))
            case (Some(s), Some((lo, hi))) => Some(s + IntRange(lo, hi))
            case _ => None
  {
    assert parts[..i + 1][..i] == parts[..i];
  }

  lemma RangeNext(cpus: seq<int>, before: set<int>, start: int, c: int)
    requires start <= c && Elems(cpus) == before + IntRange(start, c - 1)
    ensures Elems(cpus + [c]) == before + IntRange(start, c)
  {
    ElemsSnoc(cpus, c);
  }

  method ParseCPUList(s: string) returns (r: Option<seq<int>>)
    ensures r.Some? <==> Denotes(s).Some?
    ensures r.Some? ==> Increasing(r.value) && Elems(r.value) == Denotes(s).value
  {
    if s == "" {
      return Some([]);
    }
    var cpus: seq<int> := [];
    var parts := Split(s);
    assert parts[..0] == [] && Elems(cpus) == {};
    for i := 0 to |parts|
      invariant DenotesParts(parts[..i]) == Some(Elems(cpus))
    {
      DenotesNext(parts, i);
      var p := ParsePart(parts[i]);
      if p == None {
        BadPrefix(parts, i + 1);
        return None;
      }
      var (start, end) := p.value;
      ghost var before := Elems(cpus);
      assert before + IntRange(start, start - 1) == before;
      var c := start;
      while c <= end
        invariant start <= c <= end + 1
        invariant Elems(cpus) == before + IntRange(start, c - 1)
      {
        RangeNext(cpus, before, start, c);
        cpus := cpus + [c];
        c := c + 1;
      }
    }
    assert parts[..|parts|] == parts;
    SortCompactOk(cpus);
    return Some(SortCompact(cpus));
  }

  /** Two lists are the same exactly when both are valid and denote one set, however they are written. */
  method SameCPUList(a: string, b: string) returns (same: bool)
    ensures same <==> Denotes(a).Some? && Denotes(b).Some? && Denotes(a) == Denotes(b)
  {
    var x := ParseCPUList(a);
    var y := ParseCPUList(b);
    same := x.Some? && y.Some? && x.value == y.value;
    if x.Some? && y.Some? && Denotes(a) == Denotes(b) {
      IncreasingIsUnique(x.value, y.value);
    }
  }

  // ----- rendering

  /** Cpu numbers that fit the host's int, in any order. */
  predicate Numbers(cpus: seq<int>) { forall i | 0 <= i < |cpus| :: 0 <= cpus[i] <= MAX_INT64 }

  predicate Cpus(cpus: seq<int>) { Increasing(cpus) && Numbers(cpus) }

  /** The last index of the run of consecutive cpus that starts at i. */
  function RunEnd(cpus: seq<int>, i: nat): (j: nat)
    requires i < |cpus|
    ensures i <= j < |cpus|
    decreases |cpus| - i
  {
    if i + 1 < |cpus| && cpus[i + 1] == cpus[i] + 1 then RunEnd(cpus, i + 1) else i
  }

  predicate Consecutive(cpus: seq<int>, i: nat, j: nat)
    requires i <= j < |cpus|
  {
    forall k | i <= k <= j :: cpus[k] == cpus[i] + (k - i)
  }

  /** The run is consecutive and cannot be extended, and is the only such run. */
  lemma {:induction false} RunEndMeans(cpus: seq<int>, i: nat, j: nat)
    requires i <= j < |cpus|
    ensures j == RunEnd(cpus, i) <==>
            Consecutive(cpus, i, j) && (j + 1 < |cpus| ==> cpus[j + 1] != cpus[j] + 1)
    decreases |cpus| - i
  {
    if i + 1 < |cpus| && cpus[i + 1] == cpus[i] + 1 {
      if j == i {
        assert !(j + 1 < |cpus| ==> cpus[j + 1] != cpus[j] + 1);
      } else {
        RunEndMeans(cpus, i + 1, j);
        assert Consecutive(cpus, i, j) <==> Consecutive(cpus, i + 1, j) by {
          if Consecutive(cpus, i, j) {
            assert forall k | i + 1 <= k <= j :: cpus[k] == cpus[i] + (k - i);
          }
        }
      }
    } else if j != i {
      assert !Consecutive(cpus, i, j) by {
        assert cpus[i + 1] != cpus[i] + 1;
      }
    }
  }

  /** The maximal runs from index i on, as first and last cpu. */
  function Runs(cpus: seq<int>, i: nat): seq<(int, int)>
    requires i <= |cpus|
    decreases |cpus| - i
  {
    if i == |cpus| then []
    else
      var j := RunEnd(cpus, i);
      [(cpus[i], cpus[j])] + Runs(cpus, j + 1)
  }

  function Render(run: (int, int)): string
    requires 0 <= run.0 <= run.1
  {
    if run.0 == run.1 then Itoa(run.0) else Itoa(run.0) + "-" + Itoa(run.1)
  }

  predicate RunsWf(runs: seq<(int, int)>) { forall i | 0 <= i < |runs| :: 0 <= runs[i].0 <= runs[i].1 <= MAX_INT64 }

  function RenderAll(runs: seq<(int, int)>): seq<string>
    requires RunsWf(runs)
  {
    if runs == [] then [] else RenderAll(runs[..|runs| - 1]) + [Render(runs[|runs| - 1])]
  }

  function RunSet(runs: seq<(int, int)>): set<int> {
    if runs == [] then {} else RunSet(runs[..|runs| - 1]) + IntRange(runs[|runs| - 1].0, runs[|runs| - 1].1)
  }

  lemma {:induction false} RunSetPrepend(run: (int, int), runs: seq<(int, int)>)
    ensures RunSet([run] + runs) == IntRange(run.0, run.1) + RunSet(runs)
  {
    if runs == [] {
      assert ([run] + runs)[..0] == [] && [run] + runs == [run];
    } else {
      RunSetPrepend(run, runs[..|runs| - 1]);
      assert ([run] + runs)[..|runs|] == [run] + runs[..|runs| - 1];
    }
  }

  lemma {:induction false} RunsInRange(cpus: seq<int>, i: nat)
    requires Numbers(cpus) && i <= |cpus|
    ensures RunsWf(Runs(cpus, i))
    decreases |cpus| - i
  {
    if i < |cpus| {
      RunEndMeans(cpus, i, RunEnd(cpus, i));
      RunsInRange(cpus, RunEnd(cpus, i) + 1);
    }
  }

  /** The runs denote exactly the cpus. */
  lemma {:induction false} RunsDenote(cpus: seq<int>, i: nat)
    requires i <= |cpus|
    ensures RunSet(Runs(cpus, i)) == Elems(cpus[i..])
    decreases |cpus| - i
  {
    if i < |cpus| {
      var j := RunEnd(cpus, i);
      RunsDenote(cpus, j + 1);
      RunSetPrepend((cpus[i], cpus[j]), Runs(cpus, j + 1));
      RunEndMeans(cpus, i, j);
      RunElems(cpus, i, j);
    }
  }

  lemma RunElems(cpus: seq<int>, i: nat, j: nat)
    requires i <= j < |cpus| && Consecutive(cpus, i, j)
    ensures Elems(cpus[i..]) == IntRange(cpus[i], cpus[j]) + Elems(cpus[j + 1..])
  {
    var s := cpus[i..];
    forall c | c in IntRange(cpus[i], cpus[j]) ensures c in s {
      assert s[c - cpus[i]] == c;
    }
    forall c | c in s ensures c in IntRange(cpus[i], cpus[j]) || c in cpus[j + 1..] {
      var k :| 0 <= k < |s| && s[k] == c;
      assert i + k > j ==> cpus[j + 1..][i + k - (j + 1)] == c;
    }
    assert cpus[j + 1..] == s[j + 1 - i..];
  }

  /** No two neighbouring runs could be merged. */
  lemma {:induction false} RunsAreMaximal(cpus: seq<int>, i: nat)
    requires Cpus(cpus) && i <= |cpus|
    ensures forall k | 0 < k < |Runs(cpus, i)| :: Runs(cpus, i)[k - 1].1 + 1 < Runs(cpus, i)[k].0
    ensures i < |cpus| ==> Runs(cpus, i) != [] && Runs(cpus, i)[0].0 == cpus[i]
    decreases |cpus| - i
  {
    if i < |cpus| {
      var j := RunEnd(cpus, i);
      RunEndMeans(cpus, i, j);
      RunsAreMaximal(cpus, j + 1);
    }
  }

  function Format(cpus: seq<int>): string
    requires Numbers(cpus)
  {
    RunsInRange(cpus, 0);
    Join(RenderAll(Runs(cpus, 0)))
  }

  /** parts renders the runs done so far. */
  ghost predicate Rendered(done: seq<(int, int)>, parts: seq<string>) { RunsWf(done) && parts == RenderAll(done) }

  lemma RenderedNext(done: seq<(int, int)>, parts: seq<string>, run: (int, int))
    requires Rendered(done, parts) && 0 <= run.0 <= run.1 <= MAX_INT64
    ensures Rendered(done + [run], parts + [Render(run)])
  {
    assert (done + [run])[..|done|] == done;
  }

  /** The runs done so far, extended one run at a time by those from index i on. */
  ghost function Extend(done: seq<(int, int)>, cpus: seq<int>, i: nat): seq<(int, int)>
    requires i <= |cpus|
    decreases |cpus| - i
  {
    if i == |cpus| then done
    else
      var j := RunEnd(cpus, i);
      Extend(done + [(cpus[i], cpus[j])], cpus, j + 1)
  }

  lemma {:induction false} ExtendIsRuns(done: seq<(int, int)>, cpus: seq<int>, i: nat)
    requires i <= |cpus|
    ensures Extend(done, cpus, i) == done + Runs(cpus, i)
    decreases |cpus| - i
  {
    if i < |cpus| {
      var j := RunEnd(cpus, i);
      ExtendIsRuns(done + [(cpus[i], cpus[j])], cpus, j + 1);
    }
  }

  lemma AllRendered(cpus: seq<int>, done: seq<(int, int)>, parts: seq<string>)
    requires Numbers(cpus) && Rendered(done, parts) && Extend([], cpus, 0) == done
    ensures Join(parts) == Format(cpus)
  {
    ExtendIsRuns([], cpus, 0);
    assert done == Runs(cpus, 0);
  }

  method FormatCPUList(cpus: seq<int>) returns (s: string)
    requires Numbers(cpus)
    ensures s == Format(cpus)
  {
    var parts: seq<string> := [];
    ghost var done: seq<(int, int)> := [];
    var i := 0;
    while i < |cpus|
      invariant 0 <= i <= |cpus|
      invariant Rendered(done, parts)
      invariant Extend(done, cpus, i) == Extend([], cpus, 0)
    {
      var j := i;
      while j + 1 < |cpus| && cpus[j + 1] == cpus[j] + 1
        invariant i <= j < |cpus|
        invariant Consecutive(cpus, i, j)
      {
        j := j + 1;
      }
      RunEndMeans(cpus, i, j);
      ghost var run := (cpus[i], cpus[j]);
      RenderedNext(done, parts, run);
      if j == i {
        parts := parts + [Itoa(cpus[i])];
      } else {
        parts := parts + [Itoa(cpus[i]) + "-" + Itoa(cpus[j])];
      }
      done := done + [run];
      i := j + 1;
    }
    s := Join(parts);
    AllRendered(cpus, done, parts);
  }

  // ----- the round trip

  predicate NoComma(s: string) { forall i | 0 <= i < |s| :: s[i] != ',' }

  lemma {:induction false} SplitPlain(s: string)
    requires NoComma(s)
    ensures Split(s) == [s]
  {
    if s != "" {
      SplitPlain(s[..|s| - 1]);
      assert s == s[..|s| - 1] + [s[|s| - 1]];
    }
  }

  lemma {:induction false} SplitAppend(a: string, p: string)
    requires NoComma(p)
    ensures Split(a + "," + p) == Split(a) + [p]
  {
    var s := a + "," + p;
    if p == "" {
      assert s[..|s| - 1] == a;
    } else {
      var p' := p[..|p| - 1];
      SplitAppend(a, p');
      assert s[..|s| - 1] == a + "," + p';
      assert p == p' + [p[|p| - 1]];
    }
  }

  predicate Plain(parts: seq<string>) { forall i | 0 <= i < |parts| :: NoComma(parts[i]) }

  lemma {:induction false} SplitJoin(parts: seq<string>)
    requires parts != [] && Plain(parts)
    ensures Split(Join(parts)) == parts
  {
    var init, last := parts[..|parts| - 1], parts[|parts| - 1];
    assert parts == init + [last];
    if init == [] {
      SplitPlain(last);
    } else {
      SplitJoin(init);
      SplitAppend(Join(init), last);
    }
  }

  lemma {:induction false} ValueOfItoa(n: nat)
    ensures Value(Itoa(n)) == n
  {
    if n < 10 {
      assert Itoa(n)[..0] == "";
    } else {
      ValueOfItoa(n / 10);
      assert Itoa(n)[..|Itoa(n)| - 1] == Itoa(n / 10);
    }
  }

  lemma AtoiItoa(n: nat)
    requires n <= MAX_INT64
    ensures Atoi(Itoa(n)) == Some(n)
  {
    ValueOfItoa(n);
    assert IsDigit(Itoa(n)[0]);
  }

  lemma {:induction false} CutDigits(a: string, b: string)
    requires AllDigits(a)
    ensures CutDash(a) == (a, "", false) && CutDash(a + "-" + b) == (a, b, true)
  {
    if a == "" {
      assert ("" + "-" + b)[1..] == b;
    } else {
      CutDigits(a[1..], b);
      assert IsDigit(a[0]);
      assert (a + "-" + b)[1..] == a[1..] + "-" + b;
      assert a == [a[0]] + a[1..];
    }
  }

  lemma TrimPlain(s: string)
    requires s != "" && !IsSpace(s[0]) && !IsSpace(s[|s| - 1])
    ensures TrimSpace(s) == s
  {
  }

  lemma RenderShape(run: (int, int))
    requires 0 <= run.0 <= run.1
    ensures TrimSpace(Render(run)) == Render(run) && NoComma(Render(run))
  {
    var a, b, s := Itoa(run.0), Itoa(run.1), Render(run);
    assert forall i | 0 <= i < |s| :: IsDigit(s[i]) || s[i] == '-';
    TrimPlain(s);
  }

  lemma RenderParses(run: (int, int))
    requires 0 <= run.0 <= run.1 <= MAX_INT64
    ensures ParsePart(Render(run)) == Some(run) && NoComma(Render(run))
  {
    RenderShape(run);
    AtoiItoa(run.0);
    AtoiItoa(run.1);
    CutDigits(Itoa(run.0), Itoa(run.1));
  }

  lemma {:induction false} RenderAllParses(runs: seq<(int, int)>)
    requires RunsWf(runs)
    ensures DenotesParts(RenderAll(runs)) == Some(RunSet(runs)) && |RenderAll(runs)| == |runs|
    ensures Plain(RenderAll(runs))
  {
    if runs != [] {
      RenderAllParses(runs[..|runs| - 1]);
      RenderParses(runs[|runs| - 1]);
      var parts := RenderAll(runs);
      assert parts[..|parts| - 1] == RenderAll(runs[..|runs| - 1]);
    }
  }

  lemma {:induction false} JoinNonEmpty(parts: seq<string>)
    requires parts != [] && parts[|parts| - 1] != ""
    ensures Join(parts) != ""
  {
  }

  /** Rendering and parsing agree on the set, whatever the order of the list. */
  lemma FormatDenotes(cpus: seq<int>)
    requires Numbers(cpus)
    ensures Denotes(Format(cpus)) == Some(Elems(cpus))
  {
    RunsDenote(cpus, 0);
    RunsInRange(cpus, 0);
    assert cpus[0..] == cpus;
    var runs := Runs(cpus, 0);
    RenderAllParses(runs);
    if cpus != [] {
      var parts := RenderAll(runs);
      SplitJoin(parts);
      assert parts[|parts| - 1] == Render(runs[|runs| - 1]);
      JoinNonEmpty(parts);
    }
  }

  lemma RenderTwo(runs: seq<(int, int)>)
    requires |runs| == 2 && RunsWf(runs)
    ensures Join(RenderAll(runs)) == Render(runs[0]) + "," + Render(runs[1])
  {
    var one := runs[..1];
    assert one[..0] == [] && runs[..|runs| - 1] == one && one[..|one| - 1] == [];
    assert RenderAll(one) == [Render(runs[0])];
    var parts := RenderAll(runs);
    assert parts == [Render(runs[0]), Render(runs[1])];
    assert parts[..|parts| - 1] == [Render(runs[0])];
  }

  lemma ExampleRuns(cpus: seq<int>)
    requires |cpus| == 4 && cpus[0] == 0 && cpus[1] == 1 && cpus[2] == 2 && cpus[3] == 192
    ensures |Runs(cpus, 0)| == 2 && Runs(cpus, 0)[0] == (0, 2) && Runs(cpus, 0)[1] == (192, 192)
  {
    assert RunEnd(cpus, 2) == 2 && RunEnd(cpus, 1) == 2 && RunEnd(cpus, 0) == 2 && RunEnd(cpus, 3) == 3;
    assert Runs(cpus, 4) == [];
    assert |Runs(cpus, 3)| == 1 && Runs(cpus, 3)[0] == (192, 192);
  }

  /** Decimal digits, most significant first. */
  lemma ItoaTells(n: nat)
    ensures Itoa(n)[|Itoa(n)| - 1] as int == '0' as int + n % 10
    ensures n < 10 ==> |Itoa(n)| == 1
    ensures n >= 10 ==> Itoa(n)[..|Itoa(n)| - 1] == Itoa(n / 10)
  {
  }

  lemma OneNineTwo(s: string)
    requires s == Itoa(192)
    ensures |s| == 3 && s[0] == '1' && s[1] == '9' && s[2] == '2'
  {
    ItoaTells(192);
    ItoaTells(19);
    ItoaTells(1);
    var t := s[..2];
    assert t == Itoa(19) && t[..1] == Itoa(1);
    assert s[0] == t[0] && s[1] == t[1];
  }

  /** How lists are written: the cpus 0, 1, 2 and 192 as "0-2,192". */
  lemma FormatExample(cpus: seq<int>)
    requires |cpus| == 4 && cpus[0] == 0 && cpus[1] == 1 && cpus[2] == 2 && cpus[3] == 192
    ensures var s := Format(cpus);
            && |s| == 7 && s[0] == '0' && s[1] == '-' && s[2] == '2' && s[3] == ','
            && s[4] == '1' && s[5] == '9' && s[6] == '2'
  {
    ExampleRuns(cpus);
    RunsInRange(cpus, 0);
    RenderTwo(Runs(cpus, 0));
    ItoaTells(0);
    ItoaTells(2);
    OneNineTwo(Itoa(192));
    var a, b := Render((0, 2)), Render((192, 192));
    assert |a| == 3 && a[0] == '0' && a[1] == '-' && a[2] == '2' && b == Itoa(192);
  }

  method RoundTrip(cpus: seq<int>) returns (r: Option<seq<int>>)
    requires Cpus(cpus)
    ensures r == Some(cpus)
  {
    var s := FormatCPUList(cpus);
    r := ParseCPUList(s);
    FormatDenotes(cpus);
    IncreasingIsUnique(r.value, cpus);
  }
}
