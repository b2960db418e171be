/**
  CPU placement of cgroup/topology.go: the online cpus inside a fence grouped by the last-level cache
  they share, and the choice of a cache domain and of one thread per queue inside it.
*/
module Topology {
  import opened Common
  import opened CpuList

  /**
    The sysfs files read. A cpu missing from shared has no readable shared_cpu_list; one missing from
    siblings has no thread_siblings_list, and None there is a file that cannot be read.
  */
  datatype Host = Host(
    online: Option<string>, hasCache: bool, shared: map<int, string>, siblings: map<int, Option<string>>)

  /** What the files say. */
  datatype Sysfs = Sysfs(
    online: Option<set<int>>, hasCache: bool, shared: map<int, set<int>>, siblings: map<int, Option<set<int>>>)

  datatype Topo = Topo(domains: seq<seq<int>>, soleDomainCores: Option<seq<seq<int>>>)

  function Decode(h: Host): Sysfs {
    Sysfs(Read(h.online), h.hasCache,
          map c | c in h.shared && Read(Some(h.shared[c])).Some? :: Read(Some(h.shared[c])).value,
          map c | c in h.siblings :: Read(h.siblings[c]))
  }

  function Read(file: Option<string>): Option<set<int>> {
    if file.None? then None else Denotes(TrimSpace(file.value))
  }

  method ReadCPUList(file: Option<string>) returns (r: Option<seq<int>>)
    ensures r.Some? <==> Read(file).Some?
    ensures r.Some? ==> Increasing(r.value) && Elems(r.value) == Read(file).value
  {
    if file.None? {
      return None;
    }
    r := ParseCPUList(TrimSpace(file.value));
  }

  /** The cpus that share cpu c's last-level cache, None when unreadable. */
  function Shared(h: Sysfs, c: int): Option<set<int>> { if c in h.shared then Some(h.shared[c]) else None }

  /** slices.DeleteFunc of what is not in keep. */
  function Inside(s: seq<int>, keep: set<int>): (r: seq<int>)
    ensures |r| <= |s|
    ensures s != [] && s[0] !in keep ==> |r| < |s|
    ensures s != [] && s[0] in keep ==> r != [] && r[0] == s[0]
  {
    if s == [] then []
    else
      var r := Inside(s[..|s| - 1], keep);
      if s[|s| - 1] in keep then r + [s[|s| - 1]] else r
  }

  /** slices.DeleteFunc of what is in drop. */
  function Outside(s: seq<int>, drop: set<int>): seq<int> { Inside(s, Elems(s) - drop) }

  lemma {:induction false} InsideElems(s: seq<int>, keep: set<int>)
    ensures Elems(Inside(s, keep)) == Elems(s) * keep
  {
    if s != [] {
      var init, last := s[..|s| - 1], s[|s| - 1];
      InsideElems(init, keep);
      ElemsSnoc(init, last);
      ElemsSnoc(Inside(init, keep), last);
      assert s == init + [last];
    }
  }

  lemma {:induction false} InsideIncreasing(s: seq<int>, keep: set<int>)
    requires Increasing(s)
    ensures Increasing(Inside(s, keep))
  {
    if s != [] {
      var init, last := s[..|s| - 1], s[|s| - 1];
      InsideIncreasing(init, keep);
      InsideElems(init, keep);
      IncreasingSnoc(Inside(init, keep), last);
    }
  }

  lemma OutsideElems(s: seq<int>, drop: set<int>)
    ensures Elems(Outside(s, drop)) == Elems(s) - drop
  {
    InsideElems(s, Elems(s) - drop);
  }

  // ----- the domain loop

  /** What a loop has appended so far, extended by what is still to come. */
  ghost function Extended<T>(done: seq<T>, more: Option<seq<T>>): Option<seq<T>> {
    if more.None? then None else Some(done + more.value)
  }

  lemma ExtendedOnce<T>(done: seq<T>, x: T, more: Option<seq<T>>)
    ensures Extended(done, if more.None? then None else Some([x] + more.value)) == Extended(done + [x], more)
  {
    if more.Some? {
      assert done + ([x] + more.value) == done + [x] + more.value;
    }
  }

  /** Every cpu the loop takes as head of the rest names itself in its shared list, up to the first unreadable file. */
  predicate HeadsOk(h: Sysfs, rest: seq<int>)
    decreases |rest|
  {
    assert rest != [] ==> rest[0] in Elems(rest);
    rest != [] && Shared(h, rest[0]).Some? ==>
      var sh := Shared(h, rest[0]).value;
      rest[0] in sh && HeadsOk(h, Outside(rest, sh))
  }

  /** The loop ends within n rounds. */
  predicate HaltsWithin(h: Sysfs, rest: seq<int>, n: nat)
    decreases n
  {
    rest == [] || Shared(h, rest[0]).None? || (n > 0 && HaltsWithin(h, Outside(rest, Shared(h, rest[0]).value), n - 1))
  }

  lemma {:induction false} HaltsLater(h: Sysfs, rest: seq<int>, n: nat, m: nat)
    requires HaltsWithin(h, rest, n) && n <= m
    ensures HaltsWithin(h, rest, m)
    decreases n
  {
    if rest != [] && Shared(h, rest[0]).Some? {
      HaltsLater(h, Outside(rest, Shared(h, rest[0]).value), n - 1, m - 1);
    }
  }

  lemma {:induction false} GoodHeadsHalt(h: Sysfs, rest: seq<int>)
    requires HeadsOk(h, rest)
    ensures HaltsWithin(h, rest, |rest|)
    decreases |rest|
  {
    if rest != [] && Shared(h, rest[0]).Some? {
      var next := Outside(rest, Shared(h, rest[0]).value);
      assert rest[0] in Elems(rest);
      GoodHeadsHalt(h, next);
      HaltsLater(h, next, |next|, |rest| - 1);
    }
  }

  lemma {:induction false} BadHeadsRunOn(h: Sysfs, rest: seq<int>, n: nat)
    requires !HeadsOk(h, rest)
    ensures !HaltsWithin(h, rest, n)
    decreases n
  {
    if n > 0 {
      var sh := Shared(h, rest[0]).value;
      var next := Outside(rest, sh);
      assert rest[0] in Elems(rest);
      assert rest[0] !in sh ==> !HeadsOk(h, next);
      BadHeadsRunOn(h, next, n - 1);
    }
  }

  /** The loop terminates exactly when no head is missing from its own shared list. */
  lemma TerminatesExactly(h: Sysfs, rest: seq<int>)
    ensures (exists n: nat :: HaltsWithin(h, rest, n)) <==> HeadsOk(h, rest)
  {
    if HeadsOk(h, rest) {
      GoodHeadsHalt(h, rest);
      assert exists n: nat :: HaltsWithin(h, rest, n);
    } else {
      forall n: nat ensures !HaltsWithin(h, rest, n) {
        BadHeadsRunOn(h, rest, n);
      }
    }
  }

  /** Every readable shared list names its own cpu. */
  predicate SelfListed(h: Sysfs, all: set<int>) { forall c | c in all && Shared(h, c).Some? :: c in Shared(h, c).value }

  /** On such a host the loop ends, whichever cpus it starts from, in at most one round per cpu. */
  lemma {:induction false} SelfListedTerminates(h: Sysfs, rest: seq<int>)
    requires SelfListed(h, Elems(rest))
    ensures HeadsOk(h, rest) && HaltsWithin(h, rest, |rest|)
    decreases |rest|
  {
    if rest != [] && Shared(h, rest[0]).Some? {
      assert rest[0] in Elems(rest);
      OutsideElems(rest, Shared(h, rest[0]).value);
      SelfListedTerminates(h, Outside(rest, Shared(h, rest[0]).value));
    }
    GoodHeadsHalt(h, rest);
  }

  /** A host whose cpu 0 is not in its own shared list, on which the loop appends empty domains for ever. */
  lemma LoopCanRunOn(n: nat)
    ensures !HaltsWithin(Sysfs(Some({0}), true, map[0 := {1}], map[]), [0], n)
  {
    var h := Sysfs(Some({0}), true, map[0 := {1}], map[]);
    assert Shared(h, [0][0]) == Some({1});
    BadHeadsRunOn(h, [0], n);
  }

  /** The domains the loop appends, None when a shared list cannot be read. */
  function Domains(h: Sysfs, rest: seq<int>): Option<seq<seq<int>>>
    requires HeadsOk(h, rest)
    decreases |rest|
  {
    assert rest != [] ==> rest[0] in Elems(rest);
    if rest == [] then Some([])
    else match Shared(h, rest[0])
         case None => None
         case Some(sh) =>
           match Domains(h, Outside(rest, sh))
           case None => None
           case Some(ds) => Some([Inside(rest, sh)] + ds)
  }

  predicate Block(d: seq<int>, all: set<int>) { d != [] && Increasing(d) && Elems(d) <= all }

  predicate Apart(d: seq<int>, e: seq<int>) { Elems(d) !! Elems(e) }

  predicate InSome(domains: seq<seq<int>>, c: int) { exists i | 0 <= i < |domains| :: c in domains[i] }

  /** Non-empty, increasing, pairwise disjoint, and together exactly all. */
  ghost predicate IsPartition(domains: seq<seq<int>>, all: set<int>) {
    && (forall i | 0 <= i < |domains| :: Block(domains[i], all))
    && (forall i, j | 0 <= i < j < |domains| :: Apart(domains[i], domains[j]))
    && (forall c | c in all :: InSome(domains, c))
  }

  lemma PartitionPrepend(d: seq<int>, ds: seq<seq<int>>, rest: set<int>, all: seq<seq<int>>, whole: set<int>)
    requires d != [] && Increasing(d) && Elems(d) !! rest && IsPartition(ds, rest)
    requires all == [d] + ds && whole == Elems(d) + rest
    ensures IsPartition(all, whole)
  {
    forall i, j | 0 <= i < j < |all| ensures Apart(all[i], all[j]) {
      assert all[j] == ds[j - 1] && Block(ds[j - 1], rest);
      if i > 0 {
        assert Apart(ds[i - 1], ds[j - 1]);
      }
    }
    forall i | 0 <= i < |all| ensures Block(all[i], whole) {
      if i > 0 {
        assert Block(ds[i - 1], rest);
      }
    }
    forall c | c in whole ensures InSome(all, c) {
      if c in Elems(d) {
        assert c in all[0];
      } else {
        var i :| 0 <= i < |ds| && c in ds[i];
        assert c in all[i + 1];
      }
    }
  }

  /** The domains partition the cpus the loop started from. */
  lemma {:induction false} DomainsPartition(h: Sysfs, rest: seq<int>)
    requires Increasing(rest) && HeadsOk(h, rest) && Domains(h, rest).Some?
    ensures IsPartition(Domains(h, rest).value, Elems(rest))
    decreases |rest|
  {
    if rest != [] {
      var sh := Shared(h, rest[0]).value;
      var d, next := Inside(rest, sh), Outside(rest, sh);
      assert rest[0] in Elems(rest);
      InsideElems(rest, sh);
      OutsideElems(rest, sh);
      InsideIncreasing(rest, sh);
      InsideIncreasing(rest, Elems(rest) - sh);
      DomainsPartition(h, next);
      PartitionPrepend(d, Domains(h, next).value, Elems(next), Domains(h, rest).value, Elems(rest));
    }
  }

  /** The shared lists inside all are those of an equivalence: what sysfs promises. */
  ghost predicate Consistent(h: Sysfs, all: set<int>) {
    forall c | c in all ::
      && Shared(h, c).Some? && c in Shared(h, c).value
      && forall d | d in all && d in Shared(h, c).value :: Shared(h, d) == Shared(h, c)
  }

  ghost predicate Together(domains: seq<seq<int>>, c: int, d: int) {
    exists i :: 0 <= i < |domains| && c in Elems(domains[i]) && d in Elems(domains[i])
  }

  /** Two cpus end up in one domain exactly when they share a last-level cache. */
  lemma {:induction false} DomainsAreCaches(h: Sysfs, rest: seq<int>, all: set<int>, c: int, d: int)
    requires Consistent(h, all) && Elems(rest) <= all && c in Elems(rest) && d in Elems(rest)
    requires HeadsOk(h, rest) && Domains(h, rest).Some?
    ensures Together(Domains(h, rest).value, c, d) <==> d in Shared(h, c).value
    decreases |rest|
  {
    var ds := Domains(h, rest).value;
    var head := rest[0];
    assert head in Elems(rest);
    var sh := Shared(h, head).value;
    var next := Outside(rest, sh);
    InsideElems(rest, sh);
    OutsideElems(rest, sh);
    var tail := Domains(h, next).value;
    assert ds[0] == Inside(rest, sh);
    assert forall i | 0 < i < |ds| :: ds[i] == tail[i - 1];
    LaterDomainsInside(h, next);
    if c in sh && d in sh {
      assert c in Elems(ds[0]) && d in Elems(ds[0]);
    } else if c !in sh && d !in sh {
      DomainsAreCaches(h, next, all, c, d);
      if Together(tail, c, d) {
        var i :| 0 <= i < |tail| && c in Elems(tail[i]) && d in Elems(tail[i]);
        assert c in Elems(ds[i + 1]) && d in Elems(ds[i + 1]);
      }
    } else {
      assert d !in Shared(h, c).value;
      assert forall i | 0 < i < |ds| :: Elems(ds[i]) <= Elems(next);
    }
  }

  lemma AllDomainsAreCaches(h: Sysfs, online: seq<int>)
    requires Consistent(h, Elems(online)) && HeadsOk(h, online) && Domains(h, online).Some?
    ensures forall c, d | c in Elems(online) && d in Elems(online) ::
              Together(Domains(h, online).value, c, d) <==> d in Shared(h, c).value
  {
    forall c, d | c in Elems(online) && d in Elems(online)
      ensures Together(Domains(h, online).value, c, d) <==> d in Shared(h, c).value
    {
      DomainsAreCaches(h, online, Elems(online), c, d);
    }
  }

  lemma {:induction false} LaterDomainsInside(h: Sysfs, rest: seq<int>)
    requires HeadsOk(h, rest) && Domains(h, rest).Some?
    ensures forall i | 0 <= i < |Domains(h, rest).value| :: Elems(Domains(h, rest).value[i]) <= Elems(rest)
    decreases |rest|
  {
    if rest != [] {
      var sh := Shared(h, rest[0]).value;
      assert rest[0] in Elems(rest);
      InsideElems(rest, sh);
      OutsideElems(rest, sh);
      LaterDomainsInside(h, Outside(rest, sh));
    }
  }

  // ----- cores

  /** The hardware threads of c's core; a host without the file has one thread a core. */
  function Siblings(h: Sysfs, c: int): Option<set<int>> { if c in h.siblings then h.siblings[c] else Some({c}) }

  /** The cores coresOf lists from index i of the domain on, each inside the domain. */
  function CoresFrom(h: Sysfs, domain: seq<int>, i: nat, seen: set<int>): Option<seq<set<int>>>
    requires i <= |domain|
    decreases |domain| - i
  {
    if i == |domain| then Some([])
    else if domain[i] in seen then CoresFrom(h, domain, i + 1, seen)
    else match Siblings(h, domain[i])
         case None => None
         case Some(sib) =>
           var core := sib * Elems(domain);
           match CoresFrom(h, domain, i + 1, seen + core)
           case None => None
           case Some(cores) => Some([core] + cores)
  }

  ghost predicate Lists(cores: seq<seq<int>>, sets: seq<set<int>>) {
    && |cores| == |sets|
    && forall i | 0 <= i < |cores| :: Increasing(cores[i]) && Elems(cores[i]) == sets[i]
  }

  method CoresOf(host: Host, domain: seq<int>) returns (r: Option<seq<seq<int>>>)
    ensures r.Some? <==> CoresFrom(Decode(host), domain, 0, {}).Some?
    ensures r.Some? ==> Lists(r.value, CoresFrom(Decode(host), domain, 0, {}).value)
  {
    ghost var h := Decode(host);
    var cores: seq<seq<int>> := [];
    var seen: set<int> := {};
    ghost var sets: seq<set<int>> := [];
    for i := 0 to |domain|
      invariant Lists(cores, sets)
      invariant Extended(sets, CoresFrom(h, domain, i, seen)) == Extended([], CoresFrom(h, domain, 0, {}))
    {
      var c := domain[i];
      if c in seen {
        continue;
      }
      var siblings: Option<seq<int>>;
      if c in host.siblings {
        siblings := ReadCPUList(host.siblings[c]);
      } else {
        siblings := Some([c]);
        assert Elems([c]) == {c};
      }
      if siblings.None? {
        return None;
      }
      var core := Inside(siblings.value, Elems(domain));
      InsideElems(siblings.value, Elems(domain));
      InsideIncreasing(siblings.value, Elems(domain));
      ExtendedOnce(sets, Elems(core), CoresFrom(h, domain, i + 1, seen + Elems(core)));
      seen := seen + Elems(core);
      cores := cores + [core];
      sets := sets + [Elems(core)];
    }
    assert sets + [] == sets;
    return Some(cores);
  }

  /** c's core inside the domain. */
  function CoreOf(h: Sysfs, domain: set<int>, c: int): set<int>
    requires Siblings(h, c).Some?
  {
    Siblings(h, c).value * domain
  }

  /** The sibling lists are those of an equivalence on the domain: what sysfs promises. */
  ghost predicate SiblingsOk(h: Sysfs, domain: set<int>) {
    forall c | c in domain ::
      && Siblings(h, c).Some? && c in Siblings(h, c).value
      && forall d | d in domain && d in Siblings(h, c).value ::
           Siblings(h, d).Some? && CoreOf(h, domain, d) == CoreOf(h, domain, c)
  }

  /** The cores of a domain, as a set of sets of threads. */
  ghost function Cores(h: Sysfs, domain: set<int>): set<set<int>>
    requires SiblingsOk(h, domain)
  {
    set c | c in domain :: CoreOf(h, domain, c)
  }

  /** Each listed core is a whole core, no two overlap, and every domain cpu not seen before is in one. */
  ghost predicate CoreList(h: Sysfs, domain: set<int>, seen: set<int>, cores: seq<set<int>>)
    requires SiblingsOk(h, domain)
  {
    && (forall i | 0 <= i < |cores| :: cores[i] != {} && cores[i] <= domain && cores[i] !! seen)
    && (forall i, c | 0 <= i < |cores| && c in cores[i] :: CoreOf(h, domain, c) == cores[i])
    && (forall i, j | 0 <= i < j < |cores| :: cores[i] !! cores[j])
  }

  /** seen is a union of cores. */
  ghost predicate Whole(h: Sysfs, domain: set<int>, seen: set<int>)
    requires SiblingsOk(h, domain)
  {
    seen <= domain && forall c | c in seen :: CoreOf(h, domain, c) <= seen
  }

  ghost predicate Covers(cores: seq<set<int>>, c: int) { exists k :: 0 <= k < |cores| && c in cores[k] }

  lemma {:induction false} CoresPartition(h: Sysfs, domain: seq<int>, i: nat, seen: set<int>)
    requires i <= |domain| && SiblingsOk(h, Elems(domain)) && Whole(h, Elems(domain), seen)
    ensures var r := CoresFrom(h, domain, i, seen);
            && r.Some? && CoreList(h, Elems(domain), seen, r.value)
            && forall k | i <= k < |domain| :: domain[k] in seen || Covers(r.value, domain[k])
    decreases |domain| - i
  {
    if i < |domain| {
      var c, all := domain[i], Elems(domain);
      assert c in all;
      if c in seen {
        CoresPartition(h, domain, i + 1, seen);
      } else {
        var core := CoreOf(h, all, c);
        assert c in core;
        FreshCore(h, all, seen, c);
        CoresPartition(h, domain, i + 1, seen + core);
        var more := CoresFrom(h, domain, i + 1, seen + core).value;
        var r := [core] + more;
        CoreListPrepend(h, all, seen, core, more);
        forall k | i <= k < |domain| ensures domain[k] in seen || Covers(r, domain[k]) {
          if k == i || domain[k] in core {
            assert domain[k] in r[0];
          } else if domain[k] !in seen {
            var m :| 0 <= m < |more| && domain[k] in more[m];
            assert domain[k] in r[m + 1];
          }
        }
      }
    }
  }

  lemma FreshCore(h: Sysfs, all: set<int>, seen: set<int>, c: int)
    requires SiblingsOk(h, all) && Whole(h, all, seen) && c in all && c !in seen
    ensures CoreOf(h, all, c) !! seen && Whole(h, all, seen + CoreOf(h, all, c))
  {
    var core := CoreOf(h, all, c);
    assert c in core;
    assert forall d | d in core :: d in all && d in Siblings(h, c).value;
    forall d | d in core ensures CoreOf(h, all, d) == core {
    }
    assert forall d | d in core :: d !in seen;
  }

  lemma CoreListPrepend(h: Sysfs, all: set<int>, seen: set<int>, core: set<int>, more: seq<set<int>>)
    requires SiblingsOk(h, all) && core != {} && core <= all && core !! seen && CoreList(h, all, seen + core, more)
    requires forall c | c in core :: CoreOf(h, all, c) == core
    ensures CoreList(h, all, seen, [core] + more)
  {
    var r := [core] + more;
    assert forall i | 0 < i < |r| :: r[i] == more[i - 1];
  }

  // ----- ranking

  function LoadOf(load: map<int, int>, c: int): int { if c in load then load[c] else 0 }

  /** Order by layer, then by load, then by cpu number. */
  predicate Before(layer: map<int, int>, load: map<int, int>, a: int, b: int) {
    var (la, lb, wa, wb) := (LoadOf(layer, a), LoadOf(layer, b), LoadOf(load, a), LoadOf(load, b));
    la < lb || (la == lb && (wa < wb || (wa == wb && a < b)))
  }

  /** The byLoad comparison alone. */
  predicate Lighter(load: map<int, int>, a: int, b: int) { Before(map[], load, a, b) }

  /** Strictly ordered, hence free of duplicates. */
  predicate Ranked(layer: map<int, int>, load: map<int, int>, s: seq<int>) {
    forall i, j | 0 <= i < j < |s| :: Before(layer, load, s[i], s[j])
  }

  predicate Distinct(s: seq<int>) { forall i, j | 0 <= i < j < |s| :: s[i] != s[j] }

  function InsertRanked(layer: map<int, int>, load: map<int, int>, x: int, s: seq<int>): seq<int> {
    if s == [] || Before(layer, load, s[|s| - 1], x) then s + [x]
    else InsertRanked(layer, load, x, s[..|s| - 1]) + [s[|s| - 1]]
  }

  /** slices.SortFunc by Before. */
  function Sorted(layer: map<int, int>, load: map<int, int>, s: seq<int>): seq<int> {
    if s == [] then [] else InsertRanked(layer, load, s[|s| - 1], Sorted(layer, load, s[..|s| - 1]))
  }

  lemma RankedSnoc(layer: map<int, int>, load: map<int, int>, s: seq<int>, x: int)
    requires Ranked(layer, load, s) && forall c | c in Elems(s) :: Before(layer, load, c, x)
    ensures Ranked(layer, load, s + [x])
  {
    assert forall i | 0 <= i < |s| :: s[i] in Elems(s);
  }

  lemma RankedLast(layer: map<int, int>, load: map<int, int>, s: seq<int>)
    requires s != [] && Ranked(layer, load, s)
    ensures forall c | c in Elems(s) :: c == s[|s| - 1] || Before(layer, load, c, s[|s| - 1])
  {
  }

  lemma InsertInside(layer: map<int, int>, load: map<int, int>, x: int, init: seq<int>, last: int, r: seq<int>)
    requires Ranked(layer, load, init) && Ranked(layer, load, r) && Elems(r) == Elems(init) + {x}
    requires (forall c | c in Elems(init) :: Before(layer, load, c, last)) && Before(layer, load, x, last)
    ensures Ranked(layer, load, r + [last]) && Elems(r + [last]) == Elems(init + [last]) + {x}
  {
    RankedSnoc(layer, load, r, last);
    ElemsSnoc(r, last);
    ElemsSnoc(init, last);
  }

  lemma {:induction false} InsertRankedOk(layer: map<int, int>, load: map<int, int>, x: int, s: seq<int>)
    requires Ranked(layer, load, s) && x !in Elems(s)
    ensures var r := InsertRanked(layer, load, x, s);
            Ranked(layer, load, r) && Elems(r) == Elems(s) + {x} && |r| == |s| + 1
  {
    ElemsSnoc(s, x);
    if s == [] {
      assert s + [x] == [x];
    } else {
      var init, last := s[..|s| - 1], s[|s| - 1];
      assert s == init + [last];
      ElemsSnoc(init, last);
      if Before(layer, load, last, x) {
        RankedLast(layer, load, s);
        RankedSnoc(layer, load, s, x);
      } else {
        InsertRankedOk(layer, load, x, init);
        DistinctLast(layer, load, s);
        InsertInside(layer, load, x, init, last, InsertRanked(layer, load, x, init));
      }
    }
  }

  lemma DistinctLast(layer: map<int, int>, load: map<int, int>, s: seq<int>)
    requires s != [] && Ranked(layer, load, s)
    ensures var init := s[..|s| - 1]; forall c | c in Elems(init) :: Before(layer, load, c, s[|s| - 1])
  {
  }

  lemma {:induction false} SortedOk(layer: map<int, int>, load: map<int, int>, s: seq<int>)
    requires Distinct(s)
    ensures var r := Sorted(layer, load, s);
            Ranked(layer, load, r) && Elems(r) == Elems(s) && |r| == |s|
  {
    if s != [] {
      var init, last := s[..|s| - 1], s[|s| - 1];
      assert s == init + [last];
      ElemsSnoc(init, last);
      SortedOk(layer, load, init);
      assert last !in Elems(init);
      InsertRankedOk(layer, load, last, Sorted(layer, load, init));
    }
  }

  /** Sorting loses and adds nothing, duplicates or not. */
  lemma {:induction false} SortedElems(layer: map<int, int>, load: map<int, int>, s: seq<int>)
    ensures Elems(Sorted(layer, load, s)) == Elems(s) && |Sorted(layer, load, s)| == |s|
  {
    if s != [] {
      var init, last := s[..|s| - 1], s[|s| - 1];
      assert s == init + [last];
      ElemsSnoc(init, last);
      SortedElems(layer, load, init);
      InsertedElems(layer, load, last, Sorted(layer, load, init));
    }
  }

  lemma {:induction false} InsertedElems(layer: map<int, int>, load: map<int, int>, x: int, s: seq<int>)
    ensures var r := InsertRanked(layer, load, x, s); Elems(r) == Elems(s) + {x} && |r| == |s| + 1
  {
    ElemsSnoc(s, x);
    if s != [] && !Before(layer, load, s[|s| - 1], x) {
      var init, last := s[..|s| - 1], s[|s| - 1];
      assert s == init + [last];
      InsertedElems(layer, load, x, init);
      ElemsSnoc(init, last);
      ElemsSnoc(InsertRanked(layer, load, x, init), last);
    }
  }

  lemma RankedIsDistinct(layer: map<int, int>, load: map<int, int>, s: seq<int>)
    requires Ranked(layer, load, s)
    ensures Distinct(s)
  {
  }

  // ----- ranks inside a core, and the leaders

  /** How many threads of the core come before x by load. */
  ghost function Rank(core: set<int>, load: map<int, int>, x: int): nat { |set y | y in core && Lighter(load, y, x)| }

  lemma {:induction false} DistinctCard(s: seq<int>)
    requires Distinct(s)
    ensures |Elems(s)| == |s|
  {
    if s != [] {
      var init, last := s[..|s| - 1], s[|s| - 1];
      assert s == init + [last];
      ElemsSnoc(init, last);
      DistinctCard(init);
      assert last !in Elems(init);
    }
  }

  /** A thread's place in its sorted core is its rank. */
  lemma SortedPlace(load: map<int, int>, s: seq<int>, i: nat)
    requires Ranked(map[], load, s) && i < |s|
    ensures Rank(Elems(s), load, s[i]) == i
  {
    var front := s[..i];
    RankedIsDistinct(map[], load, s);
    DistinctCard(front);
    var lighter := set y | y in Elems(s) && Lighter(load, y, s[i]);
    forall y | y in lighter ensures y in Elems(front) {
      var k :| 0 <= k < |s| && s[k] == y;
      assert k < i;
      assert front[k] == y;
    }
    assert lighter == Elems(front);
  }

  lemma {:induction false} SubsetCard<T>(a: set<T>, b: set<T>)
    requires a <= b
    ensures |a| <= |b|
    ensures |a| == |b| ==> a == b
  {
    if a != {} {
      var x :| x in a;
      SubsetCard(a - {x}, b - {x});
    }
  }

  /** Every core has a thread that comes first by load. */
  lemma {:induction false} HasLeader(core: set<int>, load: map<int, int>) returns (c: int)
    requires core != {}
    ensures c in core && Rank(core, load, c) == 0
    decreases |core|
  {
    c :| c in core;
    var lighter := set y | y in core && Lighter(load, y, c);
    if lighter != {} {
      SubsetCard(lighter, core - {c});
      var d := HasLeader(lighter, load);
      assert (set y | y in core && Lighter(load, y, d)) == (set y | y in lighter && Lighter(load, y, d));
      c := d;
    }
  }

  lemma LeaderIsFirst(core: set<int>, load: map<int, int>, c: int, d: int)
    requires c in core && d in core && Rank(core, load, c) == 0
    ensures c == d || Lighter(load, c, d)
  {
    var lighter := set y | y in core && Lighter(load, y, c);
    assert d !in lighter;
  }

  /** The cores a set of cpus touches. */
  ghost function Touched(h: Sysfs, domain: set<int>, cpus: set<int>): set<set<int>>
    requires SiblingsOk(h, domain) && cpus <= domain
  {
    set c | c in cpus :: CoreOf(h, domain, c)
  }

  /** The threads that come first in their cores. */
  ghost function Leaders(h: Sysfs, domain: set<int>, load: map<int, int>): set<int>
    requires SiblingsOk(h, domain)
  {
    set c | c in domain && Rank(CoreOf(h, domain, c), load, c) == 0
  }

  lemma OneLeader(h: Sysfs, domain: set<int>, load: map<int, int>, c: int, d: int)
    requires SiblingsOk(h, domain) && c in Leaders(h, domain, load) && d in Leaders(h, domain, load)
    requires CoreOf(h, domain, c) == CoreOf(h, domain, d)
    ensures c == d
  {
    var core := CoreOf(h, domain, c);
    LeaderIsFirst(core, load, c, d);
    LeaderIsFirst(core, load, d, c);
  }

  ghost function Image<S, T>(a: set<S>, f: map<S, T>): set<T>
    requires a <= f.Keys
  {
    set c | c in a :: f[c]
  }

  lemma {:induction false} ImageCard<S, T>(a: set<S>, f: map<S, T>)
    requires a <= f.Keys && forall c, d | c in a && d in a && f[c] == f[d] :: c == d
    ensures |Image(a, f)| == |a|
  {
    if a != {} {
      var x :| x in a;
      ImageCard(a - {x}, f);
      assert Image(a, f) == Image(a - {x}, f) + {f[x]};
    }
  }

  lemma LeadersTouchOneEach(h: Sysfs, domain: set<int>, load: map<int, int>, some: set<int>)
    requires SiblingsOk(h, domain) && some <= Leaders(h, domain, load)
    ensures |Touched(h, domain, some)| == |some|
  {
    var f := map c | c in some :: CoreOf(h, domain, c);
    forall c, d | c in some && d in some && f[c] == f[d] ensures c == d {
      OneLeader(h, domain, load, c, d);
    }
    ImageCard(some, f);
    assert Touched(h, domain, some) == Image(some, f);
  }

  lemma LeadersTouchAll(h: Sysfs, domain: set<int>, load: map<int, int>)
    requires SiblingsOk(h, domain)
    ensures Touched(h, domain, Leaders(h, domain, load)) == Cores(h, domain)
    ensures |Leaders(h, domain, load)| == |Cores(h, domain)|
  {
    var z := Leaders(h, domain, load);
    forall core | core in Cores(h, domain) ensures core in Touched(h, domain, z) {
      var c :| c in domain && CoreOf(h, domain, c) == core;
      assert c in core;
      var d := HasLeader(core, load);
      assert CoreOf(h, domain, d) == core;
      assert d in z;
    }
    LeadersTouchOneEach(h, domain, load, z);
  }

  // ----- the pins

  function Min(a: int, b: int): int { if a < b then a else b }

  /** The reference order: rank inside the core, then load, then cpu number. */
  ghost predicate Earlier(h: Sysfs, domain: set<int>, load: map<int, int>, a: int, b: int)
    requires SiblingsOk(h, domain) && a in domain && b in domain
  {
    var (ra, rb) := (Rank(CoreOf(h, domain, a), load, a), Rank(CoreOf(h, domain, b), load, b));
    ra < rb || (ra == rb && Lighter(load, a, b))
  }

  /**
    q queues get that many threads of the domain, spread over as many cores as there are, the earliest in the order.
  */
  ghost predicate GoodPins(h: Sysfs, domain: set<int>, load: map<int, int>, q: int, pins: seq<int>)
    requires SiblingsOk(h, domain)
  {
    && Increasing(pins) && Elems(pins) <= domain && |pins| == Min(q, |domain|)
    && |Touched(h, domain, Elems(pins))| == Min(q, |Cores(h, domain)|)
    && forall p, d | p in Elems(pins) && d in domain - Elems(pins) :: Earlier(h, domain, load, p, d)
  }

  /** layer holds the ranks of the cpus listed so far, each listed once. */
  ghost predicate Layered(h: Sysfs, domain: set<int>, load: map<int, int>, layer: map<int, int>, listed: seq<int>)
    requires SiblingsOk(h, domain)
  {
    && Distinct(listed) && Elems(listed) <= domain
    && forall c | c in Elems(listed) :: c in layer && layer[c] == Rank(CoreOf(h, domain, c), load, c)
  }

  lemma BeforeIsEarlier(h: Sysfs, domain: set<int>, load: map<int, int>, layer: map<int, int>, listed: seq<int>, a: int,
                        b: int)
    requires SiblingsOk(h, domain) && Layered(h, domain, load, layer, listed) && a in Elems(listed) &&
             b in Elems(listed)
    ensures Before(layer, load, a, b) <==> Earlier(h, domain, load, a, b)
  {
  }

  /** z is a front of out, whatever its length. */
  ghost predicate IsFront(out: seq<int>, z: set<int>) {
    Distinct(out) && z <= Elems(out) && forall i, j | 0 <= i < j < |out| && out[j] in z :: out[i] in z
  }

  lemma ShortFront(out: seq<int>, z: set<int>, k: nat)
    requires IsFront(out, z) && k <= |out| && k <= |z|
    ensures Elems(out[..k]) <= z
  {
    forall p | 0 <= p < k ensures out[p] in z {
      if out[p] !in z {
        forall c | c in z ensures c in Elems(out[..p]) {
          var m :| 0 <= m < |out| && out[m] == c;
          assert out[..p][m] == c;
        }
        DistinctCard(out[..p]);
        SubsetCard(z, Elems(out[..p]));
        assert false;
      }
    }
  }

  lemma LongFront(out: seq<int>, z: set<int>, k: nat)
    requires IsFront(out, z) && |z| <= k <= |out|
    ensures z <= Elems(out[..k])
  {
    forall c | c in z ensures c in Elems(out[..k]) {
      var p :| 0 <= p < |out| && out[p] == c;
      if p >= k {
        assert forall m | 0 <= m <= p :: out[m] in z;
        DistinctCard(out[..p + 1]);
        SubsetCard(Elems(out[..p + 1]), z);
        assert false;
      }
      assert out[..k][p] == c;
    }
  }

  /** out lists the domain in the reference order. */
  ghost predicate InOrder(h: Sysfs, domain: set<int>, load: map<int, int>, out: seq<int>)
    requires SiblingsOk(h, domain)
  {
    && Distinct(out) && Elems(out) == domain
    && forall i, j | 0 <= i < j < |out| ::
         out[i] in domain && out[j] in domain && Earlier(h, domain, load, out[i], out[j])
  }

  lemma LeadersAreAFront(h: Sysfs, domain: set<int>, load: map<int, int>, out: seq<int>)
    requires SiblingsOk(h, domain) && InOrder(h, domain, load, out)
    ensures IsFront(out, Leaders(h, domain, load))
  {
  }

  lemma TouchesAll(h: Sysfs, domain: set<int>, load: map<int, int>, some: set<int>)
    requires SiblingsOk(h, domain) && Leaders(h, domain, load) <= some <= domain
    ensures Touched(h, domain, some) == Cores(h, domain)
  {
    LeadersTouchAll(h, domain, load);
    assert Touched(h, domain, Leaders(h, domain, load)) <= Touched(h, domain, some);
  }

  lemma FrontInside(out: seq<int>, k: nat)
    requires k <= |out| && Distinct(out)
    ensures Elems(out[..k]) <= Elems(out) && |Elems(out[..k])| == k
    ensures forall m | 0 <= m < k :: out[m] in Elems(out[..k])
  {
    DistinctCard(out[..k]);
    assert forall m | 0 <= m < k :: out[..k][m] == out[m];
  }

  /** The front of the ranking touches as many cores as it can. */
  lemma FrontTouches(h: Sysfs, domain: set<int>, load: map<int, int>, out: seq<int>, k: nat, front: set<int>)
    requires SiblingsOk(h, domain) && InOrder(h, domain, load, out) && k <= |out| && front == Elems(out[..k])
    ensures front <= domain && |Touched(h, domain, front)| == Min(k, |Cores(h, domain)|) &&
            |Cores(h, domain)| <= |domain|
  {
    var z := Leaders(h, domain, load);
    LeadersAreAFront(h, domain, load, out);
    LeadersTouchAll(h, domain, load);
    SubsetCard(z, domain);
    FrontInside(out, k);
    if k <= |z| {
      ShortFront(out, z, k);
      LeadersTouchOneEach(h, domain, load, front);
    } else {
      LongFront(out, z, k);
      TouchesAll(h, domain, load, front);
    }
  }

  lemma FrontIsEarliest(h: Sysfs, domain: set<int>, load: map<int, int>, out: seq<int>, k: nat, p: int, d: int)
    requires SiblingsOk(h, domain) && InOrder(h, domain, load, out) && k <= |out|
    requires p in Elems(out[..k]) && d in domain && d !in Elems(out[..k])
    ensures p in domain && Earlier(h, domain, load, p, d)
  {
    var i :| 0 <= i < k && out[..k][i] == p;
    FrontInside(out, k);
    assert d in Elems(out);
    var j :| 0 <= j < |out| && out[j] == d;
  }

  lemma PinsAreGood(h: Sysfs, domain: set<int>, load: map<int, int>, q: int, out: seq<int>, pins: seq<int>)
    requires SiblingsOk(h, domain) && InOrder(h, domain, load, out) && q >= 2
    requires Increasing(pins) && Elems(pins) == Elems(out[..Min(q, |out|)]) && |pins| == Min(q, |out|)
    ensures GoodPins(h, domain, load, q, pins)
  {
    var k := Min(q, |out|);
    DistinctCard(out);
    FrontTouches(h, domain, load, out, k, Elems(pins));
    forall p, d | p in Elems(pins) && d in domain - Elems(pins) ensures Earlier(h, domain, load, p, d) {
      FrontIsEarliest(h, domain, load, out, k, p, d);
    }
  }

  // ----- ReadTopology

  /** The online cpus inside the fence; an empty fence fences nothing. */
  function OnlineInside(h: Sysfs, fence: seq<int>): Option<set<int>> {
    match h.online
    case None => None
    case Some(s) => Some(if |fence| > 0 then s * Elems(fence) else s)
  }

  /** The domain loop terminates on the cpus it starts from. */
  ghost predicate Halts(h: Sysfs, fence: seq<int>) {
    h.hasCache && OnlineInside(h, fence).Some? ==>
      forall rest | Increasing(rest) && Elems(rest) == OnlineInside(h, fence).value :: HeadsOk(h, rest)
  }

  /** A host whose shared lists each name their own cpu is one ReadTopology ends on. */
  lemma SelfListedHalts(h: Sysfs, fence: seq<int>)
    requires OnlineInside(h, fence).Some? ==> SelfListed(h, OnlineInside(h, fence).value)
    ensures Halts(h, fence)
  {
    if h.hasCache && OnlineInside(h, fence).Some? {
      forall rest | Increasing(rest) && Elems(rest) == OnlineInside(h, fence).value ensures HeadsOk(h, rest) {
        SelfListedTerminates(h, rest);
      }
    }
  }

  /** The topology was read from this host. */
  ghost predicate Describes(h: Sysfs, t: Topo) {
    && t.domains != [] && (forall i | 0 <= i < |t.domains| :: Cpus(t.domains[i]))
    && (t.soleDomainCores.Some? <==> |t.domains| == 1)
    && (t.soleDomainCores.Some? ==>
          CoresFrom(h, t.domains[0], 0, {}).Some? &&
            Lists(t.soleDomainCores.value, CoresFrom(h, t.domains[0], 0, {}).value))
  }

  lemma {:induction false} ReadableDomains(h: Sysfs, rest: seq<int>)
    requires HeadsOk(h, rest)
    ensures (forall c | c in Elems(rest) :: Shared(h, c).Some?) ==> Domains(h, rest).Some?
    decreases |rest|
  {
    if rest != [] && Shared(h, rest[0]).Some? {
      assert rest[0] in Elems(rest);
      var sh := Shared(h, rest[0]).value;
      OutsideElems(rest, sh);
      ReadableDomains(h, Outside(rest, sh));
    }
  }

  lemma {:induction false} ReadableCores(h: Sysfs, domain: seq<int>, i: nat, seen: set<int>)
    requires i <= |domain|
    ensures (forall c | c in Elems(domain) :: Siblings(h, c).Some?) ==> CoresFrom(h, domain, i, seen).Some?
    decreases |domain| - i
  {
    if i < |domain| {
      assert domain[i] in Elems(domain);
      if domain[i] in seen {
        ReadableCores(h, domain, i + 1, seen);
      } else if Siblings(h, domain[i]).Some? {
        ReadableCores(h, domain, i + 1, seen + Siblings(h, domain[i]).value * Elems(domain));
      }
    }
  }

  lemma OneDomain(online: seq<int>)
    requires online != [] && Increasing(online)
    ensures IsPartition([online], Elems(online))
  {
    assert [online][0] == online;
    assert forall c | c in Elems(online) :: c in [online][0];
  }

  /** The domains of the loop over online. */
  method ReadDomains(host: Host, online: seq<int>) returns (r: Option<seq<seq<int>>>)
    requires HeadsOk(Decode(host), online)
    ensures r == Domains(Decode(host), online)
  {
    ghost var h := Decode(host);
    var domains: seq<seq<int>> := [];
    var rest := online;
    assert Extended([], Domains(h, online)) == Domains(h, online) by {
      assert Domains(h, online).Some? ==> [] + Domains(h, online).value == Domains(h, online).value;
    }
    while |rest| > 0
      invariant HeadsOk(h, rest)
      invariant Extended(domains, Domains(h, rest)) == Domains(h, online)
      decreases |rest|
    {
      assert rest[0] in Elems(rest);
      var file := if rest[0] in host.shared then Some(host.shared[rest[0]]) else None;
      var shared := ReadCPUList(file);
      if shared.None? {
        return None;
      }
      var sh := Elems(shared.value);
      ExtendedOnce(domains, Inside(rest, sh), Domains(h, Outside(rest, sh)));
      domains := domains + [Inside(rest, sh)];
      rest := Outside(rest, sh);
    }
    assert domains + [] == domains;
    return Some(domains);
  }

  lemma CpusSubset(all: seq<int>, some: seq<int>)
    requires Cpus(all) && Increasing(some) && Elems(some) <= Elems(all)
    ensures Cpus(some)
  {
    assert forall i | 0 <= i < |some| :: some[i] in Elems(some);
  }

  lemma DomainsAreCpus(online: seq<int>, domains: seq<seq<int>>)
    requires Cpus(online) && IsPartition(domains, Elems(online))
    ensures forall i | 0 <= i < |domains| :: Cpus(domains[i])
  {
    forall i | 0 <= i < |domains| ensures Cpus(domains[i]) {
      assert Block(domains[i], Elems(online));
      CpusSubset(online, domains[i]);
    }
  }

  /** The online cpus inside the fence, listed. */
  method FencedCpus(host: Host, fence: seq<int>) returns (r: Option<seq<int>>)
    ensures r.Some? <==> OnlineInside(Decode(host), fence).Some?
    ensures r.Some? ==> Cpus(r.value) && Elems(r.value) == OnlineInside(Decode(host), fence).value
  {
    r := ReadCPUList(host.online);
    if r.Some? {
      DenotesInRange(Split(TrimSpace(host.online.value)));
      assert forall i | 0 <= i < |r.value| :: r.value[i] in Elems(r.value);
    }
    if r.Some? && |fence| > 0 {
      InsideElems(r.value, Elems(fence));
      InsideIncreasing(r.value, Elems(fence));
      CpusSubset(r.value, Inside(r.value, Elems(fence)));
      r := Some(Inside(r.value, Elems(fence)));
    }
  }

  /** Two cpus of all share a domain exactly when they share a last-level cache. */
  ghost predicate ByCache(h: Sysfs, domains: seq<seq<int>>, all: set<int>)
    requires Consistent(h, all)
  {
    forall c, d | c in all && d in all :: Together(domains, c, d) <==> d in Shared(h, c).value
  }

  method GroupCpus(host: Host, online: seq<int>) returns (r: Option<seq<seq<int>>>)
    requires Increasing(online) && online != [] && (host.hasCache ==> HeadsOk(Decode(host), online))
    ensures r.None? ==> host.hasCache && !(forall c | c in Elems(online) :: Shared(Decode(host), c).Some?)
    ensures r.Some? ==> IsPartition(r.value, Elems(online))
    ensures r.Some? && !host.hasCache ==> r.value == [online]
    ensures r.Some? && host.hasCache && Consistent(Decode(host), Elems(online)) ==>
            ByCache(Decode(host), r.value, Elems(online))
  {
    ghost var h := Decode(host);
    if !host.hasCache {
      OneDomain(online);
      return Some([online]);
    }
    r := ReadDomains(host, online);
    if r.None? {
      ReadableDomains(h, online);
      return;
    }
    DomainsPartition(h, online);
    if Consistent(h, Elems(online)) {
      AllDomainsAreCaches(h, online);
    }
  }

  /** Every file the grouping and the core listing may read can be read. */
  ghost predicate Readable(h: Sysfs, all: set<int>) {
    forall c | c in all :: Siblings(h, c).Some? && (h.hasCache ==> Shared(h, c).Some?)
  }

  method ReadTopology(host: Host, fence: seq<int>) returns (r: Option<Topo>)
    requires Halts(Decode(host), fence)
    ensures r.Some? ==> OnlineInside(Decode(host), fence).Some? && OnlineInside(Decode(host), fence).value != {}
    ensures r.None? ==> var all := OnlineInside(Decode(host), fence);
                        all.None? || all.value == {} || !Readable(Decode(host), all.value)
    ensures r.Some? ==> IsPartition(r.value.domains, OnlineInside(Decode(host), fence).value)
    ensures r.Some? ==> Describes(Decode(host), r.value)
    ensures r.Some? && host.hasCache && Consistent(Decode(host), OnlineInside(Decode(host), fence).value) ==>
              ByCache(Decode(host), r.value.domains, OnlineInside(Decode(host), fence).value)
    ensures r.Some? && !host.hasCache ==> |r.value.domains| == 1
  {
    var online := FencedCpus(host, fence);
    if online.None? || |online.value| == 0 {
      return None;
    }
    assert online.value[0] in Elems(online.value);
    var domains := GroupCpus(host, online.value);
    if domains.None? {
      return None;
    }
    assert InSome(domains.value, online.value[0]);
    DomainsAreCpus(online.value, domains.value);
    if |domains.value| != 1 {
      return Some(Topo(domains.value, None));
    }
    var cores := CoresOf(host, domains.value[0]);
    if cores.None? {
      ReadableCores(Decode(host), domains.value[0], 0, {});
      assert Block(domains.value[0], Elems(online.value));
      return None;
    }
    return Some(Topo(domains.value, cores));
  }

  // ----- Place

  function SumLoad(cpus: seq<int>, load: map<int, int>): int {
    if cpus == [] then 0 else SumLoad(cpus[..|cpus| - 1], load) + LoadOf(load, cpus[|cpus| - 1])
  }

  /** The load adds up over concatenation; one cpu's is its own, and without negative loads no sum is negative. */
  lemma {:induction false} SumLoadAdds(a: seq<int>, b: seq<int>, load: map<int, int>)
    ensures SumLoad(a + b, load) == SumLoad(a, load) + SumLoad(b, load)
    ensures forall c :: SumLoad([c], load) == if c in load then load[c] else 0
  {
    forall c ensures SumLoad([c], load) == if c in load then load[c] else 0 {
      assert [c][..0] == [] && SumLoad([], load) == 0;
    }
    if b == [] {
      assert a + b == a;
    } else {
      SumLoadAdds(a, b[..|b| - 1], load);
      assert (a + b)[..|a + b| - 1] == a + b[..|b| - 1];
    }
  }

  lemma {:induction false} SumLoadIsNonNegative(cpus: seq<int>, load: map<int, int>)
    requires forall c | c in load :: load[c] >= 0
    ensures SumLoad(cpus, load) >= 0
  {
    if cpus != [] {
      SumLoadIsNonNegative(cpus[..|cpus| - 1], load);
    }
  }

  method SumLoadOf(cpus: seq<int>, load: map<int, int>) returns (total: int)
    ensures total == SumLoad(cpus, load)
  {
    total := 0;
    for i := 0 to |cpus|
      invariant total == SumLoad(cpus[..i], load)
    {
      assert cpus[..i + 1][..i] == cpus[..i];
      total := total + LoadOf(load, cpus[i]);
    }
    assert cpus[..|cpus|] == cpus;
  }

  /** The first of the least-loaded domains. */
  predicate LeastLoaded(domains: seq<seq<int>>, load: map<int, int>, pick: nat) {
    && pick < |domains|
    && (forall i | 0 <= i < |domains| :: SumLoad(domains[pick], load) <= SumLoad(domains[i], load))
    && (forall i | 0 <= i < pick :: SumLoad(domains[pick], load) < SumLoad(domains[i], load))
  }

  method PickDomain(domains: seq<seq<int>>, load: map<int, int>) returns (pick: nat)
    requires domains != []
    ensures LeastLoaded(domains, load, pick)
  {
    pick := 0;
    var best := SumLoadOf(domains[0], load);
    for i := 1 to |domains|
      invariant LeastLoaded(domains[..i], load, pick) && best == SumLoad(domains[pick], load)
    {
      var l := SumLoadOf(domains[i], load);
      if l < best {
        pick, best := i, l;
      }
    }
    assert domains[..|domains|] == domains;
  }

  lemma LayersDone(h: Sysfs, domain: set<int>, load: map<int, int>, layer: map<int, int>, next: map<int, int>,
                   listed: seq<int>, core: seq<int>)
    requires SiblingsOk(h, domain) && Layered(h, domain, load, layer, listed)
    requires Ranked(map[], load, core) && Elems(core) <= domain && Elems(core) !! Elems(listed)
    requires forall c | c in Elems(core) :: CoreOf(h, domain, c) == Elems(core)
    requires forall c | c in layer && c !in core :: c in next && next[c] == layer[c]
    requires forall i | 0 <= i < |core| :: core[i] in next && next[core[i]] == i
    ensures Layered(h, domain, load, next, listed + core) && Elems(listed + core) == Elems(listed) + Elems(core)
  {
    RankedIsDistinct(map[], load, core);
    var all := listed + core;
    forall i, j | 0 <= i < j < |all| ensures all[i] != all[j] {
      if i < |listed| <= j {
        assert all[i] in Elems(listed) && all[j] in Elems(core);
      }
    }
    forall i | 0 <= i < |core| ensures next[core[i]] == Rank(CoreOf(h, domain, core[i]), load, core[i]) {
      assert core[i] in Elems(core);
      SortedPlace(load, core, i);
    }
  }

  /** The layer loop over one sorted core. */
  method SetLayers(layer: map<int, int>, core: seq<int>) returns (next: map<int, int>)
    ensures forall c | c in layer && c !in core :: c in next && next[c] == layer[c]
    ensures Distinct(core) ==> forall i | 0 <= i < |core| :: core[i] in next && next[core[i]] == i
  {
    next := layer;
    for i := 0 to |core|
      invariant forall c | c in layer && c !in core :: c in next && next[c] == layer[c]
      invariant Distinct(core) ==> forall k | 0 <= k < i :: core[k] in next && next[core[k]] == k
    {
      next := next[core[i] := i];
    }
  }

  /** cores lists every core of the domain once. */
  ghost predicate AllCores(h: Sysfs, domain: set<int>, cores: seq<seq<int>>, sets: seq<set<int>>) {
    && SiblingsOk(h, domain) && Lists(cores, sets) && CoreList(h, domain, {}, sets)
    && forall c | c in domain :: Covers(sets, c)
  }

  lemma CoresAreAll(h: Sysfs, domain: seq<int>, cores: seq<seq<int>>)
    requires SiblingsOk(h, Elems(domain)) && CoresFrom(h, domain, 0, {}).Some?
    requires Lists(cores, CoresFrom(h, domain, 0, {}).value)
    ensures AllCores(h, Elems(domain), cores, CoresFrom(h, domain, 0, {}).value)
  {
    CoresPartition(h, domain, 0, {});
  }

  lemma IncreasingIsDistinct(s: seq<int>)
    requires Increasing(s)
    ensures Distinct(s)
  {
  }

  /** listed holds the first k cores, with their layers set. */
  ghost predicate ListedCores(h: Sysfs, domain: set<int>, load: map<int, int>, sets: seq<set<int>>, k: nat,
                              layer: map<int, int>, listed: seq<int>)
    requires SiblingsOk(h, domain) && k <= |sets|
  {
    && Layered(h, domain, load, layer, listed)
    && (forall c | c in Elems(listed) :: Covers(sets[..k], c))
    && (forall i | 0 <= i < k :: sets[i] <= Elems(listed))
  }

  lemma ListOneMore(h: Sysfs, domain: set<int>, load: map<int, int>, cores: seq<seq<int>>, sets: seq<set<int>>, k: nat,
                    layer: map<int, int>, next: map<int, int>, listed: seq<int>, core: seq<int>)
    requires AllCores(h, domain, cores, sets) && k < |sets| && ListedCores(h, domain, load, sets, k, layer, listed)
    requires Ranked(map[], load, core) && Elems(core) == sets[k]
    requires forall c | c in layer && c !in core :: c in next && next[c] == layer[c]
    requires forall i | 0 <= i < |core| :: core[i] in next && next[core[i]] == i
    ensures ListedCores(h, domain, load, sets, k + 1, next, listed + core)
  {
    assert forall c | c in Elems(listed) :: c !in Elems(core);
    LayersDone(h, domain, load, layer, next, listed, core);
    forall c | c in Elems(listed + core) ensures Covers(sets[..k + 1], c) {
      if c in Elems(core) {
        assert c in sets[..k + 1][k];
      } else {
        var m :| 0 <= m < |sets[..k]| && c in sets[..k][m];
        assert c in sets[..k + 1][m];
      }
    }
  }

  lemma RankingInOrder(h: Sysfs, domain: set<int>, load: map<int, int>, cores: seq<seq<int>>, sets: seq<set<int>>,
                       layer: map<int, int>, listed: seq<int>)
    requires AllCores(h, domain, cores, sets) && ListedCores(h, domain, load, sets, |sets|, layer, listed)
    ensures InOrder(h, domain, load, Sorted(layer, load, listed))
  {
    var out := Sorted(layer, load, listed);
    SortedOk(layer, load, listed);
    RankedIsDistinct(layer, load, out);
    forall c | c in domain ensures c in Elems(listed) {
      assert Covers(sets, c);
    }
    assert Elems(listed) == domain;
    forall i, j | 0 <= i < j < |out|
      ensures out[i] in domain && out[j] in domain && Earlier(h, domain, load, out[i], out[j])
    {
      assert out[i] in Elems(out) && out[j] in Elems(out);
      BeforeIsEarlier(h, domain, load, layer, listed, out[i], out[j]);
    }
  }

  /** The layered ranking of a domain's cpus. */
  method RankCpus(ghost h: Sysfs, ghost domain: set<int>, cores: seq<seq<int>>, ghost sets: seq<set<int>>,
                  load: map<int, int>)
    returns (ranked: seq<int>)
    requires Lists(cores, sets) && forall k | 0 <= k < |sets| :: sets[k] <= domain
    ensures Elems(ranked) <= domain
    ensures AllCores(h, domain, cores, sets) ==> InOrder(h, domain, load, ranked)
  {
    var layer: map<int, int> := map[];
    ranked := [];
    for k := 0 to |cores|
      invariant Elems(ranked) <= domain
      invariant AllCores(h, domain, cores, sets) ==> ListedCores(h, domain, load, sets, k, layer, ranked)
    {
      IncreasingIsDistinct(cores[k]);
      SortedOk(map[], load, cores[k]);
      var core := Sorted(map[], load, cores[k]);
      RankedIsDistinct(map[], load, core);
      var next := SetLayers(layer, core);
      if AllCores(h, domain, cores, sets) {
        ListOneMore(h, domain, load, cores, sets, k, layer, next, ranked, core);
      }
      layer := next;
      ElemsJoin(ranked, core);
      ranked := ranked + core;
    }
    if AllCores(h, domain, cores, sets) {
      RankingInOrder(h, domain, load, cores, sets, layer, ranked);
    }
    SortedElems(layer, load, ranked);
    ranked := Sorted(layer, load, ranked);
  }

  lemma ElemsJoin(a: seq<int>, b: seq<int>)
    ensures Elems(a + b) == Elems(a) + Elems(b)
  {
  }

  /** Every core is cut to its domain. */
  lemma {:induction false} CoresInside(h: Sysfs, domain: seq<int>, i: nat, seen: set<int>)
    requires i <= |domain| && CoresFrom(h, domain, i, seen).Some?
    ensures forall k | 0 <= k < |CoresFrom(h, domain, i, seen).value| ::
              CoresFrom(h, domain, i, seen).value[k] <= Elems(domain)
    decreases |domain| - i
  {
    if i < |domain| {
      if domain[i] in seen {
        CoresInside(h, domain, i + 1, seen);
      } else {
        CoresInside(h, domain, i + 1, seen + Siblings(h, domain[i]).value * Elems(domain));
      }
    }
  }

  lemma ElemsOfPrefix(s: seq<int>, k: nat)
    requires k <= |s|
    ensures Elems(s[..k]) <= Elems(s)
  {
  }

  lemma SortedByNumber(s: seq<int>)
    requires Ranked(map[], map[], s)
    ensures Increasing(s)
  {
  }

  /** a carries less load than b, or as much and has the smaller number. */
  predicate LessLoaded(load: map<int, int>, a: int, b: int) {
    var (wa, wb) := (if a in load then load[a] else 0, if b in load then load[b] else 0);
    wa < wb || (wa == wb && a < b)
  }

  /** How many threads of its core are less loaded than x. */
  ghost function Ahead(core: set<int>, load: map<int, int>, x: int): nat {
    |set y | y in core && LessLoaded(load, y, x)|
  }

  /** A chosen thread has fewer less loaded threads ahead of it in its core than any other, or as many and less load. */
  lemma PinsAreLightest(h: Sysfs, domain: set<int>, load: map<int, int>, q: int, pins: seq<int>, p: int, d: int)
    requires SiblingsOk(h, domain) && GoodPins(h, domain, load, q, pins) && p in pins && d in domain && d !in pins
    ensures Siblings(h, p).Some? && Siblings(h, d).Some?
    ensures var a := Ahead(Siblings(h, p).value * domain, load, p);
            var b := Ahead(Siblings(h, d).value * domain, load, d);
            a < b || (a == b && LessLoaded(load, p, d))
  {
    assert p in Elems(pins) && d in domain - Elems(pins);
    RankIsAhead(CoreOf(h, domain, p), load, p);
    RankIsAhead(CoreOf(h, domain, d), load, d);
  }

  lemma RankIsAhead(core: set<int>, load: map<int, int>, x: int)
    ensures Rank(core, load, x) == Ahead(core, load, x)
  {
    assert forall y | y in core :: Lighter(load, y, x) == LessLoaded(load, y, x);
    assert (set y | y in core && Lighter(load, y, x)) == set y | y in core && LessLoaded(load, y, x);
  }

  /** Place: the domain, and the pins, or None when the sibling files cannot be read. */
  method Place(host: Host, t: Topo, queues: int, load: map<int, int>)
    returns (r: Option<(seq<int>, seq<int>)>, ghost pick: nat)
    requires Describes(Decode(host), t)
    ensures LeastLoaded(t.domains, load, pick)
    ensures r.None? <==> queues >= 2 && CoresFrom(Decode(host), t.domains[pick], 0, {}).None?
    ensures r.Some? ==> r.value.0 == t.domains[pick] && (queues < 2 ==> r.value.1 == [])
    ensures r.Some? ==> Elems(r.value.1) <= Elems(r.value.0) && (queues >= 2 ==> |r.value.1| <= queues)
    ensures r.Some? && queues >= 2 && SiblingsOk(Decode(host), Elems(r.value.0)) ==>
              GoodPins(Decode(host), Elems(r.value.0), load, queues, r.value.1)
  {
    ghost var h := Decode(host);
    var p := PickDomain(t.domains, load);
    pick := p;
    var domain := t.domains[p];
    if queues < 2 {
      return Some((domain, [])), pick;
    }
    var cores := t.soleDomainCores;
    if cores.None? {
      cores := CoresOf(host, domain);
      if cores.None? {
        return None, pick;
      }
    }
    ghost var sets := CoresFrom(h, domain, 0, {}).value;
    CoresInside(h, domain, 0, {});
    var ranked := RankCpus(h, Elems(domain), cores.value, sets, load);
    var k := Min(queues, |ranked|);
    var pins := Sorted(map[], map[], ranked[..k]);
    SortedElems(map[], map[], ranked[..k]);
    ElemsOfPrefix(ranked, k);
    if SiblingsOk(h, Elems(domain)) {
      CoresAreAll(h, domain, cores.value);
      SortedOk(map[], map[], ranked[..k]);
      SortedByNumber(pins);
      PinsAreGood(h, Elems(domain), load, queues, ranked, pins);
    }
    return Some((domain, pins)), pick;
  }
}
