/**
  Image blobs under publish, pin, delete and garbage collection (images/gc.go, images/store.go and the
  two commit.go files). Any number of processes interleave; each holds per-digest file locks that a
  crash releases. A digest is numbered by the place of its lock path in the acquisition order, the OCI
  backend's paths first.
*/
module Blobs {
  import opened Common
  import opened CpuList

  /** A digest owns a blob file and, for a boot layer, files in its boot directory. */
  datatype Part = Blob | Kernel | Initrd

  datatype File = File(digest: nat, part: Part)

  // ----- the actors

  datatype Stage = Locked | Unindexed | Unpinned

  /**
    A publisher will index `need` under `ref` once it has checked every file of it; a creator will reserve a
    record with `pins` once it has found every blob of it; a collector rechecks the index, then the records,
    then removes.
  */
  datatype Role =
    | Publisher(ref: string, need: set<File>, checked: set<File>)
    | Creator(id: string, pins: set<nat>, found: set<nat>)
    | Collector(stage: Stage)

  /** todo are the locks still to take, in order. */
  datatype Actor = Actor(role: Role, todo: seq<nat>, held: set<nat>)

  datatype Sys = Sys(
    files: set<File>, index: map<string, set<File>>, records: map<string, set<nat>>,
    locks: map<nat, nat>, actors: map<nat, Actor>)

  function Init(): Sys { Sys({}, map[], map[], map[], map[]) }

  datatype Step =
    | Join(a: nat, role: Role, todo: seq<nat>)
    | TryCollect(a: nat, digest: nat)
    | Acquire(a: nat)
    | PlaceFile(a: nat, file: File)
    | CheckFile(a: nat, file: File)
    | CommitIndex(a: nat)
    | StatBlob(a: nat, digest: nat)
    | Reserve(a: nat)
    | SeeIndex(a: nat)
    | SeePins(a: nat)
    | Remove(a: nat, file: File)
    | Leave(a: nat)
    | DeleteImage(ref: string)
    | DeleteVM(id: string)

  /** ReadRefs: the digests an index entry names. */
  function Digests(files: set<File>): set<nat> { set f | f in files :: f.digest }

  predicate Referenced(s: Sys, d: nat) { exists ref | ref in s.index :: d in Digests(s.index[ref]) }

  predicate Pinned(s: Sys, d: nat) { exists id | id in s.records :: d in s.records[id] }

  /** Who runs next holds all the locks it asked for. */
  predicate Ready(s: Sys, a: nat) { a in s.actors && s.actors[a].todo == [] }

  predicate Enabled(s: Sys, st: Step) {
    match st
    case Join(a, role, todo) =>
      && a !in s.actors && Increasing(todo)
      && (match role
          case Publisher(_, need, checked) => checked == {} && Digests(need) <= Elems(todo)
          // The image resolved: its digests at that moment.
          case Creator(_, pins, found) =>
            found == {} && pins <= Elems(todo) && exists ref | ref in s.index :: pins == Digests(s.index[ref])
          case Collector(_) => false)
    case TryCollect(a, d) => a !in s.actors && d !in s.locks
    case Acquire(a) => a in s.actors && s.actors[a].todo != [] && s.actors[a].todo[0] !in s.locks
    case PlaceFile(a, f) => Ready(s, a) && s.actors[a].role.Publisher? && f.digest in s.actors[a].held
    case CheckFile(a, f) => Ready(s, a) && s.actors[a].role.Publisher? && f in s.actors[a].role.need && f in s.files
    case CommitIndex(a) =>
      Ready(s, a) && s.actors[a].role.Publisher? && s.actors[a].role.checked == s.actors[a].role.need
    case StatBlob(a, d) =>
      Ready(s, a) && s.actors[a].role.Creator? && d in s.actors[a].role.pins && File(d, Blob) in s.files
    case Reserve(a) =>
      && Ready(s, a) && s.actors[a].role.Creator? && s.actors[a].role.found == s.actors[a].role.pins
      && s.actors[a].role.id !in s.records
    case SeeIndex(a) =>
      && Ready(s, a) && s.actors[a].role == Collector(Locked)
      && forall d | d in s.actors[a].held :: !Referenced(s, d)
    case SeePins(a) =>
      && Ready(s, a) && s.actors[a].role == Collector(Unindexed)
      && forall d | d in s.actors[a].held :: !Pinned(s, d)
    case Remove(a, f) => Ready(s, a) && s.actors[a].role == Collector(Unpinned) && f.digest in s.actors[a].held
    case Leave(a) => a in s.actors
    case DeleteImage(ref) => ref in s.index
    case DeleteVM(id) => id in s.records
  }

  function WithRole(s: Sys, a: nat, role: Role): Sys
    requires a in s.actors
  {
    s.(actors := s.actors[a := s.actors[a].(role := role)])
  }

  function Apply(s: Sys, st: Step): Sys
    requires Enabled(s, st)
  {
    match st
    case Join(a, role, todo) => s.(actors := s.actors[a := Actor(role, todo, {})])
    case TryCollect(a, d) => s.(actors := s.actors[a := Actor(Collector(Locked), [], {d})], locks := s.locks[d := a])
    case Acquire(a) =>
      var x := s.actors[a];
      s.(actors := s.actors[a := Actor(x.role, x.todo[1..], x.held + {x.todo[0]})], locks := s.locks[x.todo[0] := a])
    case PlaceFile(_, f) => s.(files := s.files + {f})
    case CheckFile(a, f) =>
      var r := s.actors[a].role;
      WithRole(s, a, r.(checked := r.checked + {f}))
    case CommitIndex(a) => s.(index := s.index[s.actors[a].role.ref := s.actors[a].role.need])
    case StatBlob(a, d) =>
      var r := s.actors[a].role;
      WithRole(s, a, r.(found := r.found + {d}))
    case Reserve(a) => s.(records := s.records[s.actors[a].role.id := s.actors[a].role.pins])
    case SeeIndex(a) => WithRole(s, a, Collector(Unindexed))
    case SeePins(a) => WithRole(s, a, Collector(Unpinned))
    case Remove(_, f) => s.(files := s.files - {f})
    case Leave(a) => s.(actors := s.actors - {a}, locks := map d | d in s.locks && s.locks[d] != a :: s.locks[d])
    case DeleteImage(ref) => s.(index := s.index - {ref})
    case DeleteVM(id) => s.(records := s.records - {id})
  }

  predicate Legal(s: Sys, run: seq<Step>)
    decreases |run|
  {
    run != [] ==> Enabled(s, run[0]) && Legal(Apply(s, run[0]), run[1..])
  }

  function After(s: Sys, run: seq<Step>): Sys
    requires Legal(s, run)
    decreases |run|
  {
    if run == [] then s else After(Apply(s, run[0]), run[1..])
  }

  // ----- the invariant

  /** The lock table and the actors agree on who holds what. */
  predicate LocksOk(s: Sys) {
    && (forall a | a in s.actors :: forall d | d in s.actors[a].held :: d in s.locks && s.locks[d] == a)
    && (forall d | d in s.locks :: s.locks[d] in s.actors && d in s.actors[s.locks[d]].held)
  }

  /** What an actor still wants lies above all it holds. */
  predicate Ordered(x: Actor) {
    Increasing(x.todo) && forall d, i | d in x.held && 0 <= i < |x.todo| :: d < x.todo[i]
  }

  predicate OrderOk(s: Sys) { forall a | a in s.actors :: Ordered(s.actors[a]) }

  /** What the actor relies on while it holds its locks. */
  predicate RoleOk(s: Sys, x: Actor) {
    match x.role
    case Publisher(_, need, checked) =>
      && Digests(need) <= x.held + Elems(x.todo) && checked <= need && checked <= s.files
      && (checked != {} ==> x.todo == [])
    case Creator(_, pins, found) =>
      && pins <= x.held + Elems(x.todo) && found <= pins && (forall d | d in found :: File(d, Blob) in s.files)
      && (found != {} ==> x.todo == [])
    case Collector(stage) =>
      && x.todo == []
      && (stage != Locked ==> forall d | d in x.held :: !Referenced(s, d))
      && (stage == Unpinned ==> forall d | d in x.held :: !Pinned(s, d))
  }

  predicate RolesOk(s: Sys) { forall a | a in s.actors :: RoleOk(s, s.actors[a]) }

  /** Every file an index entry names and every blob a record pins is on disk. */
  predicate Safe(s: Sys) {
    && (forall ref | ref in s.index :: s.index[ref] <= s.files)
    && (forall id | id in s.records :: forall d | d in s.records[id] :: File(d, Blob) in s.files)
  }

  predicate Inv(s: Sys) { LocksOk(s) && OrderOk(s) && RolesOk(s) && Safe(s) }

  /** Two actors never hold one lock. */
  lemma HeldApart(s: Sys, a: nat, b: nat)
    requires LocksOk(s) && a in s.actors && b in s.actors && a != b
    ensures s.actors[a].held !! s.actors[b].held
  {
  }

  /** An actor that has all its locks holds the digests it works on. */
  lemma ReadyHolds(s: Sys, a: nat)
    requires Inv(s) && Ready(s, a)
    ensures s.actors[a].role.Publisher? ==> Digests(s.actors[a].role.need) <= s.actors[a].held
    ensures s.actors[a].role.Creator? ==> s.actors[a].role.pins <= s.actors[a].held
  {
    assert RoleOk(s, s.actors[a]);
  }

  lemma NextLock(x: Actor, y: Actor)
    requires Ordered(x) && x.todo != [] && y == Actor(x.role, x.todo[1..], x.held + {x.todo[0]})
    ensures Ordered(y) && y.held + Elems(y.todo) == x.held + Elems(x.todo)
  {
    assert x.todo == [x.todo[0]] + y.todo;
    assert Elems(x.todo) == {x.todo[0]} + Elems(y.todo);
  }

  lemma AcquireKeepsInv(s: Sys, a: nat)
    requires Inv(s) && Enabled(s, Acquire(a))
    ensures Inv(Apply(s, Acquire(a)))
  {
    var t, x := Apply(s, Acquire(a)), s.actors[a];
    NextLock(x, t.actors[a]);
    SameStore(s, t);
    assert RoleOk(s, x) && RoleOk(s, t.actors[a]);
    assert forall b | b in s.actors && b != a :: t.actors[b] == s.actors[b] && RoleOk(s, s.actors[b]);
  }

  /** Roles look only at the store. */
  lemma SameStore(s: Sys, t: Sys)
    requires t.files == s.files && t.index == s.index && t.records == s.records
    ensures forall x :: RoleOk(s, x) <==> RoleOk(t, x)
    ensures Safe(s) <==> Safe(t)
  {
    assert forall d :: Referenced(s, d) <==> Referenced(t, d);
    assert forall d :: Pinned(s, d) <==> Pinned(t, d);
  }

  /** Roles survive when files only grow and references only shrink. */
  lemma KinderStore(s: Sys, t: Sys)
    requires s.files <= t.files
    requires forall ref | ref in t.index :: ref in s.index && t.index[ref] == s.index[ref]
    requires forall id | id in t.records :: id in s.records && t.records[id] == s.records[id]
    ensures forall x :: RoleOk(s, x) ==> RoleOk(t, x)
    ensures Safe(s) ==> Safe(t)
  {
    assert forall d | Referenced(t, d) :: Referenced(s, d);
    assert forall d | Pinned(t, d) :: Pinned(s, d);
  }

  lemma JoinKeepsInv(s: Sys, st: Step)
    requires Inv(s) && Enabled(s, st) && st.Join?
    ensures Inv(Apply(s, st))
  {
    var t := Apply(s, st);
    SameStore(s, t);
    assert RoleOk(s, t.actors[st.a]) && Ordered(t.actors[st.a]);
    assert forall b | b in s.actors :: t.actors[b] == s.actors[b] && RoleOk(s, s.actors[b]);
  }

  lemma TryCollectKeepsInv(s: Sys, st: Step)
    requires Inv(s) && Enabled(s, st) && st.TryCollect?
    ensures Inv(Apply(s, st))
  {
    var t := Apply(s, st);
    SameStore(s, t);
    assert RoleOk(s, t.actors[st.a]) && Ordered(t.actors[st.a]);
    assert forall b | b in s.actors :: t.actors[b] == s.actors[b] && RoleOk(s, s.actors[b]);
  }

  lemma LeaveKeepsInv(s: Sys, st: Step)
    requires Inv(s) && Enabled(s, st) && st.Leave?
    ensures Inv(Apply(s, st))
  {
    var t := Apply(s, st);
    SameStore(s, t);
    assert forall b | b in t.actors :: t.actors[b] == s.actors[b] && RoleOk(s, s.actors[b]);
  }

  lemma DigestsHas(files: set<File>, f: File)
    ensures f in files ==> f.digest in Digests(files)
  {
  }

  lemma StoreKeepsInv(s: Sys, st: Step)
    requires Inv(s) && Enabled(s, st) && (st.PlaceFile? || st.DeleteImage? || st.DeleteVM?)
    ensures Inv(Apply(s, st))
  {
    KinderStore(s, Apply(s, st));
  }

  lemma RoleKeepsInv(s: Sys, a: nat, role: Role)
    requires Inv(s) && a in s.actors && RoleOk(s, s.actors[a].(role := role))
    ensures Inv(WithRole(s, a, role))
  {
    var t := WithRole(s, a, role);
    SameStore(s, t);
    assert Ordered(s.actors[a]);
    assert forall b | b in s.actors && b != a :: t.actors[b] == s.actors[b] && RoleOk(s, s.actors[b]);
  }

  lemma NoteKeepsInv(s: Sys, st: Step)
    requires Inv(s) && Enabled(s, st) && (st.CheckFile? || st.StatBlob? || st.SeeIndex? || st.SeePins?)
    ensures Inv(Apply(s, st))
  {
    var x := s.actors[st.a];
    assert RoleOk(s, x);
    var role :=
      match st
      case CheckFile(_, f) => x.role.(checked := x.role.checked + {f})
      case StatBlob(_, d) => x.role.(found := x.role.found + {d})
      case SeeIndex(_) => Collector(Unindexed)
      case _ => Collector(Unpinned);
    RoleKeepsInv(s, st.a, role);
  }

  /** An index commit names only digests the publisher holds, so no collector has passed its recheck for them. */
  lemma CommitKeepsInv(s: Sys, a: nat)
    requires Inv(s) && Enabled(s, CommitIndex(a))
    ensures Inv(Apply(s, CommitIndex(a)))
  {
    var t := Apply(s, CommitIndex(a));
    ReadyHolds(s, a);
    assert RoleOk(s, s.actors[a]);
    forall b | b in t.actors ensures RoleOk(t, t.actors[b]) {
      assert RoleOk(s, s.actors[b]);
      if b != a {
        HeldApart(s, a, b);
        assert forall d | d in s.actors[b].held && Referenced(t, d) :: Referenced(s, d);
      }
      assert forall d | Pinned(t, d) :: Pinned(s, d);
    }
  }

  /** A record is reserved only over digests its creator holds. */
  lemma ReserveKeepsInv(s: Sys, a: nat)
    requires Inv(s) && Enabled(s, Reserve(a))
    ensures Inv(Apply(s, Reserve(a)))
  {
    var t := Apply(s, Reserve(a));
    ReadyHolds(s, a);
    assert RoleOk(s, s.actors[a]);
    forall b | b in t.actors ensures RoleOk(t, t.actors[b]) {
      assert RoleOk(s, s.actors[b]);
      if b != a {
        HeldApart(s, a, b);
        assert forall d | d in s.actors[b].held && Pinned(t, d) :: Pinned(s, d);
      }
      assert forall d | Referenced(t, d) :: Referenced(s, d);
    }
  }

  /** The collector removes only files of a digest nobody names, pins or is checking. */
  lemma RemoveKeepsInv(s: Sys, a: nat, f: File)
    requires Inv(s) && Enabled(s, Remove(a, f))
    ensures Inv(Apply(s, Remove(a, f)))
  {
    var t := Apply(s, Remove(a, f));
    assert RoleOk(s, s.actors[a]);
    assert !Referenced(s, f.digest) && !Pinned(s, f.digest);
    forall ref | ref in s.index ensures f !in s.index[ref] {
      DigestsHas(s.index[ref], f);
      assert f.digest !in Digests(s.index[ref]);
    }
    forall b | b in t.actors ensures RoleOk(t, t.actors[b]) {
      assert RoleOk(s, s.actors[b]);
      if b != a {
        HeldApart(s, a, b);
        if Ready(s, b) {
          ReadyHolds(s, b);
          if s.actors[b].role.Publisher? {
            DigestsHas(s.actors[b].role.need, f);
          }
        }
      }
      assert forall d | Referenced(t, d) :: Referenced(s, d);
      assert forall d | Pinned(t, d) :: Pinned(s, d);
    }
  }

  lemma StepKeepsInv(s: Sys, st: Step)
    requires Inv(s) && Enabled(s, st)
    ensures Inv(Apply(s, st))
  {
    match st
    case Join(_, _, _) => JoinKeepsInv(s, st);
    case TryCollect(_, _) => TryCollectKeepsInv(s, st);
    case Leave(_) => LeaveKeepsInv(s, st);
    case Acquire(a) => AcquireKeepsInv(s, a);
    case PlaceFile(_, _) => StoreKeepsInv(s, st);
    case DeleteImage(_) => StoreKeepsInv(s, st);
    case DeleteVM(_) => StoreKeepsInv(s, st);
    case CheckFile(_, _) => NoteKeepsInv(s, st);
    case StatBlob(_, _) => NoteKeepsInv(s, st);
    case SeeIndex(_) => NoteKeepsInv(s, st);
    case SeePins(_) => NoteKeepsInv(s, st);
    case CommitIndex(a) => CommitKeepsInv(s, a);
    case Reserve(a) => ReserveKeepsInv(s, a);
    case Remove(a, f) => RemoveKeepsInv(s, a, f);
  }

  lemma {:induction false} RunKeepsInv(s: Sys, run: seq<Step>)
    requires Inv(s) && Legal(s, run)
    ensures Inv(After(s, run))
    decreases |run|
  {
    if run != [] {
      StepKeepsInv(s, run[0]);
      RunKeepsInv(Apply(s, run[0]), run[1..]);
    }
  }

  /** Over every run no file a committed index entry names and no blob a reserved record pins is missing from disk. */
  lemma BlobSafety(run: seq<Step>)
    requires Legal(Init(), run)
    ensures Safe(After(Init(), run))
  {
    RunKeepsInv(Init(), run);
  }

  // ----- no cyclic wait

  /** a is blocked in Lock on a digest that b holds. */
  predicate WaitsFor(s: Sys, a: nat, b: nat) {
    && a in s.actors && s.actors[a].todo != []
    && s.actors[a].todo[0] in s.locks && s.locks[s.actors[a].todo[0]] == b
  }

  ghost predicate Waiting(s: Sys, a: nat) { exists b :: WaitsFor(s, a, b) }

  /** The digest a wants next. */
  function Wants(s: Sys, a: nat): nat
    requires a in s.actors && s.actors[a].todo != []
  {
    s.actors[a].todo[0]
  }

  ghost predicate WaitChain(s: Sys, chain: seq<nat>) {
    forall i | 0 < i < |chain| :: WaitsFor(s, chain[i - 1], chain[i])
  }

  lemma WaitClimbs(s: Sys, a: nat, b: nat)
    requires Inv(s) && WaitsFor(s, a, b) && b in s.actors && s.actors[b].todo != []
    ensures Wants(s, a) < Wants(s, b)
  {
    assert Ordered(s.actors[b]);
  }

  lemma {:induction false} ChainClimbs(s: Sys, chain: seq<nat>)
    requires Inv(s) && WaitChain(s, chain) && |chain| >= 2
    requires Waiting(s, chain[|chain| - 1])
    ensures chain[0] in s.actors && s.actors[chain[0]].todo != [] && Wants(s, chain[0]) < Wants(s, chain[|chain| - 1])
  {
    var n := |chain| - 1;
    assert WaitsFor(s, chain[n - 1], chain[n]);
    WaitClimbs(s, chain[n - 1], chain[n]);
    if n > 1 {
      var front := chain[..n];
      assert forall i | 0 < i < |front| :: WaitsFor(s, front[i - 1], front[i]);
      assert Waiting(s, front[n - 1]);
      ChainClimbs(s, front);
    }
  }

  /** In every reachable state no actor waits, through however many others, for itself. */
  lemma NoCyclicWait(run: seq<Step>, chain: seq<nat>)
    requires Legal(Init(), run) && |chain| >= 2 && WaitChain(After(Init(), run), chain)
    ensures chain[0] != chain[|chain| - 1]
  {
    var s := After(Init(), run);
    RunKeepsInv(Init(), run);
    assert WaitsFor(s, chain[0], chain[1]);
    if chain[0] == chain[|chain| - 1] {
      ChainClimbs(s, chain);
    }
  }

  /** Among waiting actors, the one wanting the highest digest. */
  lemma {:induction false} HighestWaiter(s: Sys, waiters: set<nat>) returns (a: nat)
    requires waiters != {} && forall b | b in waiters :: b in s.actors && s.actors[b].todo != []
    ensures a in waiters && forall b | b in waiters :: Wants(s, b) <= Wants(s, a)
    decreases |waiters|
  {
    a :| a in waiters;
    var rest := waiters - {a};
    if rest != {} {
      var c := HighestWaiter(s, rest);
      if Wants(s, a) < Wants(s, c) {
        a := c;
      }
    }
  }

  /** If anyone waits in a reachable state, some actor holding a wanted lock does not wait and can run on. */
  lemma SomeoneRuns(run: seq<Step>, a: nat) returns (b: nat, c: nat)
    requires Legal(Init(), run) && Waiting(After(Init(), run), a)
    ensures var s := After(Init(), run);
            WaitsFor(s, b, c) && c in s.actors && !Waiting(s, c) && (Enabled(s, Acquire(c)) || Ready(s, c))
  {
    var s := After(Init(), run);
    RunKeepsInv(Init(), run);
    var waiters := set x | x in s.actors && Waiting(s, x);
    assert a in waiters;
    b := HighestWaiter(s, waiters);
    c :| WaitsFor(s, b, c);
    if Waiting(s, c) {
      WaitClimbs(s, b, c);
    }
    if s.actors[c].todo != [] && !Enabled(s, Acquire(c)) {
      assert WaitsFor(s, c, s.locks[s.actors[c].todo[0]]);
    }
  }

  // ----- the other files of a pinned digest

  predicate Kept(id: string, run: seq<Step>) { forall i | 0 <= i < |run| :: run[i] != DeleteVM(id) }

  lemma PinnedFileStays(s: Sys, st: Step, id: string, f: File)
    requires Inv(s) && Enabled(s, st) && id in s.records && f.digest in s.records[id] && f in s.files &&
             st != DeleteVM(id)
    ensures var t := Apply(s, st); id in t.records && t.records[id] == s.records[id] && f in t.files
  {
    if st.Remove? {
      assert RoleOk(s, s.actors[st.a]);
      assert Pinned(s, f.digest);
    }
  }

  lemma {:induction false} PinnedFilesStay(s: Sys, run: seq<Step>, id: string, f: File)
    requires Inv(s) && Legal(s, run) && Kept(id, run) && id in s.records && f.digest in s.records[id] && f in s.files
    ensures f in After(s, run).files
    decreases |run|
  {
    if run != [] {
      assert run[0] != DeleteVM(id);
      PinnedFileStays(s, run[0], id, f);
      StepKeepsInv(s, run[0]);
      assert Kept(id, run[1..]) by { assert forall i | 0 <= i < |run| - 1 :: run[1..][i] == run[i + 1]; }
      PinnedFilesStay(Apply(s, run[0]), run[1..], id, f);
    }
  }

  /**
    PinBlobs looks at the blob file alone. A file of a pinned digest, such as its kernel, is on disk for as long as
    the record exists exactly when it is there as the record is reserved.
  */
  lemma PinnedFileExactly(before: seq<Step>, id: string, f: File)
    requires Legal(Init(), before)
    requires var s := After(Init(), before); id in s.records && f.digest in s.records[id]
    ensures var s := After(Init(), before);
            (forall run | Legal(s, run) && Kept(id, run) :: f in After(s, run).files) <==> f in s.files
  {
    var s := After(Init(), before);
    RunKeepsInv(Init(), before);
    if f in s.files {
      forall run | Legal(s, run) && Kept(id, run) ensures f in After(s, run).files {
        PinnedFilesStay(s, run, id, f);
      }
    } else {
      var none: seq<Step> := [];
      assert Legal(s, none) && Kept(id, none) && After(s, none) == s;
    }
  }

  // ----- a reserved record without its kernel

  ghost predicate Reached(s: Sys) { exists run :: Legal(Init(), run) && After(Init(), run) == s }

  lemma {:induction false} AfterSnoc(s: Sys, run: seq<Step>, st: Step)
    requires Legal(s, run) && Enabled(After(s, run), st)
    ensures Legal(s, run + [st]) && After(s, run + [st]) == Apply(After(s, run), st)
    decreases |run|
  {
    if run == [] {
      assert run + [st] == [st] && [st][1..] == [];
    } else {
      AfterSnoc(Apply(s, run[0]), run[1..], st);
      assert (run + [st])[1..] == run[1..] + [st];
    }
  }

  lemma Go(s: Sys, st: Step) returns (t: Sys)
    requires Reached(s) && Enabled(s, st)
    ensures t == Apply(s, st) && Reached(t)
  {
    var run :| Legal(Init(), run) && After(Init(), run) == s;
    AfterSnoc(Init(), run, st);
    t := Apply(s, st);
  }

  const LAYER := {File(0, Blob), File(0, Kernel)}

  const CREATE := Actor(Creator("vm", {0}, {}), [0], {})

  /** A publisher at work on the layer, holding its lock. */
  predicate Publishing(s: Sys, files: set<File>, checked: set<File>) {
    && s.files == files && s.index == map[] && s.records == map[]
    && s.locks == map[0 := 1] && s.actors == map[1 := Actor(Publisher("img", LAYER, checked), [], {0})]
  }

  lemma PublishPlaces() returns (s: Sys)
    ensures Reached(s) && Publishing(s, LAYER, {})
  {
    s := Init();
    assert Legal(s, []) && After(s, []) == s;
    s := Go(s, Join(1, Publisher("img", LAYER, {}), [0]));
    s := Go(s, Acquire(1));
    assert s.actors[1] == Actor(Publisher("img", LAYER, {}), [], {0});
    assert Publishing(s, {}, {});
    s := Go(s, PlaceFile(1, File(0, Blob)));
    s := Go(s, PlaceFile(1, File(0, Kernel)));
  }

  lemma PublishChecks(s: Sys) returns (t: Sys)
    requires Reached(s) && Publishing(s, LAYER, {})
    ensures Reached(t) && Publishing(t, LAYER, LAYER)
  {
    t := Go(s, CheckFile(1, File(0, Blob)));
    assert t.actors[1].role.checked == {File(0, Blob)};
    t := Go(t, CheckFile(1, File(0, Kernel)));
    assert t.actors[1].role.checked == LAYER;
  }

  predicate Published(s: Sys) {
    s.files == LAYER && s.index == map["img" := LAYER] && s.records == map[] && s.locks == map[] && s.actors == map[]
  }

  lemma PublishCommits(s: Sys) returns (t: Sys)
    requires Reached(s) && Publishing(s, LAYER, LAYER)
    ensures Reached(t) && Published(t)
  {
    t := Go(s, CommitIndex(1));
    t := Go(t, Leave(1));
  }

  /** A create has resolved the image, which was then deleted, and a collector has the layer. */
  predicate Collecting(s: Sys, files: set<File>, stage: Stage) {
    && s.files == files && s.index == map[] && s.records == map[]
    && s.locks == map[0 := 3] && s.actors == map[2 := CREATE, 3 := Actor(Collector(stage), [], {0})]
  }

  lemma ResolveAndDelete(s: Sys) returns (t: Sys)
    requires Reached(s) && Published(s)
    ensures Reached(t) && Collecting(t, LAYER, Locked)
  {
    assert Digests(s.index["img"]) == {0} by { assert File(0, Blob) in LAYER; }
    t := Go(s, Join(2, Creator("vm", {0}, {}), [0]));
    t := Go(t, DeleteImage("img"));
    t := Go(t, TryCollect(3, 0));
  }

  lemma Recheck(s: Sys) returns (t: Sys)
    requires Reached(s) && Collecting(s, LAYER, Locked)
    ensures Reached(t) && Collecting(t, LAYER, Unpinned)
  {
    t := Go(s, SeeIndex(3));
    assert Collecting(t, LAYER, Unindexed);
    t := Go(t, SeePins(3));
  }

  /** Removing the blob fails, removing the boot files does not. */
  lemma CollectHalf(s: Sys) returns (t: Sys)
    requires Reached(s) && Collecting(s, LAYER, Unpinned)
    ensures Reached(t) && t.files == {File(0, Blob)} && t.records == map[] && t.locks == map[] &&
            t.actors == map[2 := CREATE]
  {
    t := Go(s, Remove(3, File(0, Kernel)));
    t := Go(t, Leave(3));
  }

  /** The create then finds the blob and reserves a record whose kernel is gone. */
  lemma KernelCanBeMissing() returns (s: Sys)
    ensures Reached(s) && "vm" in s.records && 0 in s.records["vm"] && File(0, Kernel) !in s.files
  {
    s := PublishPlaces();
    s := PublishChecks(s);
    s := PublishCommits(s);
    s := ResolveAndDelete(s);
    s := Recheck(s);
    s := CollectHalf(s);
    s := Go(s, Acquire(2));
    s := Go(s, StatBlob(2, 0));
    s := Go(s, Reserve(2));
  }

  // ----- BlobLocks, applyDiff and buildEntry

  class BlobLocks {
    var held: seq<int>

    constructor ()
      ensures held == []
    {
      held := [];
    }

    /** Takes every path in sorted order; broken are the paths that cannot be locked at all. */
    method Lock(paths: seq<int>, broken: set<int>) returns (ok: bool)
      requires held == []
      modifies this
      ensures ok <==> Elems(paths) !! broken
      ensures ok ==> Increasing(held) && Elems(held) == Elems(paths)
      ensures !ok ==> held == []
    {
      var sorted := SortCompact(paths);
      SortCompactOk(paths);
      for i := 0 to |sorted|
        invariant held == sorted[..i]
        invariant forall k | 0 <= k < i :: sorted[k] !in broken
      {
        if sorted[i] in broken {
          assert sorted[i] in Elems(sorted);
          Release();
          return false;
        }
        held := held + [sorted[i]];
      }
      assert sorted[..|sorted|] == sorted;
      assert forall c | c in Elems(sorted) :: c !in broken;
      ok := true;
    }

    method Release()
      modifies this
      ensures held == []
    {
      held := [];
    }
  }

  /** The raw writes of one index update, in no particular order. */
  datatype Diff = Diff(deleted: set<string>, put: map<string, string>)

  /** The table with the ids outside images gone, except those still to be looked at. */
  ghost function Trimmed(before: map<string, string>, images: map<string, string>, ids: set<string>)
    : map<string, string>
  {
    map id | id in before && (id in ids || id in images) :: before[id]
  }

  /** The table with the entries of images written, except those still to be looked at. */
  ghost function Filled(before: map<string, string>, images: map<string, string>, todo: set<string>)
    : map<string, string>
  {
    map id | id in images && (id !in todo || id in before) :: if id in todo then before[id] else images[id]
  }

  ghost function Changed(before: map<string, string>, images: map<string, string>, todo: set<string>)
    : map<string, string>
  {
    map id | id in images && id !in todo && !(id in before && before[id] == images[id]) :: images[id]
  }

  lemma FilledNext(before: map<string, string>, images: map<string, string>, todo: set<string>, id: string)
    requires id in todo && todo <= images.Keys
    ensures var same := id in before && before[id] == images[id];
            && Filled(before, images, todo - {id}) ==
               (if same then Filled(before, images, todo) else Filled(before, images, todo)[id := images[id]])
            && Changed(before, images, todo - {id}) ==
               (if same then Changed(before, images, todo) else Changed(before, images, todo)[id := images[id]])
  {
  }

  method DeleteGone(before: map<string, string>, images: map<string, string>)
    returns (table: map<string, string>, deleted: set<string>)
    ensures table == Trimmed(before, images, {}) && deleted == before.Keys - images.Keys
  {
    table, deleted := before, {};
    var ids := before.Keys;
    while ids != {}
      invariant ids <= before.Keys && deleted == before.Keys - ids - images.Keys
      invariant table == Trimmed(before, images, ids)
      decreases ids
    {
      var id :| id in ids;
      ids := ids - {id};
      if id !in images {
        table := table - {id};
        deleted := deleted + {id};
      }
    }
  }

  /**
    applyDiff over encoded entries: writing back only the differences leaves exactly the new index, and touches
    exactly the entries that changed.
  */
  method ApplyDiff(before: map<string, string>, images: map<string, string>)
    returns (table: map<string, string>, diff: Diff)
    ensures table == images
    ensures diff.deleted == before.Keys - images.Keys
    ensures diff.put == map id | id in images && !(id in before && before[id] == images[id]) :: images[id]
  {
    var deleted;
    table, deleted := DeleteGone(before, images);
    var put: map<string, string> := map[];
    var todo := images.Keys;
    assert table == Filled(before, images, todo);
    assert put == Changed(before, images, todo);
    while todo != {}
      invariant todo <= images.Keys
      invariant table == Filled(before, images, todo)
      invariant put == Changed(before, images, todo)
      decreases todo
    {
      var id :| id in todo;
      FilledNext(before, images, todo, id);
      todo := todo - {id};
      if id in before && before[id] == images[id] {
        continue;
      }
      table := table[id := images[id]];
      put := put[id := images[id]];
    }
    diff := Diff(deleted, put);
  }

  /** Deleting a VM takes its pins away and nothing else; deleting an image its entry and nothing else. */
  lemma DeletesTell(s: Sys, id: string, ref: string)
    requires Enabled(s, DeleteVM(id)) && Enabled(s, DeleteImage(ref))
    ensures var t := Apply(s, DeleteVM(id));
            id !in t.records && t == s.(records := t.records) && forall x | x in s.records && x != id ::
              x in t.records && t.records[x] == s.records[x]
    ensures var t := Apply(s, DeleteImage(ref));
            ref !in t.index && t == s.(index := t.index) && forall x | x in s.index && x != ref ::
              x in t.index && t.index[x] == s.index[x]
  {
  }

  /** One pulled layer: its digest and whether it carries the boot files. */
  datatype Layer = Layer(digest: nat, kernel: bool, initrd: bool)

  function LastWith(layers: seq<Layer>, kernel: bool): Option<nat> {
    if layers == [] then None
    else
      var l := layers[|layers| - 1];
      if (if kernel then l.kernel else l.initrd) then Some(l.digest) else LastWith(layers[..|layers| - 1], kernel)
  }

  predicate Carries(l: Layer, kernel: bool) { if kernel then l.kernel else l.initrd }

  /** The boot layer is the last one that carries the file; there is none exactly when no layer does. */
  lemma {:induction false} LastWithTells(layers: seq<Layer>, kernel: bool)
    ensures LastWith(layers, kernel).None? <==> forall i | 0 <= i < |layers| :: !Carries(layers[i], kernel)
    ensures forall i | 0 <= i < |layers| && Carries(layers[i], kernel)
                       && (forall j | i < j < |layers| :: !Carries(layers[j], kernel)) ::
              LastWith(layers, kernel) == Some(layers[i].digest)
  {
    if layers != [] {
      var init := layers[..|layers| - 1];
      LastWithTells(init, kernel);
      assert forall i | 0 <= i < |init| :: init[i] == layers[i];
      forall i | 0 <= i < |layers| && Carries(layers[i], kernel)
                 && (forall j | i < j < |layers| :: !Carries(layers[j], kernel))
        ensures LastWith(layers, kernel) == Some(layers[i].digest)
      {
        if i < |init| {
          assert !Carries(layers[|layers| - 1], kernel);
          assert forall j | i < j < |init| :: !Carries(init[j], kernel);
        }
      }
    }
  }

  /** The files an OCI entry over these layers names. */
  function Needs(layers: seq<Layer>, kernel: nat, initrd: nat): set<File> {
    (set l | l in layers :: File(l.digest, Blob)) + {File(kernel, Kernel), File(initrd, Initrd)}
  }

  /** buildEntry: the last layer with a kernel and the last with an initrd, and every named file on disk. */
  method BuildEntry(layers: seq<Layer>, files: set<File>) returns (need: Option<set<File>>)
    ensures need.Some? <==>
              && LastWith(layers, true).Some? && LastWith(layers, false).Some?
              && Needs(layers, LastWith(layers, true).value, LastWith(layers, false).value) <= files
    ensures need.Some? ==> need.value == Needs(layers, LastWith(layers, true).value, LastWith(layers, false).value)
    ensures need.Some? ==> Digests(need.value) == set l | l in layers :: l.digest
    ensures need.Some? ==>
              forall i | 0 <= i < |layers| && layers[i].kernel && (forall j | i < j < |layers| :: !layers[j].kernel) ::
                File(layers[i].digest, Kernel) in need.value
    ensures need.Some? ==>
              forall i | 0 <= i < |layers| && layers[i].initrd && (forall j | i < j < |layers| :: !layers[j].initrd) ::
                File(layers[i].digest, Initrd) in need.value
    ensures need.Some? ==> exists i | 0 <= i < |layers| :: layers[i].kernel
    ensures need.Some? ==> exists i | 0 <= i < |layers| :: layers[i].initrd
  {
    var kernel, initrd: Option<nat> := None, None;
    for i := 0 to |layers|
      invariant kernel == LastWith(layers[..i], true) && initrd == LastWith(layers[..i], false)
    {
      assert layers[..i + 1][..i] == layers[..i];
      if layers[i].kernel {
        kernel := Some(layers[i].digest);
      }
      if layers[i].initrd {
        initrd := Some(layers[i].digest);
      }
    }
    assert layers[..|layers|] == layers;
    if kernel.None? || initrd.None? {
      return None;
    }
    var want: set<File> := {};
    for i := 0 to |layers|
      invariant want == set l | l in layers[..i] :: File(l.digest, Blob)
      invariant want <= files
    {
      var f := File(layers[i].digest, Blob);
      if f !in files {
        assert f in Needs(layers, kernel.value, initrd.value);
        return None;
      }
      want := want + {f};
    }
    if File(kernel.value, Kernel) !in files || File(initrd.value, Initrd) !in files {
      return None;
    }
    want := want + {File(kernel.value, Kernel), File(initrd.value, Initrd)};
    BootLayerIsListed(layers, true);
    BootLayerIsListed(layers, false);
    need := Some(want);
    BootLayersTell(layers);
    DigestsOfNeeds(layers, kernel.value, initrd.value);
  }

  lemma BootLayersTell(layers: seq<Layer>)
    requires LastWith(layers, true).Some? && LastWith(layers, false).Some?
    ensures forall i | 0 <= i < |layers| && layers[i].kernel && (forall j | i < j < |layers| :: !layers[j].kernel) ::
              LastWith(layers, true) == Some(layers[i].digest)
    ensures forall i | 0 <= i < |layers| && layers[i].initrd && (forall j | i < j < |layers| :: !layers[j].initrd) ::
              LastWith(layers, false) == Some(layers[i].digest)
    ensures (exists i | 0 <= i < |layers| :: layers[i].kernel) && exists i | 0 <= i < |layers| :: layers[i].initrd
  {
    LastWithTells(layers, true);
    LastWithTells(layers, false);
    var k :| 0 <= k < |layers| && Carries(layers[k], true);
    var r :| 0 <= r < |layers| && Carries(layers[r], false);
    assert layers[k].kernel && layers[r].initrd;
    forall i | 0 <= i < |layers| && layers[i].kernel && (forall j | i < j < |layers| :: !layers[j].kernel)
      ensures LastWith(layers, true) == Some(layers[i].digest)
    {
      assert Carries(layers[i], true);
    }
    forall i | 0 <= i < |layers| && layers[i].initrd && (forall j | i < j < |layers| :: !layers[j].initrd)
      ensures LastWith(layers, false) == Some(layers[i].digest)
    {
      assert Carries(layers[i], false);
    }
  }

  lemma {:induction false} BootLayerIsListed(layers: seq<Layer>, kernel: bool)
    ensures LastWith(layers, kernel).Some? ==> exists l | l in layers :: l.digest == LastWith(layers, kernel).value
  {
    if layers != [] {
      assert layers[|layers| - 1] in layers;
      BootLayerIsListed(layers[..|layers| - 1], kernel);
    }
  }

  lemma DigestsOfNeeds(layers: seq<Layer>, kernel: nat, initrd: nat)
    requires (exists l | l in layers :: l.digest == kernel) && exists l | l in layers :: l.digest == initrd
    ensures Digests(Needs(layers, kernel, initrd)) == set l | l in layers :: l.digest
  {
    forall l | l in layers ensures l.digest in Digests(Needs(layers, kernel, initrd)) {
      assert File(l.digest, Blob) in Needs(layers, kernel, initrd);
    }
  }
}
