/**
  One namespace file of the JSON metadata engine (meta/json/store.go): `.prev` rotation,
  the atomic rename, and the fsyncs that run after the lock is released, over a disk that
  can lose power between any two steps.

  A directory is what is on disk plus a log of operations not yet synced; a power cut keeps
  a prefix of the log.  File bytes that were not synced may come back torn, and torn bytes
  do not decode.  A generation number stands for the model one commit encoded.
*/
module JsonStore {
  import opened Common

  type Ino = nat
  type Gen = nat

  datatype Inode = Inode(gen: Gen, synced: bool, torn: bool)

  /** The names commitLocked touches: the file, its `.prev`, and `.prev.tmp`. */
  datatype Dir = Dir(main: Option<Ino>, prev: Option<Ino>, tmp: Option<Ino>)

  datatype DirOp = RemoveTmp | LinkTmp | RenameTmp | RenameMain(ino: Ino)

  datatype Fs = Fs(durable: Dir, log: seq<DirOp>, inodes: map<Ino, Inode>)

  datatype Loaded = Empty | Good(gen: Gen, recovered: bool) | Corrupt

  function DoOp(d: Dir, op: DirOp): Dir {
    match op
    case RemoveTmp => d.(tmp := None)
    case LinkTmp => d.(tmp := d.main)
    // Renaming onto another name of the same file does nothing.
    case RenameTmp => if d.tmp.None? || d.tmp == d.prev then d else d.(prev := d.tmp, tmp := None)
    case RenameMain(i) => d.(main := Some(i))
  }

  function DoOps(d: Dir, ops: seq<DirOp>): Dir {
    if ops == [] then d else DoOp(DoOps(d, ops[..|ops| - 1]), ops[|ops| - 1])
  }

  function Now(fs: Fs): Dir { DoOps(fs.durable, fs.log) }

  predicate Decodes(fs: Fs, i: Option<Ino>) { i.Some? && i.value in fs.inodes && !fs.inodes[i.value].torn }

  /** Bytes no power cut can tear any more. */
  predicate Solid(fs: Fs, i: Option<Ino>) { Decodes(fs, i) && fs.inodes[i.value].synced }

  /** loadNamespace on a given directory. */
  function LoadAt(fs: Fs, d: Dir): Loaded {
    if d.main.None? then Empty
    else if Decodes(fs, d.main) then Good(fs.inodes[d.main.value].gen, false)
    else if Decodes(fs, d.prev) then Good(fs.inodes[d.prev.value].gen, true)
    else Corrupt
  }

  function Load(fs: Fs): Loaded { LoadAt(fs, Now(fs)) }

  predicate IsCut(fs: Fs, keep: nat, torn: set<Ino>) {
    keep <= |fs.log| && forall i | i in torn :: i in fs.inodes && !fs.inodes[i].synced
  }

  /** A power cut that keeps `keep` directory operations and tears the given files. */
  function Cut(fs: Fs, keep: nat, torn: set<Ino>): Fs
    requires IsCut(fs, keep, torn)
  {
    Fs(DoOps(fs.durable, fs.log[..keep]), [],
       map i | i in fs.inodes :: Inode(fs.inodes[i].gen, true, fs.inodes[i].torn || i in torn))
  }

  /** A directory every cut of the file bytes can still load from. */
  predicate Survives(fs: Fs, d: Dir) { d.main.None? || Solid(fs, d.main) || Solid(fs, d.prev) }

  /** No power cut makes the namespace ErrCorrupt. */
  ghost predicate NeverCorrupt(fs: Fs) {
    forall keep: nat, torn | IsCut(fs, keep, torn) :: Load(Cut(fs, keep, torn)) != Corrupt
  }

  predicate AllSurvive(fs: Fs) {
    forall keep | 0 <= keep <= |fs.log| :: Survives(fs, DoOps(fs.durable, fs.log[..keep]))
  }

  lemma SurvivalIsSafety(fs: Fs)
    ensures NeverCorrupt(fs) <==> AllSurvive(fs)
  {
    if NeverCorrupt(fs) {
      forall keep | 0 <= keep <= |fs.log| ensures Survives(fs, DoOps(fs.durable, fs.log[..keep])) {
        var torn := set i | i in fs.inodes && !fs.inodes[i].synced;
        assert IsCut(fs, keep, torn);
        assert Load(Cut(fs, keep, torn)) != Corrupt;
      }
    }
    if AllSurvive(fs) {
      forall keep: nat, torn | IsCut(fs, keep, torn) ensures Load(Cut(fs, keep, torn)) != Corrupt {
        assert Survives(fs, DoOps(fs.durable, fs.log[..keep]));
      }
    }
  }

  // ----- one committer's steps, a dying process, the kernel and the power

  datatype Pc =
    | Idle
    | Read(durable: bool, recovered: bool)
    | TmpGone(durable: bool)
    | Linked(durable: bool)
    | Rotated(durable: bool)
    | Renamed(durable: bool)
    | MainSynced(durable: bool)
    | PrevSynced

  /**
    `latest` is the generation readers see, `next` the number of the next commit, and `since`
    the generations committed since the last one known durable, that one included.
  */
  datatype State = State(fs: Fs, pc: Pc, latest: Gen, next: Gen, since: set<Gen>)

  datatype Step =
    | Begin(durable: bool)
    | ClearTmp
    | Link
    | Rotate
    | Publish(ino: Ino)
    | SyncMain
    | SyncPrev
    | SyncDir
    | Kill
    | Writeback(ino: Ino)
    | Journal(n: nat)
    | PowerCut(keep: nat, torn: set<Ino>)

  /** The file a commit that takes the lock now would leave as `.prev`: what it loads. */
  function Fallback(fs: Fs): Option<Ino> {
    if Now(fs).main.None? || (Load(fs).Good? && Load(fs).recovered) then Now(fs).prev else Now(fs).main
  }

  /** Nobody holds the lock; an earlier commit's syncs may still be under way. */
  predicate Unlocked(pc: Pc) { pc.Idle? || pc.Renamed? || pc.MainSynced? || pc.PrevSynced? }

  predicate Enabled(s: State, st: Step) {
    match st
    // The syncs of a commit that is overtaken go on as writeback and journal steps.
    case Begin(_) => Unlocked(s.pc) && Solid(s.fs, Fallback(s.fs))
    case ClearTmp => s.pc.Read? && !s.pc.recovered
    case Link => s.pc.TmpGone?
    case Rotate => s.pc.Linked?
    case Publish(i) => (s.pc.Rotated? || (s.pc.Read? && s.pc.recovered)) && i !in s.fs.inodes
    case SyncMain => s.pc.Renamed? && Now(s.fs).main.Some? && Now(s.fs).main.value in s.fs.inodes
    case SyncPrev => s.pc.MainSynced?
    case SyncDir => s.pc == PrevSynced
    case Kill => true
    case Writeback(i) => i in s.fs.inodes
    case Journal(n) => n <= |s.fs.log|
    case PowerCut(keep, torn) => IsCut(s.fs, keep, torn)
  }

  function Logged(fs: Fs, op: DirOp): Fs { fs.(log := fs.log + [op]) }

  function Synced(fs: Fs, i: Option<Ino>): Fs {
    if i.Some? && i.value in fs.inodes
    then fs.(inodes := fs.inodes[i.value := fs.inodes[i.value].(synced := true)])
    else fs
  }

  /** What a transaction finds when it takes the lock. */
  function ReadNow(s: State, durable: bool): State { s.(pc := Read(durable, Load(s.fs).Good? && Load(s.fs).recovered)) }

  function Apply(s: State, st: Step): State
    requires Enabled(s, st)
  {
    match st
    case Begin(durable) => ReadNow(s, durable)
    case ClearTmp => s.(fs := Logged(s.fs, RemoveTmp), pc := TmpGone(s.pc.durable))
    // A missing file has nothing to rotate.
    case Link =>
      if Now(s.fs).main.None? then s.(pc := Rotated(s.pc.durable))
      else s.(fs := Logged(s.fs, LinkTmp), pc := Linked(s.pc.durable))
    case Rotate => s.(fs := Logged(s.fs, RenameTmp), pc := Rotated(s.pc.durable))
    case Publish(i) =>
      s.(fs := Logged(s.fs.(inodes := s.fs.inodes[i := Inode(s.next, false, false)]), RenameMain(i)),
         pc := Renamed(s.pc.durable), latest := s.next, next := s.next + 1, since := s.since + {s.next})
    case SyncMain => s.(fs := Synced(s.fs, Now(s.fs).main), pc := MainSynced(s.pc.durable))
    case SyncPrev => s.(fs := Synced(s.fs, Now(s.fs).prev), pc := if s.pc.durable then PrevSynced else Idle)
    case SyncDir => s.(fs := s.fs.(durable := Now(s.fs), log := []), pc := Idle, since := {s.latest})
    case Kill => s.(pc := Idle)
    case Writeback(i) => s.(fs := Synced(s.fs, Some(i)))
    case Journal(n) =>
      s.(fs := s.fs.(durable := DoOps(s.fs.durable, s.fs.log[..n]), log := s.fs.log[n..]))
    case PowerCut(keep, torn) =>
      var fs := Cut(s.fs, keep, torn);
      var g := if Load(fs).Good? then Load(fs).gen else s.latest;
      s.(fs := fs, pc := Idle, latest := g, since := {g})
  }

  predicate Legal(s: State, run: seq<Step>)
    decreases |run|
  {
    run == [] || (Enabled(s, run[0]) && Legal(Apply(s, run[0]), run[1..]))
  }

  function After(s: State, run: seq<Step>): State
    requires Legal(s, run)
    decreases |run|
  {
    if run == [] then s else After(Apply(s, run[0]), run[1..])
  }

  /** One synced generation, number 0. */
  function Init(ino: Ino): State {
    State(Fs(Dir(Some(ino), None, None), [], map[ino := Inode(0, true, false)]), Idle, 0, 1, {0})
  }

  // ----- what every step keeps

  /** Whatever a cut does to the file bytes, the directory loads a generation committed since. */
  predicate SafeDir(s: State, d: Dir) {
    && d.main.Some? && d.main.value in s.fs.inodes
    && (Solid(s.fs, d.main) || (Solid(s.fs, d.prev) && s.fs.inodes[d.prev.value].gen in s.since))
    && (Decodes(s.fs, d.main) ==> s.fs.inodes[d.main.value].gen in s.since)
  }

  predicate Safe(s: State) {
    forall keep | 0 <= keep <= |s.fs.log| :: SafeDir(s, DoOps(s.fs.durable, s.fs.log[..keep]))
  }

  predicate PcOk(s: State) {
    var d := Now(s.fs);
    match s.pc
    case Idle => true
    case Read(_, recovered) => recovered == !Decodes(s.fs, d.main) && Solid(s.fs, if recovered then d.prev else d.main)
    case TmpGone(_) => Solid(s.fs, d.main)
    case Linked(_) => Solid(s.fs, d.main) && d.tmp == d.main
    case Rotated(_) => Solid(s.fs, d.main) && d.prev == d.main
    case Renamed(_) => Decodes(s.fs, d.main)
    case MainSynced(_) => Solid(s.fs, d.main)
    case PrevSynced => Solid(s.fs, d.main)
  }

  predicate Inv(s: State) {
    && Safe(s) && PcOk(s)
    && Load(s.fs).Good? && Load(s.fs).gen == s.latest && s.latest in s.since
    && (forall g | g in s.since :: g < s.next)
  }

  lemma OpsSnoc(d: Dir, ops: seq<DirOp>, op: DirOp)
    ensures DoOps(d, ops + [op]) == DoOp(DoOps(d, ops), op)
  {
    assert (ops + [op])[..|ops|] == ops;
  }

  lemma {:induction false} OpsAppend(d: Dir, a: seq<DirOp>, b: seq<DirOp>)
    ensures DoOps(d, a + b) == DoOps(DoOps(d, a), b)
    decreases |b|
  {
    if b == [] {
      assert a + b == a;
    } else {
      OpsAppend(d, a, b[..|b| - 1]);
      assert (a + b)[..|a + b| - 1] == a + b[..|b| - 1];
    }
  }

  /** Logging one more operation adds one more prefix. */
  lemma LoggedIsSafe(s: State, t: State, op: DirOp)
    requires Safe(s) && t.fs.log == s.fs.log + [op] && t.fs.durable == s.fs.durable
    requires SafeDir(t, DoOp(Now(s.fs), op))
    requires forall d | SafeDir(s, d) :: SafeDir(t, d)
    ensures Safe(t) && Now(t.fs) == DoOp(Now(s.fs), op)
  {
    OpsSnoc(s.fs.durable, s.fs.log, op);
    forall keep | 0 <= keep <= |t.fs.log| ensures SafeDir(t, DoOps(t.fs.durable, t.fs.log[..keep])) {
      if keep <= |s.fs.log| {
        assert t.fs.log[..keep] == s.fs.log[..keep];
      } else {
        assert t.fs.log[..keep] == t.fs.log;
      }
    }
  }

  lemma NowIsSafe(s: State)
    requires Safe(s)
    ensures SafeDir(s, Now(s.fs))
  {
    assert s.fs.log[..|s.fs.log|] == s.fs.log;
  }

  lemma RotationKeepsInv(s: State, st: Step)
    requires Inv(s) && Enabled(s, st) && (st.ClearTmp? || st.Link? || st.Rotate?)
    ensures Inv(Apply(s, st))
  {
    NowIsSafe(s);
    var t := Apply(s, st);
    match st
    case ClearTmp => LoggedIsSafe(s, t, RemoveTmp);
    case Link => LoggedIsSafe(s, t, LinkTmp);
    case Rotate => LoggedIsSafe(s, t, RenameTmp);
    case _ =>
  }

  lemma PublishKeepsInv(s: State, i: Ino)
    requires Inv(s) && Enabled(s, Publish(i))
    ensures Inv(Apply(s, Publish(i)))
  {
    NowIsSafe(s);
    LoggedIsSafe(s, Apply(s, Publish(i)), RenameMain(i));
  }

  lemma SyncKeepsInv(s: State, st: Step)
    requires Inv(s) && Enabled(s, st) && (st.SyncMain? || st.SyncPrev? || st.Writeback?)
    ensures Inv(Apply(s, st))
  {
    var t := Apply(s, st);
    forall d | SafeDir(s, d) ensures SafeDir(t, d) { }
  }

  lemma JournalKeepsInv(s: State, n: nat)
    requires Inv(s) && Enabled(s, Journal(n))
    ensures Inv(Apply(s, Journal(n)))
  {
    var t := Apply(s, Journal(n));
    assert s.fs.log[..n] + s.fs.log[n..] == s.fs.log;
    OpsAppend(s.fs.durable, s.fs.log[..n], s.fs.log[n..]);
    forall keep | 0 <= keep <= |t.fs.log| ensures SafeDir(t, DoOps(t.fs.durable, t.fs.log[..keep])) {
      OpsAppend(s.fs.durable, s.fs.log[..n], t.fs.log[..keep]);
      assert s.fs.log[..n] + t.fs.log[..keep] == s.fs.log[..n + keep];
      assert SafeDir(s, DoOps(s.fs.durable, s.fs.log[..n + keep]));
    }
  }

  lemma SyncDirKeepsInv(s: State)
    requires Inv(s) && Enabled(s, SyncDir)
    ensures Inv(Apply(s, SyncDir))
  {
    var t := Apply(s, SyncDir);
    assert t.fs.log[..0] == [] && Now(t.fs) == Now(s.fs);
  }

  /** Any cut of a safe state loads a generation committed since the last durable one. */
  lemma CutLoadsGood(s: State, keep: nat, torn: set<Ino>)
    requires Inv(s) && IsCut(s.fs, keep, torn)
    ensures Load(Cut(s.fs, keep, torn)).Good?
    ensures Load(Cut(s.fs, keep, torn)).gen in s.since
  {
    assert SafeDir(s, DoOps(s.fs.durable, s.fs.log[..keep]));
  }

  lemma PowerCutKeepsInv(s: State, keep: nat, torn: set<Ino>)
    requires Inv(s) && Enabled(s, PowerCut(keep, torn))
    ensures Inv(Apply(s, PowerCut(keep, torn)))
  {
    CutLoadsGood(s, keep, torn);
    var t := Apply(s, PowerCut(keep, torn));
    assert SafeDir(s, DoOps(s.fs.durable, s.fs.log[..keep]));
    assert t.fs.log[..0] == [] && Now(t.fs) == DoOps(s.fs.durable, s.fs.log[..keep]);
  }

  lemma StepKeepsInv(s: State, st: Step)
    requires Inv(s) && Enabled(s, st)
    ensures Inv(Apply(s, st))
  {
    match st
    case Begin(_) => assert Safe(Apply(s, st)) by { forall d | SafeDir(s, d) ensures SafeDir(Apply(s, st), d) { } }
    case Kill => assert Safe(Apply(s, st)) by { forall d | SafeDir(s, d) ensures SafeDir(Apply(s, st), d) { } }
    case ClearTmp => RotationKeepsInv(s, st);
    case Link => RotationKeepsInv(s, st);
    case Rotate => RotationKeepsInv(s, st);
    case Publish(i) => PublishKeepsInv(s, i);
    case SyncMain => SyncKeepsInv(s, st);
    case SyncPrev => SyncKeepsInv(s, st);
    case Writeback(_) => SyncKeepsInv(s, st);
    case SyncDir => SyncDirKeepsInv(s);
    case Journal(n) => JournalKeepsInv(s, n);
    case PowerCut(keep, torn) => PowerCutKeepsInv(s, keep, torn);
  }

  lemma {:induction false} RunKeepsInv(s: State, run: seq<Step>)
    requires Inv(s) && Legal(s, run)
    ensures Inv(After(s, run))
    decreases |run|
  {
    if run != [] {
      StepKeepsInv(s, run[0]);
      RunKeepsInv(Apply(s, run[0]), run[1..]);
    }
  }

  lemma InitInv(ino: Ino)
    ensures Inv(Init(ino))
  {
    assert Init(ino).fs.log[..0] == [];
  }

  // ----- the engine's promises, over every run

  /**
    A power cut at any point of any run, in which commits may overtake each other's syncs as long as each finds the
    generation it will leave as `.prev` synced, loads a generation committed since the last durable one and never
    ErrCorrupt; a reader always sees the latest commit.
  */
  lemma PowerLossSafety(ino: Ino, run: seq<Step>, keep: nat, torn: set<Ino>)
    requires Legal(Init(ino), run) && IsCut(After(Init(ino), run).fs, keep, torn)
    ensures var s := After(Init(ino), run);
            && Load(s.fs).Good? && Load(s.fs).gen == s.latest
            && Load(Cut(s.fs, keep, torn)).Good?
            && Load(Cut(s.fs, keep, torn)).gen in s.since
  {
    InitInv(ino);
    RunKeepsInv(Init(ino), run);
    CutLoadsGood(After(Init(ino), run), keep, torn);
  }

  /** Once a durable Update has returned, every cut loads exactly what it committed. */
  lemma DurableUpdateSurvives(ino: Ino, run: seq<Step>, keep: nat, torn: set<Ino>)
    requires Legal(Init(ino), run) && Enabled(After(Init(ino), run), SyncDir)
    requires IsCut(Apply(After(Init(ino), run), SyncDir).fs, keep, torn)
    ensures var s := Apply(After(Init(ino), run), SyncDir);
            Load(Cut(s.fs, keep, torn)).Good? && Load(Cut(s.fs, keep, torn)).gen == s.latest
  {
    InitInv(ino);
    RunKeepsInv(Init(ino), run);
    SyncDirKeepsInv(After(Init(ino), run));
    CutLoadsGood(Apply(After(Init(ino), run), SyncDir), keep, torn);
  }

  /** From a durable generation, a cut inside one durable Update loads the old generation or the new one. */
  lemma OldOrNew(s: State, run: seq<Step>, keep: nat, torn: set<Ino>)
    requires Inv(s) && s.since == {s.latest} && Legal(s, run) && IsCut(After(s, run).fs, keep, torn)
    requires forall i | 0 <= i < |run| :: !run[i].PowerCut?
    requires forall i, j | 0 <= i < j < |run| && run[i].Publish? :: !run[j].Publish?
    ensures var g := Load(Cut(After(s, run).fs, keep, torn));
            g.Good? && (g.gen == s.latest || g.gen == After(s, run).latest)
  {
    RunKeepsInv(s, run);
    OnePublish(s, run);
    CutLoadsGood(After(s, run), keep, torn);
  }

  lemma {:induction false} OnePublish(s: State, run: seq<Step>)
    requires Legal(s, run)
    requires forall i | 0 <= i < |run| :: !run[i].PowerCut?
    requires forall i, j | 0 <= i < j < |run| && run[i].Publish? :: !run[j].Publish?
    ensures After(s, run).since <= s.since + {After(s, run).latest} + {s.latest}
    ensures (forall i | 0 <= i < |run| :: !run[i].Publish?) ==>
              After(s, run).latest == s.latest && After(s, run).since <= s.since + {s.latest}
    decreases |run|
  {
    if run != [] {
      var t := Apply(s, run[0]);
      assert forall i | 0 <= i < |run| - 1 :: run[1..][i] == run[i + 1];
      OnePublish(t, run[1..]);
      if run[0].Publish? {
        assert forall i | 0 <= i < |run| - 1 :: !run[1..][i].Publish?;
      }
    }
  }

  // ----- the engine's own sequence

  /** Links the file to `.prev.tmp` and renames that over `.prev`, so one of the two exists at every instant. */
  function RotatePrev(s: State): State
    requires s.pc.Read? && !s.pc.recovered
  {
    var linked := Apply(Apply(s, ClearTmp), Link);
    if linked.pc.Linked? then Apply(linked, Rotate) else linked
  }

  /** Rotation leaves the file alone and makes it `.prev`; a missing file is not rotated. */
  lemma RotatePrevNames(s: State)
    requires s.pc.Read? && !s.pc.recovered
    ensures RotatePrev(s) == s.(fs := RotatePrev(s).fs, pc := Rotated(s.pc.durable))
    ensures RotatePrev(s).fs.inodes == s.fs.inodes && RotatePrev(s).fs.durable == s.fs.durable
    ensures Now(RotatePrev(s).fs).main == Now(s.fs).main
    ensures Now(RotatePrev(s).fs).prev == if Now(s.fs).main.Some? then Now(s.fs).main else Now(s.fs).prev
  {
    var a := Apply(s, ClearTmp);
    var b := Apply(a, Link);
    LoggedNow(s.fs, RemoveTmp);
    LoggedNow(a.fs, LinkTmp);
    if b.pc.Linked? {
      LoggedNow(b.fs, RenameTmp);
    }
  }

  lemma LoggedNow(fs: Fs, op: DirOp)
    ensures Now(Logged(fs, op)) == DoOp(Now(fs), op)
  {
    OpsSnoc(fs.durable, fs.log, op);
  }

  /** commitLocked: rotates `.prev` unless the load was a recovery, then renames the new bytes in. */
  function CommitLocked(s: State, ino: Ino): State
    requires s.pc.Read? && ino !in s.fs.inodes
  {
    RotatePrevNamesIf(s);
    Apply(if s.pc.recovered then s else RotatePrev(s), Publish(ino))
  }

  lemma RotatePrevNamesIf(s: State)
    requires s.pc.Read?
    ensures !s.pc.recovered ==> RotatePrev(s) == s.(fs := RotatePrev(s).fs, pc := Rotated(s.pc.durable))
    ensures !s.pc.recovered ==> RotatePrev(s).fs.inodes == s.fs.inodes
  {
    if !s.pc.recovered { RotatePrevNames(s); }
  }

  /** The file a commit leaves as `.prev`: what it loaded, if it loaded the file itself. */
  function Backup(s: State): Option<Ino>
    requires s.pc.Read?
  {
    if s.pc.recovered || Now(s.fs).main.None? then Now(s.fs).prev else Now(s.fs).main
  }

  /** After a commit the new bytes are the file, and `.prev` is the last generation that decoded. */
  lemma CommitNames(s: State, ino: Ino)
    requires s.pc.Read? && ino !in s.fs.inodes
    ensures var t := CommitLocked(s, ino);
            && Now(t.fs).main == Some(ino) && Now(t.fs).prev == Backup(s)
            && t.fs.inodes == s.fs.inodes[ino := Inode(s.next, false, false)]
            && t.pc == Renamed(s.pc.durable) && t.latest == s.next && t.since == s.since + {s.next}
  {
    var r := if s.pc.recovered then s else RotatePrev(s);
    if !s.pc.recovered { RotatePrevNames(s); }
    OpsSnoc(r.fs.durable, r.fs.log, RenameMain(ino));
  }

  lemma CommitKeepsInv(s: State, ino: Ino)
    requires Inv(s) && s.pc.Read? && ino !in s.fs.inodes
    ensures Inv(CommitLocked(s, ino))
  {
    var r := s;
    NowIsSafe(s);
    if !s.pc.recovered {
      OpsSnoc(s.fs.durable, s.fs.log, RemoveTmp);
      RotatePrevNames(s);
      var a := Apply(s, ClearTmp);
      var b := Apply(a, Link);
      StepKeepsInv(s, ClearTmp);
      StepKeepsInv(a, Link);
      StepKeepsInv(b, Rotate);
      r := RotatePrev(s);
    }
    StepKeepsInv(r, Publish(ino));
  }

  /** No cut can tear the bytes of this file. */
  predicate SyncedFile(fs: Fs, i: Option<Ino>) { i.Some? && i.value in fs.inodes ==> fs.inodes[i.value].synced }

  /** Every cut that keeps the whole log loads the latest commit from its own file. */
  lemma KeptLogLoadsLatest(s: State, torn: set<Ino>)
    requires Inv(s) && Solid(s.fs, Now(s.fs).main) && IsCut(s.fs, |s.fs.log|, torn)
    ensures Load(Cut(s.fs, |s.fs.log|, torn)) == Good(s.latest, false)
  {
    assert s.fs.log[..|s.fs.log|] == s.fs.log;
  }

  /** syncCommitted: the file, then `.prev`, then the directory when the mode is durable. */
  function SyncCommitted(s: State): State
    requires s.pc.Renamed? && Now(s.fs).main.Some? && Now(s.fs).main.value in s.fs.inodes
  {
    var t := Apply(Apply(s, SyncMain), SyncPrev);
    if t.pc == PrevSynced then Apply(t, SyncDir) else t
  }

  lemma SyncCommittedKeepsInv(s: State)
    requires Inv(s) && s.pc.Renamed?
    requires Now(s.fs).main.Some? && Now(s.fs).main.value in s.fs.inodes
    ensures Inv(SyncCommitted(s))
    ensures SyncCommitted(s).pc == Idle && SyncCommitted(s).latest == s.latest
    ensures Solid(SyncCommitted(s).fs, Now(SyncCommitted(s).fs).main) && Now(SyncCommitted(s).fs) == Now(s.fs)
    ensures SyncedFile(SyncCommitted(s).fs, Now(s.fs).prev)
    ensures s.pc.durable ==> SyncCommitted(s).fs.log == []
    ensures SyncCommitted(s).since == if s.pc.durable then {s.latest} else s.since
  {
    var a := Apply(s, SyncMain);
    var b := Apply(a, SyncPrev);
    StepKeepsInv(s, SyncMain);
    StepKeepsInv(a, SyncPrev);
    if b.pc == PrevSynced {
      StepKeepsInv(b, SyncDir);
    }
  }

  /** One namespace file driven by Update with nothing else going on. */
  class Namespace {
    var s: State

    constructor (ino: Ino)
      ensures s == Init(ino) && Inv(s) && Solid(s.fs, Fallback(s.fs))
    {
      s := Init(ino);
      InitInv(ino);
    }

    /** A clean transaction commits nothing, except that a recovered load is always repaired. */
    method Update(durable: bool, dirty: bool, ino: Ino) returns (committed: bool)
      requires Inv(s) && s.pc == Idle && Solid(s.fs, Fallback(s.fs)) && ino !in s.fs.inodes
      modifies this
      ensures Inv(s) && s.pc == Idle
      ensures committed == (dirty || old(Load(s.fs).recovered))
      ensures !committed ==> s == old(s)
      ensures committed ==> s.latest == old(s.next)
      ensures Solid(s.fs, Fallback(s.fs))
      ensures committed ==> Solid(s.fs, Now(s.fs).main) && SyncedFile(s.fs, Now(s.fs).prev)
      ensures committed && durable ==> s.fs.log == []
      ensures committed ==>
                forall torn | IsCut(s.fs, |s.fs.log|, torn) ::
                  Load(Cut(s.fs, |s.fs.log|, torn)) == Good(s.latest, false)
      ensures committed ==> s.since == if durable then {s.latest} else old(s.since) + {s.latest}
    {
      NowIsSafe(s);
      var read := Apply(s, Begin(durable));
      StepKeepsInv(s, Begin(durable));
      committed := dirty || read.pc.recovered;
      if !committed {
        return;
      }
      CommitKeepsInv(read, ino);
      CommitNames(read, ino);
      var renamed := CommitLocked(read, ino);
      SyncCommittedKeepsInv(renamed);
      s := SyncCommitted(renamed);
      forall torn | IsCut(s.fs, |s.fs.log|, torn) ensures Load(Cut(s.fs, |s.fs.log|, torn)) == Good(s.latest, false) {
        KeptLogLoadsLatest(s, torn);
      }
    }
  }

  // ----- where the hypotheses matter: commits at any time, over any file

  /** Logging one more operation adds one more prefix to survive. */
  lemma LoggedSurvives(fs: Fs, t: Fs, op: DirOp)
    requires t.log == fs.log + [op] && t.durable == fs.durable
    requires forall d | Survives(fs, d) :: Survives(t, d)
    ensures AllSurvive(t) ==> Survives(t, DoOp(Now(fs), op))
    ensures AllSurvive(fs) && Survives(t, DoOp(Now(fs), op)) ==> AllSurvive(t)
  {
    OpsSnoc(fs.durable, fs.log, op);
    assert t.log[..|t.log|] == t.log;
    assert forall keep | 0 <= keep <= |fs.log| :: t.log[..keep] == fs.log[..keep];
    if AllSurvive(t) {
      assert Survives(t, DoOps(t.durable, t.log[..|t.log|]));
    }
    if AllSurvive(fs) && Survives(t, DoOp(Now(fs), op)) {
      forall keep | 0 <= keep <= |t.log| ensures Survives(t, DoOps(t.durable, t.log[..keep])) {
        if keep <= |fs.log| {
          assert Survives(fs, DoOps(fs.durable, fs.log[..keep]));
        }
      }
    }
  }

  lemma NowSurvives(fs: Fs)
    requires AllSurvive(fs)
    ensures Survives(fs, Now(fs))
  {
    assert fs.log[..|fs.log|] == fs.log;
  }

  /** Rotating a synced file, or none, is always safe. */
  lemma RotateSurvives(s: State)
    requires s.pc.Read? && !s.pc.recovered && AllSurvive(s.fs)
    requires Now(s.fs).main.Some? ==> Solid(s.fs, Now(s.fs).main)
    ensures AllSurvive(RotatePrev(s).fs)
  {
    var a := Apply(s, ClearTmp);
    var b := Apply(a, Link);
    NowSurvives(s.fs);
    OpsSnoc(s.fs.durable, s.fs.log, RemoveTmp);
    LoggedSurvives(s.fs, a.fs, RemoveTmp);
    if b.pc.Linked? {
      OpsSnoc(a.fs.durable, a.fs.log, LinkTmp);
      LoggedSurvives(a.fs, b.fs, LinkTmp);
      LoggedSurvives(b.fs, Apply(b, Rotate).fs, RenameTmp);
    }
  }

  /**
    The exact condition for a commit over a store no power cut can corrupt, whatever else is unsynced and whether or not
    there is a file yet: still no cut corrupts it if and only if, when the commit takes the lock, the generation it will
    leave as `.prev` is synced.
  */
  lemma CommitIsSafeExactly(s: State, ino: Ino)
    requires s.pc.Read? && ino !in s.fs.inodes && NeverCorrupt(s.fs)
    ensures NeverCorrupt(CommitLocked(s, ino).fs) <==> Solid(s.fs, Backup(s))
  {
    var t := CommitLocked(s, ino);
    SurvivalIsSafety(s.fs);
    SurvivalIsSafety(t.fs);
    CommitNames(s, ino);
    var r := if s.pc.recovered then s else RotatePrev(s);
    if !s.pc.recovered { RotatePrevNames(s); }
    LoggedSurvives(r.fs, t.fs, RenameMain(ino));
    if Solid(s.fs, Backup(s)) && !s.pc.recovered {
      RotateSurvives(s);
    }
  }

  /** A namespace with no file yet. */
  function NoFile(): State { State(Fs(Dir(None, None, None), [], map[]), Idle, 0, 1, {}) }

  /** The very first commit has no earlier generation to fall back on: a cut before its sync corrupts. */
  lemma FirstCommitCanCorrupt(durable: bool, ino: Ino)
    ensures NeverCorrupt(NoFile().fs) && !NeverCorrupt(CommitLocked(ReadNow(NoFile(), durable), ino).fs)
  {
    SurvivalIsSafety(NoFile().fs);
    CommitIsSafeExactly(ReadNow(NoFile(), durable), ino);
  }

  /**
    A commit that takes the lock before an earlier one's bytes are synced rotates unsynced bytes into `.prev`: from
    every state of every run, two commits back to back leave a store a cut can corrupt.
  */
  lemma OverlappingCommitsCanCorrupt(s: State, durable: bool, a: Ino, b: Ino)
    requires Inv(s) && Enabled(s, Begin(durable)) && a !in s.fs.inodes && b !in s.fs.inodes && a != b
    ensures var first := CommitLocked(Apply(s, Begin(durable)), a);
            && Load(first.fs) == Good(s.next, false)
            && NeverCorrupt(first.fs) && !NeverCorrupt(CommitLocked(ReadNow(first, durable), b).fs)
  {
    var read := Apply(s, Begin(durable));
    var first := CommitLocked(read, a);
    CommitNames(read, a);
    StepKeepsInv(s, Begin(durable));
    CommitKeepsInv(read, a);
    InvIsSafe(first);
    CommitIsSafeExactly(ReadNow(first, durable), b);
  }

  lemma InvIsSafe(s: State)
    requires Inv(s)
    ensures NeverCorrupt(s.fs)
  {
    forall keep: nat, torn | IsCut(s.fs, keep, torn) ensures Load(Cut(s.fs, keep, torn)) != Corrupt {
      CutLoadsGood(s, keep, torn);
    }
  }
}
