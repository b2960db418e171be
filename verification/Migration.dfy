/**
  A live-migration series of hypervisor/migrate.go: a baseline copy of every disk, then
  rounds that each add one memory diff and one delta per disk and move the per-disk
  reference.  The guest writes between and inside rounds, and the capturing process may
  die between any two of its steps.
*/
module Migration {
  import opened Common
  import opened DiskDelta

  /**
    One writable disk: the live file and its entries in the series directory.
    `deltas` holds the delta files by round number.
  */
  datatype Disk = Disk(live: File, copy: File, ref: Option<File>, next: Option<File>, deltas: map<nat, Delta>)

  /** Where the capture in flight stands: paused, memory diff written, or past the pause window. */
  datatype Round = NoRound | Paused(final: bool) | Captured(final: bool) | Draining(final: bool)

  /**
    `finalTaken` says whether a final round has taken its memory diff, `was` what the disks held then, and `stale`
    whether a further round has begun since, over references the final round left unmoved.
  */
  datatype Series = Series(
    store: Store, disks: seq<Disk>, mem: nat, paused: bool, round: Round,
    finalTaken: bool, was: seq<seq<byte>>, stale: bool, finished: bool)

  datatype Step =
    | Guest(live: seq<File>, store: Store)
    | Begin(final: bool)
    | MemoryDiff
    | Freeze(i: nat)
    | LeavePause
    | WriteDelta(i: nat, d: Delta)
    | MoveRef(i: nat)
    | Finish
    | Die
    | ResumeGuest

  // ----- the checks a capture makes

  /** nextRound: the first round number with no delta file. */
  predicate IsNextRound(files: map<nat, Delta>, n: nat) {
    1 <= n && n !in files && forall k | 1 <= k < n :: k in files
  }

  method NextRound(files: map<nat, Delta>) returns (n: nat)
    ensures IsNextRound(files, n)
  {
    n := 1;
    ghost var seen: set<nat> := {};
    while n in files
      invariant 1 <= n && (forall k | 1 <= k < n :: k in files) && (forall k | k in seen :: k < n)
      decreases files.Keys - seen
    {
      seen := seen + {n};
      n := n + 1;
    }
  }

  /** The memory diffs and every disk stand at one completed round, with no reference left unmoved. */
  predicate InStep(s: Series) {
    forall i | 0 <= i < |s.disks| :: IsNextRound(s.disks[i].deltas, s.mem + 1) && s.disks[i].next == None
  }

  method CheckRoundsInStep(s: Series) returns (ok: bool)
    requires |s.disks| > 0
    ensures ok <==> InStep(s)
  {
    var round := NextRound(s.disks[0].deltas);
    if s.mem != round - 1 {
      return false;
    }
    for i := 0 to |s.disks|
      invariant forall j | 0 <= j < i :: IsNextRound(s.disks[j].deltas, s.mem + 1) && s.disks[j].next == None
    {
      var n := NextRound(s.disks[i].deltas);
      if n != round || s.disks[i].next != None {
        return false;
      }
    }
    return true;
  }

  // ----- the steps

  /** writeRoundDelta diffs against `.ref`, or the baseline copy before the first move. */
  function Reference(d: Disk): File {
    match d.ref case Some(f) => f case None => d.copy
  }

  /** Copy-on-write: storage a frozen file maps keeps its bytes. */
  ghost predicate Untouched(f: File, before: Store, after: Store) {
    forall q :: ByteAt(f, after, q) == ByteAt(f, before, q)
  }

  ghost predicate GuestMay(s: Series, live: seq<File>, store: Store) {
    && !s.paused && |live| == |s.disks|
    && forall i | 0 <= i < |live| ::
         && TailReadsZero(live[i], store)
         && Untouched(s.disks[i].copy, s.store, store)
         && (s.disks[i].ref.Some? ==> Untouched(s.disks[i].ref.value, s.store, store))
         && (s.disks[i].next.Some? ==> Untouched(s.disks[i].next.value, s.store, store))
  }

  /** The frozen reference, or the paused live disk in a final round. */
  function Target(d: Disk, final: bool): File {
    if final || d.next.None? then d.live else d.next.value
  }

  ghost predicate Enabled(s: Series, st: Step) {
    match st
    case Guest(live, store) => GuestMay(s, live, store)
    case Begin(_) => s.round == NoRound && InStep(s)
    case MemoryDiff => s.round.Paused?
    case Freeze(i) => s.round == Captured(false) && i < |s.disks| && s.disks[i].next == None
    case LeavePause =>
      s.round.Captured? && (!s.round.final ==> forall i | 0 <= i < |s.disks| :: s.disks[i].next.Some?)
    case WriteDelta(i, d) =>
      && s.round.Draining? && i < |s.disks|
      && IsNextRound(s.disks[i].deltas, s.mem)
      && IsDelta(d, Reference(s.disks[i]), Target(s.disks[i], s.round.final), s.store)
    case MoveRef(i) =>
      s.round == Draining(false) && i < |s.disks| && s.disks[i].next.Some? && IsNextRound(s.disks[i].deltas, s.mem + 1)
    case Finish => s.round.Draining? && InStep(s)
    case Die => s.round != NoRound
    case ResumeGuest => s.round == NoRound
  }

  /** What the live disks hold. */
  function Contents(disks: seq<Disk>, store: Store): (c: seq<seq<byte>>)
    ensures |c| == |disks|
    ensures forall i | 0 <= i < |disks| :: c[i] == Content(disks[i].live, store)
  {
    seq(|disks|, i requires 0 <= i < |disks| => Content(disks[i].live, store))
  }

  function Apply(s: Series, st: Step): Series {
    match st
    case Guest(live, store) =>
      s.(store := store,
         disks := seq(|s.disks|, i requires 0 <= i < |s.disks| =>
           if i < |live| then s.disks[i].(live := live[i]) else s.disks[i]))
    case Begin(final) =>
      s.(round := Paused(final), paused := true, stale := s.stale || s.finalTaken, finished := false)
    case MemoryDiff =>
      if !s.round.Paused? then s
      else
        s.(round := Captured(s.round.final), mem := s.mem + 1, finalTaken := s.finalTaken || s.round.final,
           was := if s.round.final then Contents(s.disks, s.store) else s.was)
    case Freeze(i) => if i < |s.disks| then s.(disks := s.disks[i := s.disks[i].(next := Some(s.disks[i].live))]) else s
    case LeavePause =>
      if s.round.Captured? then s.(round := Draining(s.round.final), paused := s.round.final) else s
    case WriteDelta(i, d) =>
      if i < |s.disks| then s.(disks := s.disks[i := s.disks[i].(deltas := s.disks[i].deltas[s.mem := d])]) else s
    case MoveRef(i) =>
      if i < |s.disks| then s.(disks := s.disks[i := s.disks[i].(ref := s.disks[i].next, next := None)]) else s
    case Finish => s.(round := NoRound, finished := s.round.Draining? && s.round.final)
    case Die => s.(round := NoRound)
    case ResumeGuest => s.(paused := false)
  }

  ghost predicate Legal(s: Series, run: seq<Step>)
    decreases |run|
  {
    run == [] || (Enabled(s, run[0]) && Legal(Apply(s, run[0]), run[1..]))
  }

  function After(s: Series, run: seq<Step>): Series
    decreases |run|
  {
    if run == [] then s else After(Apply(s, run[0]), run[1..])
  }

  /** captureBaseline: every copy is a reflink of the paused live disk, and no round exists yet. */
  ghost predicate IsBaseline(s: Series) {
    && s.round == NoRound && !s.finalTaken && !s.stale && !s.finished && s.mem == 0
    && s.was == Contents(s.disks, s.store)
    && forall i | 0 <= i < |s.disks| ::
         && s.disks[i].copy == s.disks[i].live && s.disks[i].ref == None && s.disks[i].next == None
         && s.disks[i].deltas == map[]
         && TailReadsZero(s.disks[i].live, s.store)
  }

  // ----- replaying on the receiving node

  /** ApplyDiskDeltas: rounds 1..n of one disk, in order; a missing file is an error. */
  function Replay(b: seq<byte>, files: map<nat, Delta>, n: nat): Result<seq<byte>> {
    if n == 0 then Ok(b)
    else match Replay(b, files, n - 1)
         case Err => Err
         case Ok(x) => if n in files then ApplyDelta(x, files[n]) else Err
  }

  method ApplyDiskDeltas(out: DiskFile, files: map<nat, Delta>, rounds: nat) returns (ok: bool)
    modifies out
    ensures ok == Replay(old(out.bytes), files, rounds).Ok?
    ensures ok ==> Ok(out.bytes) == Replay(old(out.bytes), files, rounds)
  {
    ghost var start := out.bytes;
    for n := 1 to rounds + 1
      invariant Ok(out.bytes) == Replay(start, files, n - 1)
    {
      if n !in files {
        ReplayFailsOn(start, files, n, rounds);
        return false;
      }
      ghost var before := out.bytes;
      var applied := ApplyDiskDelta(out, files[n]);
      if !applied {
        ReplayFailsOn(start, files, n, rounds);
        return false;
      }
    }
    ok := true;
  }

  lemma {:induction false} ReplayFailsOn(b: seq<byte>, files: map<nat, Delta>, n: nat, m: nat)
    requires Replay(b, files, n).Err? && n <= m
    ensures Replay(b, files, m).Err?
  {
    if n < m { ReplayFailsOn(b, files, n, m - 1); }
  }

  lemma {:induction false} ReplayIgnoresLater(b: seq<byte>, files: map<nat, Delta>, n: nat, k: nat, d: Delta)
    requires n < k
    ensures Replay(b, files[k := d], n) == Replay(b, files, n)
  {
    if n > 0 { ReplayIgnoresLater(b, files, n - 1, k, d); }
  }

  /** One more delta file is one more application. */
  lemma ReplayNext(b: seq<byte>, files: map<nat, Delta>, n: nat, d: Delta, x: seq<byte>, r: Result<seq<byte>>)
    requires n >= 1 && Replay(b, files, n - 1) == Ok(x) && r == ApplyDelta(x, d)
    ensures Replay(b, files[n := d], n) == r
  {
    ReplayIgnoresLater(b, files, n - 1, n, d);
  }

  // ----- what every step keeps

  /** The disk holds exactly the delta files 1..k, and they replay. */
  ghost predicate Holds(d: Disk, store: Store, k: int) {
    && 0 <= k && (forall n: nat :: n in d.deltas <==> 1 <= n <= k)
    && Replay(Content(d.copy, store), d.deltas, k).Ok?
  }

  /** Replaying the disk's deltas 1..k on the baseline copy gives these bytes. */
  ghost predicate ReplaysInto(d: Disk, store: Store, k: int, b: seq<byte>) {
    && 0 <= k && (forall n: nat :: n in d.deltas <==> 1 <= n <= k)
    && Replay(Content(d.copy, store), d.deltas, k) == Ok(b)
  }

  ghost predicate ReplaysTo(d: Disk, store: Store, k: int, f: File) { ReplaysInto(d, store, k, Content(f, store)) }

  /** The files in the series directory, whatever the bytes: what every round keeps, also after a final one. */
  ghost predicate FilesOk(d: Disk, s: Series) {
    match s.round
    case NoRound => Holds(d, s.store, s.mem) || Holds(d, s.store, s.mem - 1)
    case Paused(_) => d.next.None? && Holds(d, s.store, s.mem)
    case Captured(final) => (final ==> d.next.None?) && Holds(d, s.store, s.mem - 1)
    case Draining(false) => Holds(d, s.store, s.mem) || (d.next.Some? && Holds(d, s.store, s.mem - 1))
    case Draining(true) => d.next.None? && (Holds(d, s.store, s.mem) || Holds(d, s.store, s.mem - 1))
  }

  ghost predicate TailsOk(d: Disk, store: Store) {
    && TailReadsZero(d.live, store) && TailReadsZero(Reference(d), store)
    && (d.next.Some? ==> TailReadsZero(d.next.value, store))
  }

  /** Before a final round: the deltas lead to the reference, or to the next one once its delta is written. */
  ghost predicate ChainOk(d: Disk, s: Series) {
    || (d.next.None? && ReplaysTo(d, s.store, s.mem, Reference(d)))
    || ReplaysTo(d, s.store, s.mem - 1, Reference(d))
    || (d.next.Some? && ReplaysTo(d, s.store, s.mem, d.next.value))
  }

  /** The bytes the deltas lead to, up to the first round after a final one; w is what the final round saw. */
  ghost predicate BytesOk(d: Disk, w: seq<byte>, s: Series) {
    match s.round
    case NoRound =>
      && (!s.finalTaken ==> ChainOk(d, s))
      && (s.finalTaken ==> ReplaysTo(d, s.store, s.mem - 1, Reference(d)) || ReplaysInto(d, s.store, s.mem, w))
      && (s.finished ==> ReplaysInto(d, s.store, s.mem, w))
      && (s.finished && s.paused ==> w == Content(d.live, s.store))
    case Paused(_) => d.next.None? && ReplaysTo(d, s.store, s.mem, Reference(d))
    case Captured(final) =>
      && (final ==> d.next.None? && w == Content(d.live, s.store)) && ReplaysTo(d, s.store, s.mem - 1, Reference(d))
    case Draining(false) =>
      || (d.next.None? && ReplaysTo(d, s.store, s.mem, Reference(d)))
      || (d.next.Some? && ReplaysTo(d, s.store, s.mem - 1, Reference(d)))
      || (d.next.Some? && ReplaysTo(d, s.store, s.mem, d.next.value))
    case Draining(true) =>
      && d.next.None? && w == Content(d.live, s.store)
      && (ReplaysTo(d, s.store, s.mem - 1, Reference(d)) || ReplaysInto(d, s.store, s.mem, w))
  }

  ghost predicate DiskOk(d: Disk, w: seq<byte>, s: Series) {
    TailsOk(d, s.store) && FilesOk(d, s) && (!s.stale ==> BytesOk(d, w, s))
  }

  ghost predicate RoundOk(s: Series) {
    && (s.round.Paused? || s.round.Captured? || s.round == Draining(true) ==> s.paused)
    && (s.round != NoRound ==> !s.finished)
    && (s.finished || s.stale || ((s.round.Captured? || s.round.Draining?) && s.round.final) ==> s.finalTaken)
    && (!s.stale && s.round != NoRound ==> s.finalTaken == (s.round.final && !s.round.Paused?))
    && |s.was| == |s.disks|
  }

  ghost predicate Inv(s: Series) { RoundOk(s) && forall i | 0 <= i < |s.disks| :: DiskOk(s.disks[i], s.was[i], s) }

  lemma SameContent(f: File, before: Store, after: Store)
    requires Untouched(f, before, after)
    ensures Content(f, after) == Content(f, before)
    ensures TailReadsZero(f, before) ==> TailReadsZero(f, after)
  {
    assert forall q | f.size <= q :: ByteAt(f, after, q) == ByteAt(f, before, q);
  }

  lemma GuestKeepsReplay(d: Disk, before: Store, after: Store, live: File, k: int)
    requires Untouched(d.copy, before, after)
    ensures Holds(d, before, k) ==> Holds(d.(live := live), after, k)
    ensures forall b | ReplaysInto(d, before, k, b) :: ReplaysInto(d.(live := live), after, k, b)
    ensures forall f | Untouched(f, before, after) && ReplaysTo(d, before, k, f) ::
              ReplaysTo(d.(live := live), after, k, f)
  {
    SameContent(d.copy, before, after);
    forall f | Untouched(f, before, after) ensures Content(f, after) == Content(f, before) {
      SameContent(f, before, after);
    }
  }

  lemma GuestKeepsDisk(d: Disk, w: seq<byte>, s: Series, t: Series, live: File)
    requires RoundOk(s) && DiskOk(d, w, s) && !s.paused
    requires t == s.(store := t.store, disks := t.disks)
    requires TailReadsZero(live, t.store)
    requires Untouched(d.copy, s.store, t.store) && Untouched(Reference(d), s.store, t.store)
    requires d.next.Some? ==> Untouched(d.next.value, s.store, t.store)
    ensures DiskOk(d.(live := live), w, t)
  {
    SameContent(Reference(d), s.store, t.store);
    if d.next.Some? { SameContent(d.next.value, s.store, t.store); }
    GuestKeepsReplay(d, s.store, t.store, live, s.mem);
    GuestKeepsReplay(d, s.store, t.store, live, s.mem - 1);
  }

  lemma GuestKeepsInv(s: Series, live: seq<File>, store: Store)
    requires Inv(s) && Enabled(s, Guest(live, store))
    ensures Inv(Apply(s, Guest(live, store)))
  {
    var t := Apply(s, Guest(live, store));
    forall i | 0 <= i < |t.disks| ensures DiskOk(t.disks[i], t.was[i], t) {
      GuestKeepsDisk(s.disks[i], s.was[i], s, t, live[i]);
    }
  }

  /** The disk with one more delta. */
  function WithDelta(d: Disk, n: nat, delta: Delta): Disk { d.(deltas := d.deltas[n := delta]) }

  /** The new delta takes the replayed bytes from the reference to the round's target. */
  lemma NewDeltaReplays(d: Disk, store: Store, n: nat, delta: Delta, target: File)
    requires n >= 1 && Holds(d, store, n - 1) && IsDelta(delta, Reference(d), target, store)
    ensures Holds(WithDelta(d, n, delta), store, n)
    ensures ReplaysTo(d, store, n - 1, Reference(d)) && TailReadsZero(Reference(d), store) ==>
              ReplaysTo(WithDelta(d, n, delta), store, n, target)
  {
    var b := Replay(Content(d.copy, store), d.deltas, n - 1).value;
    var r := ApplyDelta(b, delta);
    assert Replay(Content(d.copy, store), d.deltas[n := delta], n) == r by {
      ReplayNext(Content(d.copy, store), d.deltas, n, delta, b, r);
    }
    assert r.Ok? by { ApplyIsExact(b, delta, Reference(d), target, store); }
    if ReplaysTo(d, store, n - 1, Reference(d)) && TailReadsZero(Reference(d), store) {
      assert r == Ok(Content(target, store)) by { DeltaOntoReference(delta, Reference(d), target, store); }
    }
  }

  /** One disk changed: the others keep what they had. */
  lemma OthersKeep(s: Series, t: Series, i: nat)
    requires Inv(s) && i < |s.disks| && RoundOk(t)
    requires t == s.(disks := t.disks) && |t.disks| == |s.disks| && t.disks == s.disks[i := t.disks[i]]
    requires DiskOk(t.disks[i], s.was[i], t)
    ensures Inv(t)
  {
    forall j | 0 <= j < |t.disks| ensures DiskOk(t.disks[j], t.was[j], t) {
      if j != i {
        StaysOk(s.disks[j], s.was[j], s, t);
      }
    }
  }

  lemma StaysOk(d: Disk, w: seq<byte>, s: Series, t: Series)
    requires DiskOk(d, w, s) && t == s.(disks := t.disks)
    ensures DiskOk(d, w, t)
  {
  }

  lemma WriteDeltaKeepsDisk(d: Disk, w: seq<byte>, s: Series, t: Series, delta: Delta)
    requires DiskOk(d, w, s) && RoundOk(s) && s.round.Draining? && IsNextRound(d.deltas, s.mem)
    requires IsDelta(delta, Reference(d), Target(d, s.round.final), s.store) && t == s.(disks := t.disks)
    ensures DiskOk(WithDelta(d, s.mem, delta), w, t)
  {
    assert s.mem !in d.deltas && s.mem >= 1;
    assert Holds(d, s.store, s.mem - 1);
    NewDeltaReplays(d, s.store, s.mem, delta, Target(d, s.round.final));
  }

  lemma WriteDeltaKeepsInv(s: Series, i: nat, delta: Delta)
    requires Inv(s) && Enabled(s, WriteDelta(i, delta))
    ensures Inv(Apply(s, WriteDelta(i, delta)))
  {
    var t := Apply(s, WriteDelta(i, delta));
    WriteDeltaKeepsDisk(s.disks[i], s.was[i], s, t, delta);
    OthersKeep(s, t, i);
  }

  lemma MoveRefKeepsInv(s: Series, i: nat)
    requires Inv(s) && Enabled(s, MoveRef(i))
    ensures Inv(Apply(s, MoveRef(i)))
  {
    var t, d := Apply(s, MoveRef(i)), s.disks[i];
    assert DiskOk(d, s.was[i], s);
    assert s.mem + 1 !in d.deltas && (s.mem >= 1 ==> s.mem in d.deltas);
    OthersKeep(s, t, i);
  }

  /** A disk in step holds exactly the deltas of the memory's round. */
  lemma InStepHolds(d: Disk, w: seq<byte>, s: Series)
    requires DiskOk(d, w, s) && IsNextRound(d.deltas, s.mem + 1) && d.next == None
    requires s.round == NoRound || s.round.Draining?
    ensures Holds(d, s.store, s.mem)
    ensures !s.stale ==>
              && (s.round == NoRound && !s.finalTaken ==> ReplaysTo(d, s.store, s.mem, Reference(d)))
              && (s.round == NoRound && s.finalTaken ==> ReplaysInto(d, s.store, s.mem, w))
              && (s.round == Draining(false) ==> ReplaysTo(d, s.store, s.mem, Reference(d)))
              && (s.round == Draining(true) ==> ReplaysInto(d, s.store, s.mem, w))
  {
    assert s.mem >= 1 ==> s.mem in d.deltas;
  }

  lemma PhaseStepKeepsInv(s: Series, st: Step)
    requires Inv(s) && Enabled(s, st)
    requires st.Begin? || st.MemoryDiff? || st.LeavePause? || st.Finish? || st.Die? || st.ResumeGuest?
    ensures Inv(Apply(s, st))
  {
    var t := Apply(s, st);
    forall j | 0 <= j < |t.disks| ensures DiskOk(t.disks[j], t.was[j], t) {
      assert DiskOk(s.disks[j], s.was[j], s) && t.disks[j] == s.disks[j];
      if st.Begin? || st.Finish? {
        InStepHolds(s.disks[j], s.was[j], s);
      }
    }
  }

  lemma FreezeKeepsInv(s: Series, i: nat)
    requires Inv(s) && Enabled(s, Freeze(i))
    ensures Inv(Apply(s, Freeze(i)))
  {
    assert DiskOk(s.disks[i], s.was[i], s);
    OthersKeep(s, Apply(s, Freeze(i)), i);
  }

  lemma StepKeepsInv(s: Series, st: Step)
    requires Inv(s) && Enabled(s, st)
    ensures Inv(Apply(s, st))
  {
    match st
    case Guest(live, store) => GuestKeepsInv(s, live, store);
    case WriteDelta(i, d) => WriteDeltaKeepsInv(s, i, d);
    case MoveRef(i) => MoveRefKeepsInv(s, i);
    case Freeze(i) => FreezeKeepsInv(s, i);
    case _ => PhaseStepKeepsInv(s, st);
  }

  lemma {:induction false} RunKeepsInv(s: Series, run: seq<Step>)
    requires Inv(s) && Legal(s, run)
    ensures Inv(After(s, run))
    decreases |run|
  {
    if run != [] {
      StepKeepsInv(s, run[0]);
      RunKeepsInv(Apply(s, run[0]), run[1..]);
    }
  }

  lemma BaselineInv(s: Series)
    requires IsBaseline(s)
    ensures Inv(s)
  {
    forall i | 0 <= i < |s.disks| ensures DiskOk(s.disks[i], s.was[i], s) {
      assert ReplaysTo(s.disks[i], s.store, 0, Reference(s.disks[i]));
    }
  }

  // ----- the series' promises, over every run

  /** The bytes the disk's chain leads to. */
  function Chain(d: Disk, store: Store, n: nat): Result<seq<byte>> { Replay(Content(d.copy, store), d.deltas, n) }

  /**
    When the series' first final round has completed and the guest is still paused, every disk replays to the live disk.
  */
  lemma MigrationIsExact(s: Series, run: seq<Step>)
    requires IsBaseline(s) && Legal(s, run)
    ensures var t := After(s, run);
            t.finished && t.paused && !t.stale ==>
              forall i | 0 <= i < |t.disks| ::
                Chain(t.disks[i], t.store, t.mem) == Ok(Content(t.disks[i].live, t.store))
  {
    BaselineInv(s);
    RunKeepsInv(s, run);
    var t := After(s, run);
    forall i | 0 <= i < |t.disks| && t.finished && t.paused && !t.stale
      ensures Chain(t.disks[i], t.store, t.mem) == Ok(Content(t.disks[i].live, t.store))
    {
      assert DiskOk(t.disks[i], t.was[i], t);
    }
  }

  /**
    However captures died, final ones included, the next one refuses unless memory and every disk stand at one completed
    round. The chains a capture that may begin starts from equal their references before any final round, and after the
    first one exactly what the disks held at its pause.
  */
  lemma DeadRoundIsDetected(s: Series, run: seq<Step>)
    requires IsBaseline(s) && Legal(s, run)
    ensures var t := After(s, run);
            t.round == NoRound && InStep(t) ==>
              |t.was| == |t.disks| &&
              forall i | 0 <= i < |t.disks| ::
                && t.disks[i].next == None && (forall n: nat :: n in t.disks[i].deltas <==> 1 <= n <= t.mem)
                && Chain(t.disks[i], t.store, t.mem).Ok?
                && (!t.finalTaken ==> Chain(t.disks[i], t.store, t.mem) == Ok(Content(Reference(t.disks[i]), t.store)))
                && (t.finalTaken && !t.stale ==> Chain(t.disks[i], t.store, t.mem) == Ok(t.was[i]))
  {
    BaselineInv(s);
    RunKeepsInv(s, run);
    var t := After(s, run);
    if t.round == NoRound && InStep(t) {
      forall i | 0 <= i < |t.disks|
        ensures Holds(t.disks[i], t.store, t.mem)
        ensures !t.finalTaken ==> ReplaysTo(t.disks[i], t.store, t.mem, Reference(t.disks[i]))
        ensures t.finalTaken && !t.stale ==> ReplaysInto(t.disks[i], t.store, t.mem, t.was[i])
      {
        assert DiskOk(t.disks[i], t.was[i], t);
        InStepHolds(t.disks[i], t.was[i], t);
      }
    }
  }

  /**
    The exact condition for one more delta on any chain, whatever bytes it leads to: the longer chain leads to the
    target if and only if the shorter one agrees with it wherever the reference shares its storage.
  */
  lemma RoundAfterFinalIsExactWhen(d: Disk, store: Store, n: nat, was: seq<byte>, target: File, delta: Delta)
    requires n >= 1 && Chain(d, store, n - 1) == Ok(was) && IsDelta(delta, Reference(d), target, store)
    ensures Chain(WithDelta(d, n, delta), store, n) == Ok(Content(target, store))
            <==> AgreesOnShared(was, Reference(d), target, store)
  {
    var r := ApplyDelta(was, delta);
    assert Replay(Content(d.copy, store), d.deltas[n := delta], n) == r by {
      ReplayNext(Content(d.copy, store), d.deltas, n, delta, was, r);
    }
    assert r == Ok(Content(target, store)) <==> AgreesOnShared(was, Reference(d), target, store) by {
      ApplyIsExact(was, delta, Reference(d), target, store);
    }
  }

  /** A round that is about to write a disk's delta finds the deltas before it, and they replay. */
  lemma ChainFound(s: Series, i: nat, delta: Delta)
    requires Inv(s) && Enabled(s, WriteDelta(i, delta))
    ensures s.mem >= 1 && Chain(s.disks[i], s.store, s.mem - 1).Ok?
  {
    assert DiskOk(s.disks[i], s.was[i], s);
    assert s.mem !in s.disks[i].deltas && s.mem >= 1;
    assert Holds(s.disks[i], s.store, s.mem - 1);
  }

  /** The chain leads to some bytes, and with the delta to the target if and only if those agree on shared storage. */
  ghost predicate ExactWhen(d: Disk, store: Store, n: nat, target: File, delta: Delta) {
    && n >= 1 && Chain(d, store, n - 1).Ok?
    && (Chain(WithDelta(d, n, delta), store, n) == Ok(Content(target, store))
        <==> AgreesOnShared(Chain(d, store, n - 1).value, Reference(d), target, store))
  }

  lemma DeltaIsExactWhen(t: Series, i: nat, delta: Delta)
    requires Inv(t) && Enabled(t, WriteDelta(i, delta))
    ensures ExactWhen(t.disks[i], t.store, t.mem, Target(t.disks[i], t.round.final), delta)
  {
    ChainFound(t, i, delta);
    var d, target := t.disks[i], Target(t.disks[i], t.round.final);
    RoundAfterFinalIsExactWhen(d, t.store, t.mem, Chain(d, t.store, t.mem - 1).value, target, delta);
  }

  /**
    Over every run, also after final rounds: the delta a round is about to write makes its disk exact if and only if the
    chain it found agrees with the round's target on the storage they share.
  */
  lemma EveryDeltaIsExactWhen(s: Series, run: seq<Step>, i: nat, delta: Delta)
    requires IsBaseline(s) && Legal(s, run) && Enabled(After(s, run), WriteDelta(i, delta))
    ensures var t := After(s, run);
            && Apply(t, WriteDelta(i, delta)).disks[i] == WithDelta(t.disks[i], t.mem, delta)
            && ExactWhen(t.disks[i], t.store, t.mem, Target(t.disks[i], t.round.final), delta)
  {
    BaselineInv(s);
    RunKeepsInv(s, run);
    DeltaIsExactWhen(After(s, run), i, delta);
  }

  // ----- a series whose second final round is wrong

  ghost predicate Reached(s: Series, t: Series) { exists run :: Legal(s, run) && After(s, run) == t }

  lemma {:induction false} AfterSnoc(s: Series, run: seq<Step>, st: Step)
    requires Legal(s, run) && Enabled(After(s, run), st)
    ensures Legal(s, run + [st]) && After(s, run + [st]) == Apply(After(s, run), st)
    decreases |run|
  {
    if run == [] {
      assert run + [st] == [st] && [st][1..] == [];
    } else {
      AfterSnoc(Apply(s, run[0]), run[1..], st);
      assert (run + [st])[1..] == run[1..] + [st];
    }
  }

  lemma Go(s: Series, t: Series, st: Step) returns (u: Series)
    requires Reached(s, t) && Enabled(t, st)
    ensures u == Apply(t, st) && Reached(s, u)
  {
    var run :| Legal(s, run) && After(s, run) == t;
    AfterSnoc(s, run, st);
    u := Apply(t, st);
  }

  /** A series of one disk that stands at round n. */
  ghost predicate AtRound(s: Series, d: Disk, n: nat) {
    && s.round == NoRound && s.disks == [d] && d.next == None && s.mem == n
    && forall k: nat :: k in d.deltas <==> 1 <= k <= n
  }

  /** A final round of one disk up to its delta. */
  lemma FinalRoundBegins(s: Series, t: Series, d: Disk, n: nat) returns (u: Series)
    requires Reached(s, t) && AtRound(t, d, n)
    ensures Reached(s, u) && u.round == Draining(true) && u.disks == [d] && u.mem == n + 1
    ensures u.store == t.store && u.paused && u.finalTaken && u.stale == (t.stale || t.finalTaken)
  {
    assert t.disks[0] == d;
    u := Go(s, t, Begin(true));
    u := Go(s, u, MemoryDiff);
    u := Go(s, u, LeavePause);
  }

  /** A final round of one disk, from begin to finish. */
  lemma FinalRound(s: Series, t: Series, d: Disk, n: nat, delta: Delta) returns (u: Series)
    requires Reached(s, t) && AtRound(t, d, n) && IsDelta(delta, Reference(d), d.live, t.store)
    ensures Reached(s, u) && AtRound(u, d.(deltas := d.deltas[n + 1 := delta]), n + 1)
    ensures u.store == t.store && u.paused && u.finished && u.finalTaken && u.stale == (t.stale || t.finalTaken)
  {
    u := FinalRoundBegins(s, t, d, n);
    assert u.disks[0] == d;
    u := Go(s, u, WriteDelta(0, delta));
    assert u.disks == [d.(deltas := d.deltas[n + 1 := delta])];
    u := Go(s, u, Finish);
  }

  /** A round that is not final, of one disk, up to its delta: the live disk is frozen and the guest let go. */
  lemma MovingRoundBegins(s: Series, t: Series, d: Disk, n: nat) returns (u: Series)
    requires Reached(s, t) && AtRound(t, d, n)
    ensures Reached(s, u) && u.round == Draining(false) && u.disks == [d.(next := Some(d.live))] && u.mem == n + 1
    ensures u.store == t.store && !u.paused && u.finalTaken == t.finalTaken
  {
    assert t.disks[0] == d;
    u := Go(s, t, Begin(false));
    u := Go(s, u, MemoryDiff);
    u := Go(s, u, Freeze(0));
    assert u.disks == [d.(next := Some(d.live))];
    u := Go(s, u, LeavePause);
  }

  /** Such a round, from begin to finish, ends with the frozen disk as the reference and its delta as the last file. */
  lemma MovingRound(s: Series, t: Series, d: Disk, n: nat, delta: Delta) returns (u: Series)
    requires Reached(s, t) && AtRound(t, d, n) && IsDelta(delta, Reference(d), d.live, t.store)
    ensures Reached(s, u) && AtRound(u, d.(ref := Some(d.live), deltas := d.deltas[n + 1 := delta]), n + 1)
    ensures u.store == t.store && !u.paused && u.finalTaken == t.finalTaken
  {
    u := MovingRoundBegins(s, t, d, n);
    assert u.disks[0] == d.(next := Some(d.live));
    u := Go(s, u, WriteDelta(0, delta));
    assert u.disks == [d.(next := Some(d.live), deltas := d.deltas[n + 1 := delta])];
    u := Go(s, u, MoveRef(0));
    assert u.disks == [d.(ref := Some(d.live), deltas := d.deltas[n + 1 := delta])];
    u := Go(s, u, Finish);
  }

  /** The guest, resumed, turns the one disk into another file over the same storage. */
  lemma GuestRewrites(s: Series, t: Series, d: Disk, n: nat, live: File) returns (u: Series)
    requires Reached(s, t) && AtRound(t, d, n) && TailReadsZero(live, t.store)
    ensures Reached(s, u) && AtRound(u, d.(live := live), n)
    ensures u.store == t.store && u.finalTaken == t.finalTaken && u.stale == t.stale
  {
    u := Go(s, t, ResumeGuest);
    assert u.disks[0] == d;
    u := Go(s, u, Guest([live], t.store));
    assert u.disks == [d.(live := live)];
  }

  const SEVENS: Store := (x: int) => 7
  const HOLEY := File(1, [])
  const FULL := File(1, [Extent(0, 0, 1, false)])
  const FILL := Delta(1, [Range(0, 1, false)], [7])
  const NOTHING := Delta(1, [], [])

  lemma OneByteDeltas()
    ensures IsDelta(FILL, HOLEY, FULL, SEVENS) && IsDelta(NOTHING, HOLEY, HOLEY, SEVENS)
    ensures Content(FULL, SEVENS) == [7] && Content(HOLEY, SEVENS) == [0]
    ensures TailReadsZero(FULL, SEVENS) && TailReadsZero(HOLEY, SEVENS)
  {
    assert Content(FULL, SEVENS) == [7] && Content(HOLEY, SEVENS) == [0];
    assert Covers(FILL.ranges[0], 0);
    assert ExactAt(FILL.ranges, HOLEY.extents, FULL.extents, 0);
    assert DataEnd(FILL.ranges, 0) == 0 && PartAt(FILL.data, FILL.ranges, [7], 0);
    assert ExactAt(NOTHING.ranges, HOLEY.extents, HOLEY.extents, 0);
    forall q | FULL.size <= q ensures ByteAt(FULL, SEVENS, q) == 0 {
      assert MapAt(FULL.extents[1..], q) == HOLE;
    }
  }

  /**
    A final round leaves its reference unmoved, so one more round on the same series can be wrong: here a byte is
    filled, captured by a final round, punched out by the resumed guest, and the next final round, which finds nothing
    changed against the stale reference, leaves it filled.
  */
  lemma RoundAfterFinalCanBeWrong() returns (s: Series, t: Series)
    ensures IsBaseline(s) && Reached(s, t) && t.finished && t.paused && |t.disks| == 1
    ensures Chain(t.disks[0], t.store, t.mem) == Ok([7]) && Content(t.disks[0].live, t.store) == [0]
  {
    OneByteDeltas();
    var d := Disk(HOLEY, HOLEY, None, None, map[]);
    s := Series(SEVENS, [d], 0, false, NoRound, false, Contents([d], SEVENS), false, false);
    assert Legal(s, []) && After(s, []) == s;
    t := GuestRewrites(s, s, d, 0, FULL);
    t := FinalRound(s, t, d.(live := FULL), 0, FILL);
    var e := d.(live := FULL, deltas := map[1 := FILL]);
    t := GuestRewrites(s, t, e, 1, HOLEY);
    t := FinalRound(s, t, e.(live := HOLEY), 1, NOTHING);
    WrongBytes(t.disks[0].deltas);
  }

  lemma WrongBytes(deltas: map<nat, Delta>)
    requires deltas == map[1 := FILL][2 := NOTHING]
    ensures Replay([0], deltas, 2) == Ok([7])
  {
    OneByteDeltas();
    DeltaOntoReference(FILL, HOLEY, FULL, SEVENS);
    assert Replay([0], deltas, 0) == Ok([0]);
    assert Replay([0], deltas, 1) == Ok([7]);
    assert Resized([7], 1) == [7];
  }
}
