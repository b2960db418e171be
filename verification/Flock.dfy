/**
  The transient file lock and the shared lease of lock/flock, as steps of any number
  of processes over inodes, open file descriptions and one path binding.

  A `Locker` is one `Lock` object: its control state is that of the goroutine holding
  the object's channel token, so `Idle` means the token is free.  A lease has no such
  object; its open file description carries the whole state.
*/
module Flock {
  import opened Common

  type Proc = nat
  type Ino = nat
  type Fd = nat
  type LockId = nat

  datatype Mode = Free | Shared | Exclusive

  /** `bound` is set by a successful bind-check and cleared when the holder starts its release. */
  datatype Ofd = Ofd(ino: Ino, mode: Mode, procs: set<Proc>, owner: Option<LockId>, bound: bool)

  datatype Pc = Idle | Queued | Opened(fd: Fd) | Flocked(fd: Fd) | Held(fd: Fd) | Unlinked(fd: Fd)

  datatype Locker = Locker(proc: Proc, pc: Pc)

  /** `transient` selects NewTransient over New for every lock on this path. */
  datatype Sys = Sys(transient: bool, path: Option<Ino>, ofds: map<Fd, Ofd>, lockers: map<LockId, Locker>)

  datatype Step =
    | NewLock(l: LockId, p: Proc)
    | TakeToken(l: LockId)
    | LockOpen(l: LockId, fd: Fd, ino: Ino)
    | LockFlock(l: LockId)
    | GiveUp(l: LockId)
    | BindOk(l: LockId)
    | BindStale(l: LockId, retry: bool)
    | Unlink(l: LockId)
    | UnlinkFails(l: LockId)
    | Funlock(l: LockId)
    | LeaseOpen(p: Proc, fd: Fd, ino: Ino)
    | LeaseFlock(fd: Fd)
    | LeaseBind(fd: Fd)
    | Inherit(fd: Fd, child: Proc)
    | CloseCopy(fd: Fd, p: Proc)
    | Crash(p: Proc)

  /** open(O_CREATE) yields the bound inode, or a fresh one when the path is gone. */
  predicate OpensAs(s: Sys, fd: Fd, ino: Ino) {
    && fd !in s.ofds
    && match s.path
       case Some(i) => i == ino
       case None => forall o | o in s.ofds :: s.ofds[o].ino != ino
  }

  /** The kernel grants `mode` on `fd` beside every other lock on the same inode. */
  predicate Grants(s: Sys, fd: Fd, mode: Mode)
    requires fd in s.ofds
  {
    forall o | o in s.ofds && o != fd && s.ofds[o].ino == s.ofds[fd].ino ::
      s.ofds[o].mode == Free || (mode == Shared && s.ofds[o].mode == Shared)
  }

  /** BoundToPath: the inode behind the descriptor is the one the path names now. */
  predicate BoundToPath(s: Sys, fd: Fd)
    requires fd in s.ofds
  {
    s.path == Some(s.ofds[fd].ino)
  }

  predicate Enabled(s: Sys, st: Step) {
    match st
    case NewLock(l, _) => l !in s.lockers
    case TakeToken(l) => l in s.lockers && s.lockers[l].pc == Idle
    case LockOpen(l, fd, ino) => l in s.lockers && s.lockers[l].pc == Queued && OpensAs(s, fd, ino)
    case LockFlock(l) =>
      && l in s.lockers && s.lockers[l].pc.Opened? && s.lockers[l].pc.fd in s.ofds
      && Grants(s, s.lockers[l].pc.fd, Exclusive)
    case GiveUp(l) => l in s.lockers && (s.lockers[l].pc.Queued? || s.lockers[l].pc.Opened?)
    case BindOk(l) =>
      && l in s.lockers && s.lockers[l].pc.Flocked? && s.lockers[l].pc.fd in s.ofds
      && (s.transient ==> BoundToPath(s, s.lockers[l].pc.fd))
    // A failed stat reads as stale too, so staleness is not tied to the binding.
    case BindStale(l, _) => s.transient && l in s.lockers && s.lockers[l].pc.Flocked?
    case Unlink(l) => s.transient && l in s.lockers && s.lockers[l].pc.Held? && s.lockers[l].pc.fd in s.ofds
    case UnlinkFails(l) => s.transient && l in s.lockers && s.lockers[l].pc.Held? && s.lockers[l].pc.fd in s.ofds
    case Funlock(l) =>
      l in s.lockers && (s.lockers[l].pc.Unlinked? || (!s.transient && s.lockers[l].pc.Held?))
    case LeaseOpen(_, fd, ino) => OpensAs(s, fd, ino)
    case LeaseFlock(fd) =>
      fd in s.ofds && s.ofds[fd].owner == None && s.ofds[fd].mode == Free && Grants(s, fd, Shared)
    case LeaseBind(fd) =>
      fd in s.ofds && s.ofds[fd].owner == None && s.ofds[fd].mode == Shared && BoundToPath(s, fd)
    case Inherit(fd, _) => fd in s.ofds && s.ofds[fd].owner == None && s.ofds[fd].bound
    case CloseCopy(fd, p) => fd in s.ofds && s.ofds[fd].owner == None && p in s.ofds[fd].procs
    case Crash(_) => true
  }

  function At(s: Sys, l: LockId, pc: Pc): Sys
    requires l in s.lockers
  {
    s.(lockers := s.lockers[l := s.lockers[l].(pc := pc)])
  }

  function Drop(s: Sys, fd: Fd): Sys { s.(ofds := s.ofds - {fd}) }

  /** A process that dies loses every descriptor copy; a description with no copy left is closed. */
  function ClosedBy(ofds: map<Fd, Ofd>, p: Proc): map<Fd, Ofd> {
    map o | o in ofds && ofds[o].procs - {p} != {} :: ofds[o].(procs := ofds[o].procs - {p})
  }

  function Released(s: Sys, l: LockId): Sys
    requires l in s.lockers
  {
    var pc := s.lockers[l].pc;
    At(if pc.Idle? || pc.Queued? then s else Drop(s, pc.fd), l, Idle)
  }

  function Apply(s: Sys, st: Step): Sys
    requires Enabled(s, st)
  {
    match st
    case NewLock(l, p) => s.(lockers := s.lockers[l := Locker(p, Idle)])
    case TakeToken(l) => At(s, l, Queued)
    case LockOpen(l, fd, ino) =>
      At(s, l, Opened(fd)).(path := Some(ino),
                            ofds := s.ofds[fd := Ofd(ino, Free, {s.lockers[l].proc}, Some(l), false)])
    case LockFlock(l) =>
      var fd := s.lockers[l].pc.fd;
      At(s, l, Flocked(fd)).(ofds := s.ofds[fd := s.ofds[fd].(mode := Exclusive)])
    case GiveUp(l) => Released(s, l)
    case BindOk(l) =>
      var fd := s.lockers[l].pc.fd;
      At(s, l, Held(fd)).(ofds := s.ofds[fd := s.ofds[fd].(bound := true)])
    case BindStale(l, retry) =>
      var d := Drop(s, s.lockers[l].pc.fd);
      At(d, l, if retry then Queued else Idle)
    case Unlink(l) =>
      var fd := s.lockers[l].pc.fd;
      At(s, l, Unlinked(fd)).(path := None, ofds := s.ofds[fd := s.ofds[fd].(bound := false)])
    case UnlinkFails(l) =>
      var fd := s.lockers[l].pc.fd;
      At(s, l, Unlinked(fd)).(ofds := s.ofds[fd := s.ofds[fd].(bound := false)])
    case Funlock(l) => Released(s, l)
    case LeaseOpen(p, fd, ino) =>
      s.(path := Some(ino), ofds := s.ofds[fd := Ofd(ino, Free, {p}, None, false)])
    case LeaseFlock(fd) => s.(ofds := s.ofds[fd := s.ofds[fd].(mode := Shared)])
    case LeaseBind(fd) => s.(ofds := s.ofds[fd := s.ofds[fd].(bound := true)])
    case Inherit(fd, child) => s.(ofds := s.ofds[fd := s.ofds[fd].(procs := s.ofds[fd].procs + {child})])
    case CloseCopy(fd, p) =>
      if s.ofds[fd].procs == {p} then Drop(s, fd)
      else s.(ofds := s.ofds[fd := s.ofds[fd].(procs := s.ofds[fd].procs - {p})])
    case Crash(p) =>
      s.(ofds := ClosedBy(s.ofds, p),
         lockers := map l | l in s.lockers ::
           if s.lockers[l].proc == p then s.lockers[l].(pc := Idle) else s.lockers[l])
  }

  predicate Legal(s: Sys, run: seq<Step>)
    decreases |run|
  {
    run == [] || (Enabled(s, run[0]) && Legal(Apply(s, run[0]), run[1..]))
  }

  function After(s: Sys, run: seq<Step>): Sys
    requires Legal(s, run)
    decreases |run|
  {
    if run == [] then s else After(Apply(s, run[0]), run[1..])
  }

  function Init(transient: bool): Sys { Sys(transient, None, map[], map[]) }

  // ----- what every step keeps

  ghost predicate LockersOk(s: Sys) {
    forall l | l in s.lockers && !s.lockers[l].pc.Idle? && !s.lockers[l].pc.Queued? ::
      && s.lockers[l].pc.fd in s.ofds
      && var o := s.ofds[s.lockers[l].pc.fd];
      && o.owner == Some(l)
      && o.procs == {s.lockers[l].proc}
      && o.mode == (if s.lockers[l].pc.Opened? then Free else Exclusive)
      && o.bound == s.lockers[l].pc.Held?
  }

  ghost predicate OfdsOk(s: Sys) {
    forall fd | fd in s.ofds ::
      && s.ofds[fd].procs != {}
      && (s.ofds[fd].bound ==> s.ofds[fd].mode != Free && s.path == Some(s.ofds[fd].ino))
      && (!s.transient ==> s.path == Some(s.ofds[fd].ino))
      && match s.ofds[fd].owner
         case Some(l) =>
           l in s.lockers && !s.lockers[l].pc.Idle? && !s.lockers[l].pc.Queued? && s.lockers[l].pc.fd == fd
         case None => s.ofds[fd].mode != Exclusive
  }

  ghost predicate Compatible(s: Sys) {
    forall a, b | a in s.ofds && b in s.ofds && a != b && s.ofds[a].ino == s.ofds[b].ino ::
      s.ofds[a].mode == Exclusive ==> s.ofds[b].mode == Free
  }

  ghost predicate Inv(s: Sys) { LockersOk(s) && OfdsOk(s) && Compatible(s) }

  // ----- what the lock promises

  /** Verified exclusive holders: between their bind-check and their own unlink. */
  ghost predicate Holds(s: Sys, l: LockId) {
    l in s.lockers && s.lockers[l].pc.Held?
  }

  /** A verified lease some process still has a copy of. */
  ghost predicate Leased(s: Sys, fd: Fd, p: Proc) {
    fd in s.ofds && s.ofds[fd].owner == None && s.ofds[fd].bound && p in s.ofds[fd].procs
  }

  ghost predicate Exclusion(s: Sys) {
    && (forall a, b | Holds(s, a) && Holds(s, b) :: a == b)
    && (forall a, fd, p | Leased(s, fd, p) :: !Holds(s, a))
  }

  lemma InvImpliesExclusion(s: Sys)
    requires Inv(s)
    ensures Exclusion(s)
  {
    forall a, b | Holds(s, a) && Holds(s, b)
      ensures a == b
    {
      var x, y := s.lockers[a].pc.fd, s.lockers[b].pc.fd;
      assert s.ofds[x].bound && s.ofds[y].bound;
      assert s.ofds[x].ino == s.ofds[y].ino;
    }
    forall a, fd, p | Leased(s, fd, p)
      ensures !Holds(s, a)
    {
    }
  }

  lemma TokenKeepsInv(s: Sys, st: Step)
    requires Inv(s) && Enabled(s, st)
    requires st.NewLock? || st.TakeToken?
    ensures Inv(Apply(s, st))
  {
  }

  lemma LockFlockKeepsInv(s: Sys, l: LockId)
    requires Inv(s) && Enabled(s, LockFlock(l))
    ensures Inv(Apply(s, LockFlock(l)))
  {
    var t := Apply(s, LockFlock(l));
    assert LockersOk(t);
    assert OfdsOk(t);
  }

  lemma BindKeepsInv(s: Sys, st: Step)
    requires Inv(s) && Enabled(s, st)
    requires st.BindOk? || st.UnlinkFails?
    ensures Inv(Apply(s, st))
  {
    var t := Apply(s, st);
    assert Compatible(t);
    assert LockersOk(t);
  }

  lemma ReleaseKeepsInv(s: Sys, st: Step)
    requires Inv(s) && Enabled(s, st)
    requires st.GiveUp? || st.BindStale? || st.Funlock?
    ensures Inv(Apply(s, st))
  {
    var t := Apply(s, st);
    assert Compatible(t);
    assert LockersOk(t);
  }

  lemma OpenKeepsInv(s: Sys, st: Step)
    requires Inv(s) && Enabled(s, st)
    requires st.LockOpen? || st.LeaseOpen?
    ensures Inv(Apply(s, st))
  {
    var t := Apply(s, st);
    assert LockersOk(t);
    assert Compatible(t);
  }

  /** An unlink clears the path, which no other verified descriptor can be bound to. */
  lemma UnlinkKeepsInv(s: Sys, l: LockId)
    requires Inv(s) && Enabled(s, Unlink(l))
    ensures Inv(Apply(s, Unlink(l)))
  {
    var fd := s.lockers[l].pc.fd;
    forall o | o in s.ofds && o != fd ensures !s.ofds[o].bound {
      assert s.ofds[fd].bound;
    }
  }

  lemma LeaseLockKeepsInv(s: Sys, st: Step)
    requires Inv(s) && Enabled(s, st)
    requires st.LeaseFlock? || st.LeaseBind?
    ensures Inv(Apply(s, st))
  {
    var t := Apply(s, st);
    assert LockersOk(t);
    assert OfdsOk(t);
  }

  lemma InheritKeepsInv(s: Sys, fd: Fd, child: Proc)
    requires Inv(s) && Enabled(s, Inherit(fd, child))
    ensures Inv(Apply(s, Inherit(fd, child)))
  {
    var t := Apply(s, Inherit(fd, child));
    assert Compatible(t);
    assert LockersOk(t);
  }

  lemma LastCloseKeepsInv(s: Sys, fd: Fd)
    requires Inv(s) && fd in s.ofds && s.ofds[fd].owner == None
    ensures Inv(Drop(s, fd))
  {
    var t := Drop(s, fd);
    assert Compatible(t);
    assert LockersOk(t);
  }

  lemma CloseCopyKeepsInv(s: Sys, fd: Fd, p: Proc)
    requires Inv(s) && Enabled(s, CloseCopy(fd, p))
    ensures Inv(Apply(s, CloseCopy(fd, p)))
  {
    if s.ofds[fd].procs == {p} {
      LastCloseKeepsInv(s, fd);
    } else {
      var t := Apply(s, CloseCopy(fd, p));
      assert t.ofds[fd].procs != {};
      assert Compatible(t);
      assert LockersOk(t);
    }
  }

  lemma CrashKeepsInv(s: Sys, p: Proc)
    requires Inv(s)
    ensures Inv(Apply(s, Crash(p)))
  {
    var t := Apply(s, Crash(p));
    assert Compatible(t);
    assert LockersOk(t);
    assert OfdsOk(t);
  }

  lemma StepKeepsInv(s: Sys, st: Step)
    requires Inv(s) && Enabled(s, st)
    ensures Inv(Apply(s, st))
  {
    match st
    case GiveUp(_) => ReleaseKeepsInv(s, st);
    case BindStale(_, _) => ReleaseKeepsInv(s, st);
    case Funlock(_) => ReleaseKeepsInv(s, st);
    case LockOpen(_, _, _) => OpenKeepsInv(s, st);
    case LeaseOpen(_, _, _) => OpenKeepsInv(s, st);
    case Unlink(l) => UnlinkKeepsInv(s, l);
    case LeaseFlock(_) => LeaseLockKeepsInv(s, st);
    case LeaseBind(_) => LeaseLockKeepsInv(s, st);
    case Inherit(fd, child) => InheritKeepsInv(s, fd, child);
    case CloseCopy(fd, p) => CloseCopyKeepsInv(s, fd, p);
    case Crash(p) => CrashKeepsInv(s, p);
    case LockFlock(l) => LockFlockKeepsInv(s, l);
    case BindOk(_) => BindKeepsInv(s, st);
    case UnlinkFails(_) => BindKeepsInv(s, st);
    case NewLock(_, _) => TokenKeepsInv(s, st);
    case TakeToken(_) => TokenKeepsInv(s, st);
  }

  lemma {:induction false} RunKeepsInv(s: Sys, run: seq<Step>)
    requires Inv(s) && Legal(s, run)
    ensures Inv(After(s, run))
    decreases |run|
  {
    if run != [] {
      StepKeepsInv(s, run[0]);
      RunKeepsInv(Apply(s, run[0]), run[1..]);
    }
  }

  /** Lock exclusion over every run of any number of processes, leases and crashes. */
  lemma MutualExclusion(transient: bool, run: seq<Step>)
    requires Legal(Init(transient), run)
    ensures Exclusion(After(Init(transient), run))
  {
    RunKeepsInv(Init(transient), run);
    InvImpliesExclusion(After(Init(transient), run));
  }

  /** Whoever unlinks, ReclaimTransient included, unlinks its own inode and nobody else's verified one. */
  lemma UnlinkHitsOnlyOwnFile(transient: bool, run: seq<Step>, l: LockId)
    requires Legal(Init(transient), run)
    requires Enabled(After(Init(transient), run), Unlink(l))
    ensures var s := After(Init(transient), run);
            && s.path == Some(s.ofds[s.lockers[l].pc.fd].ino)
            && (forall o | o in s.ofds && o != s.lockers[l].pc.fd && s.path == Some(s.ofds[o].ino) ::
                  s.ofds[o].mode == Free && !s.ofds[o].bound)
  {
    RunKeepsInv(Init(transient), run);
    var s := After(Init(transient), run);
    assert s.ofds[s.lockers[l].pc.fd].bound;
  }

  /** The unlink removes the path, and the unlock after it closes the file and frees the lock; no other lock changes. */
  lemma ReleaseFreesThePath(run: seq<Step>, l: LockId)
    requires Legal(Init(true), run) && Enabled(After(Init(true), run), Unlink(l))
    ensures var s := After(Init(true), run); var fd := s.lockers[l].pc.fd; var u := Apply(s, Unlink(l));
            && u.path == None && u.lockers == s.lockers[l := Locker(s.lockers[l].proc, Unlinked(fd))]
            && u.ofds.Keys == s.ofds.Keys && (forall o | o in s.ofds && o != fd :: u.ofds[o] == s.ofds[o])
            && Enabled(u, Funlock(l))
            && var t := Apply(u, Funlock(l));
            && t.path == None && t.lockers == s.lockers[l := Locker(s.lockers[l].proc, Idle)]
            && t.ofds == s.ofds - {fd}
  {
    var s := After(Init(true), run);
    var fd := s.lockers[l].pc.fd;
    assert Apply(Apply(s, Unlink(l)), Funlock(l)).ofds == s.ofds - {fd};
  }

  /** A path nobody has locked can be taken by an idle lock: no crash wedges it. */
  lemma FreePathIsTaken(transient: bool, run: seq<Step>, l: LockId, fd: Fd, ino: Ino)
    requires Legal(Init(transient), run)
    requires var s := After(Init(transient), run);
             && l in s.lockers && s.lockers[l].pc == Idle
             && OpensAs(s, fd, ino)
             && (forall o | o in s.ofds :: s.ofds[o].mode == Free)
    ensures var s := After(Init(transient), run);
            var acquire := [TakeToken(l), LockOpen(l, fd, ino), LockFlock(l), BindOk(l)];
            Legal(s, acquire) && Holds(After(s, acquire), l)
  {
    var s := After(Init(transient), run);
    var s1 := Apply(s, TakeToken(l));
    assert s1.ofds == s.ofds && s1.path == s.path;
    var s2 := Apply(s1, LockOpen(l, fd, ino));
    var s3 := Apply(s2, LockFlock(l));
    var s4 := Apply(s3, BindOk(l));
    var acquire := [TakeToken(l), LockOpen(l, fd, ino), LockFlock(l), BindOk(l)];
    assert acquire[1..][1..][1..][1..] == [];
    assert acquire[1..] == [LockOpen(l, fd, ino), LockFlock(l), BindOk(l)];
    assert acquire[1..][1..] == [LockFlock(l), BindOk(l)];
    assert acquire[1..][1..][1..] == [BindOk(l)];
    assert Legal(s4, []) && After(s4, []) == s4;
    assert Legal(s3, [BindOk(l)]) && After(s3, [BindOk(l)]) == s4;
    assert Legal(s2, acquire[1..][1..]) && After(s2, acquire[1..][1..]) == s4;
    assert Legal(s1, acquire[1..]) && After(s1, acquire[1..]) == s4;
    assert After(s, acquire) == s4;
  }

  lemma {:induction false} AfterSnoc(s: Sys, run: seq<Step>, st: Step)
    requires Legal(s, run) && Enabled(After(s, run), st)
    ensures Legal(s, run + [st]) && After(s, run + [st]) == Apply(After(s, run), st)
    decreases |run|
  {
    if run == [] {
      assert run + [st] == [st] && [st][1..] == [];
    } else {
      AfterSnoc(Apply(s, run[0]), run[1..], st);
      assert (run + [st])[1..] == run[1..] + [st];
    }
  }

  lemma Go(s: Sys, run: seq<Step>, st: Step) returns (more: seq<Step>)
    requires Legal(s, run) && Enabled(After(s, run), st)
    ensures Legal(s, more) && After(s, more) == Apply(After(s, run), st)
  {
    AfterSnoc(s, run, st);
    more := run + [st];
  }

  lemma LeaseIsTaken(transient: bool, run: seq<Step>, p: Proc, fd: Fd, ino: Ino) returns (more: seq<Step>)
    requires Legal(Init(transient), run) && OpensAs(After(Init(transient), run), fd, ino)
    requires forall o | o in After(Init(transient), run).ofds :: After(Init(transient), run).ofds[o].mode != Exclusive
    ensures Legal(Init(transient), more)
    ensures var t := After(Init(transient), more);
            fd in t.ofds && t.ofds[fd] == Ofd(ino, Shared, {p}, None, true) && t.path == Some(ino)
  {
    more := Go(Init(transient), run, LeaseOpen(p, fd, ino));
    more := Go(Init(transient), more, LeaseFlock(fd));
    more := Go(Init(transient), more, LeaseBind(fd));
  }

  /**
    On a path nobody holds exclusively a lease can be taken and handed to a child; it outlives its taker's death, locked
    and verified, in the child alone.
  */
  lemma LeaseOutlivesItsTaker(transient: bool, run: seq<Step>, p: Proc, child: Proc, fd: Fd, ino: Ino)
    returns (more: seq<Step>)
    requires Legal(Init(transient), run) && OpensAs(After(Init(transient), run), fd, ino) && p != child
    requires forall o | o in After(Init(transient), run).ofds :: After(Init(transient), run).ofds[o].mode != Exclusive
    ensures Legal(Init(transient), more)
    ensures var t := After(Init(transient), more);
            fd in t.ofds && t.ofds[fd] == Ofd(ino, Shared, {child}, None, true) && t.path == Some(ino)
  {
    more := LeaseIsTaken(transient, run, p, fd, ino);
    more := Go(Init(transient), more, Inherit(fd, child));
    assert After(Init(transient), more).ofds[fd].procs == {p, child};
    more := Go(Init(transient), more, Crash(p));
    assert {p, child} - {p} == {child};
  }

  /** Once every copy of every lock and lease is gone, nothing of them is left behind. */
  lemma CrashReleasesAll(s: Sys, p: Proc)
    requires Inv(s)
    requires forall fd | fd in s.ofds :: s.ofds[fd].procs == {p}
    ensures Apply(s, Crash(p)).ofds == map[]
    ensures forall l | Holds(Apply(s, Crash(p)), l) :: false
  {
    StepKeepsInv(s, Crash(p));
    assert ClosedBy(s.ofds, p).Keys == {};
  }
}
