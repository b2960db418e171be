/**
  One VM's record, metering ledger, VMM and host plumbing under every operation of the
  hypervisor package and the resident supervisor.  Each step is one store commit with the
  entries it stages, or one outside action; an operation is the control state `Pc`, which is
  `Free` exactly when nobody holds the VM's ops lock.  The process running an operation may
  die between any two steps, the VMM may exit at any time, and a write or re-read whose failure
  the code only logs may fail.
*/
module Lifecycle {
  import opened Common

  datatype VMState = Creating | Created | Running | Stopped | Error

  datatype Kind = StorageStart | StorageStop | ComputeStart | ComputeStop

  datatype Reason = Boot | Restart | Clone | Restore | StopUser | StopCrash | VMRemove

  datatype Entry = Entry(kind: Kind, reason: Reason)

  /** `started` and `stopped` say whether StartedAt and StoppedAt are set; `nics` whether the VM owns plumbing. */
  datatype Rec = Rec(
    state: VMState, gen: nat, started: bool, stopped: bool, booted: bool,
    quarantined: bool, pending: bool, nics: bool, cpuSet: string, queueCPUs: string)

  /** The append-only ledger, newest entry outermost. */
  datatype Ledger = Blank | Log(before: Ledger, last: Entry)

  /** The entries one transaction stages, in order. */
  datatype Emits = Nothing | One(a: Entry) | Two(a: Entry, b: Entry) | Three(a: Entry, b: Entry, c: Entry)

  /** A transaction's outcome: the record to write and the entries to publish after the commit. */
  datatype Tx = Tx(rec: Rec, emits: Emits)

  function Publish(l: Ledger, e: Emits): Ledger {
    match e
    case Nothing => l
    case One(a) => Log(l, a)
    case Two(a, b) => Log(Log(l, a), b)
    case Three(a, b, c) => Log(Log(Log(l, a), b), c)
  }

  // ----- the transactions of state.go, supervisor.go, restore.go, create.go, clone.go and placement.go

  predicate HasOpen(r: Rec) { r.started && !r.stopped }

  predicate NeedsDeadConvergence(r: Rec) { r.state != Creating && (r.state == Running || HasOpen(r)) }

  function MarkTransition(r: Rec, state: VMState): Rec {
    var t := r.(state := state, gen := r.gen + 1);
    if state == Stopped then t.(cpuSet := "", queueCPUs := "") else t
  }

  function BootReason(r: Rec): Reason { if r.booted then Restart else Boot }

  function Placeholder(): Rec { Rec(Creating, 0, false, false, false, false, false, false, "", "") }

  function UpdateStopped(r: Rec): Tx {
    var wasUp := HasOpen(r) || r.state == Running;
    Tx(MarkTransition(r, Stopped).(pending := r.nics, stopped := r.stopped || wasUp),
       if HasOpen(r) then One(Entry(ComputeStop, StopUser)) else Nothing)
  }

  function UpdateError(r: Rec): Tx { Tx(MarkTransition(r, Error), Nothing) }

  function QuarantineVM(r: Rec): Tx { Tx(MarkTransition(r, Error).(quarantined := true), Nothing) }

  function MarkStarted(r: Rec): Tx {
    Tx(MarkTransition(r, Running).(started := true, stopped := false, booted := true, pending := false),
       if HasOpen(r) then Two(Entry(ComputeStop, StopCrash), Entry(ComputeStart, BootReason(r)))
       else One(Entry(ComputeStart, BootReason(r))))
  }

  function ReconcileToRunning(r: Rec, dirty: bool): Tx {
    if r.state == Running || r.state == Creating || r.quarantined || dirty then Tx(r, Nothing)
    else
      var up := MarkTransition(r, Running).(stopped := false, pending := false);
      if HasOpen(r) then Tx(up, Nothing)
      else Tx(up.(started := true, booted := true), One(Entry(ComputeStart, BootReason(r))))
  }

  function ConvergeDead(r: Rec, gen: nat): Tx {
    if r.gen != gen || !NeedsDeadConvergence(r) then Tx(r, Nothing)
    else Tx(MarkTransition(r.(stopped := true), Stopped).(pending := r.nics),
            if HasOpen(r) then One(Entry(ComputeStop, StopCrash)) else Nothing)
  }

  function RestoreStop(r: Rec): Tx {
    if !HasOpen(r) then Tx(r, Nothing)
    else Tx(MarkTransition(r, Stopped).(stopped := true, pending := r.nics), One(Entry(ComputeStop, Restore)))
  }

  function FinalizeRestore(r: Rec): Tx {
    Tx(MarkTransition(r, Running).(quarantined := false, started := true, stopped := false, pending := false),
       Three(Entry(StorageStop, Restore), Entry(StorageStart, Restore), Entry(ComputeStart, Restore)))
  }

  function MarkFailed(r: Rec, markError: bool): Tx {
    var e := if markError && r.state != Error then MarkTransition(r, Error) else r;
    Tx(e.(cpuSet := "", queueCPUs := "", pending := r.nics), Nothing)
  }

  function Place(r: Rec, cpuSet: string, queueCPUs: string): Tx {
    Tx(r.(cpuSet := cpuSet, queueCPUs := queueCPUs, pending := r.pending || (r.state != Creating && r.nics)), Nothing)
  }

  function ClearPending(r: Rec, gen: nat): Tx {
    Tx(if r.gen != gen || !r.pending then r else r.(pending := false), Nothing)
  }

  function FinalizeCreate(nics: bool): Tx {
    Tx(MarkTransition(Placeholder().(nics := nics), Created), One(Entry(StorageStart, Boot)))
  }

  function FinalizeClone(r: Rec, nics: bool): Tx {
    Tx(MarkTransition(Placeholder().(nics := nics, started := true, cpuSet := r.cpuSet, queueCPUs := r.queueCPUs,
                                     quarantined := r.quarantined, pending := r.pending), Running).(booted := true),
       Two(Entry(StorageStart, Clone), Entry(ComputeStart, Clone)))
  }

  /** deleteOneLocked's closing entries; a placeholder never opened storage. */
  function DeleteEmits(r: Rec, hadOpen: bool, stoppedByUs: bool): Emits {
    if r.state == Creating then Nothing
    else if hadOpen
    then Two(Entry(ComputeStop, if stoppedByUs then StopUser else StopCrash), Entry(StorageStop, VMRemove))
    else One(Entry(StorageStop, VMRemove))
  }

  // ----- the machine

  datatype CreatePc = CReserved | CLaunched

  datatype StartPc = SLocked | SLive | SDead | SConverged | SPlaced | SNetUp | SLaunched | SFailed

  /** `gen` and `due` are quiesceAfterStop's local copies of the generation and the pending flag. */
  datatype StopPc =
    | TLocked | TDown(wentDown: bool, gen: nat, due: bool) | TMarked(gen: nat, due: bool) | TQuiesced(gen: nat)

  datatype RestorePc = RLocked | RKilled | RStopped | RApplied | RNetUp | RPlaced | RLaunched | RFailed

  /** `had` is whether the record read before the stop had an open interval. */
  datatype DeletePc = XLocked | XStopped(had: bool) | XReady(hadOpen: bool, stoppedByUs: bool)

  datatype ConvergePc = DLocked | DDead | DConverged | DQuiesced(gen: nat)

  /** `at` is the generation the supervisor read under the lock, `event` the one an exit was observed at. */
  datatype Pc =
    | Free
    | InCreate(c: CreatePc)
    | InStart(p: StartPc)
    | InStop(del: bool, had: bool, t: StopPc)
    | InRestore(originStopped: bool, r: RestorePc)
    | InDelete(x: DeletePc)
    | InAdopt(live: bool)
    | InConverge(event: Option<nat>, at: nat, d: ConvergePc)

  datatype Vm = Vm(rec: Option<Rec>, ledger: Ledger, vmm: bool, net: bool, dirty: bool, pc: Pc)

  datatype WorldStep =
    | VmmExits | Crash | Refuse

  datatype CreateStep =
    | Reserve | CreateNet | DoFinalizeCreate(nics: bool) | CloneLaunch | DoFinalizeClone(nics: bool)
    | ClonePlaces(cpuSet: string, queueCPUs: string) | Rollback(killed: bool)

  datatype StartStep =
    | StartBegin | StartSeesLive | StartReconciles | StartSeesDead | StartConverges(ok: bool) | StartInvalid(ok: bool)
    | StartPlaces(cpuSet: string, queueCPUs: string) | StartNet | StartNetFails(up: bool) | StartLaunch
    | StartLaunchFails | StartPostFails(killed: bool) | StartDone(ok: bool) | StartMarkFailed(ok: bool)

  datatype StopStep =
    | StopBegin | StopFails(ok: bool) | StopShutdown | StopSeesDead | HibernateTerminate | StopMark(ok: bool)
    | StopQuiesce(ok: bool) | StopClear(ok: bool)

  datatype RestoreStep =
    | RestoreBegin | RestoreKill | RestoreKillFails(ok: bool) | DoRestoreStop(ok: bool) | RestoreApply
    | RestoreApplyFails(marked: bool, quarantine: bool) | RestoreNet | RestoreNetFails(up: bool)
    | RestorePlaces(cpuSet: string, queueCPUs: string) | RestorePlaceFails | RestoreLaunch
    | RestoreLaunchFails | RestoreAbort(killed: bool) | DoFinalizeRestore | RestoreMarkFailed(ok: bool)

  datatype DeleteStep =
    | DeleteBegin | DeleteKillsOrphan | DeleteStops | DeleteRereads(ok: bool) | DeleteSeesDead | DoDelete

  datatype SuperviseStep =
    | AdoptBegin | AdoptSeesLive | AdoptReconciles | ConvergeBegin(event: Option<nat>) | ConvergeSeesDead
    | DoConverge | ConvergeQuiesce(ok: bool) | ConvergeClear(ok: bool)

  datatype Step =
    | World(world: WorldStep) | Create(create: CreateStep) | Start(start: StartStep) | Stop(stop: StopStep)
    | RestoreVm(restore: RestoreStep) | Delete(delete: DeleteStep) | Supervise(supervise: SuperviseStep)

  predicate Exists(s: Vm) { s.rec.Some? }

  /** A finished record: past its creating placeholder. */
  predicate Finished(s: Vm) { s.rec.Some? && s.rec.value.state != Creating }

  function Commit(s: Vm, tx: Tx, pc: Pc): Vm {
    s.(rec := Some(tx.rec), ledger := Publish(s.ledger, tx.emits), pc := pc)
  }

  predicate WorldEnabled(s: Vm, st: WorldStep) {
    match st
    case VmmExits => s.vmm
    case Crash => s.pc != Free
    // An operation may back out wherever its code returns early without a write of its own.
    case Refuse =>
      match s.pc
      case Free => false
      case InCreate(_) => false
      case InStart(p) => p.SLocked? || p.SLive? || p.SConverged?
      case InStop(_, _, t) => t.TLocked?
      case InRestore(_, r) => r.RLocked?
      case InDelete(_) => true
      case InAdopt(_) => true
      case InConverge(_, _, d) => d.DLocked? || d.DDead?
  }

  function WorldApply(s: Vm, st: WorldStep): Vm
    requires WorldEnabled(s, st)
  {
    match st
    case VmmExits => s.(vmm := false)
    case Crash => s.(pc := Free)
    case Refuse => s.(pc := Free)
  }

  predicate CreateEnabled(s: Vm, st: CreateStep) {
    match st
    case Reserve => s.pc == Free && s.rec == None
    case CreateNet => s.pc == InCreate(CReserved)
    case DoFinalizeCreate(nics) => s.pc == InCreate(CReserved) && Exists(s) && (s.net ==> nics)
    case ClonePlaces(_, _) => s.pc == InCreate(CReserved) && Exists(s)
    case CloneLaunch => s.pc == InCreate(CReserved)
    case DoFinalizeClone(nics) => s.pc == InCreate(CLaunched) && Exists(s) && (s.net ==> nics)
    case Rollback(_) => s.pc.InCreate?
  }

  function CreateApply(s: Vm, st: CreateStep): Vm
    requires CreateEnabled(s, st)
  {
    match st
    case Reserve => s.(rec := Some(Placeholder()), pc := InCreate(CReserved))
    case CreateNet => s.(net := true)
    case DoFinalizeCreate(nics) => Commit(s, FinalizeCreate(nics), Free)
    case ClonePlaces(c, q) => Commit(s, Place(s.rec.value, c, q), s.pc)
    case CloneLaunch => s.(vmm := true, pc := InCreate(CLaunched))
    case DoFinalizeClone(nics) => Commit(s, FinalizeClone(s.rec.value, nics), Free)
    case Rollback(killed) => s.(rec := None, net := false, vmm := s.vmm && !killed, pc := Free)
  }

  predicate StartEnabled(s: Vm, st: StartStep) {
    if st.StartBegin? then
      s.pc == Free && Finished(s) && !s.rec.value.quarantined && (s.dirty ==> s.rec.value.started)
    else
      && s.pc.InStart? && Exists(s)
      && match st
         case StartBegin => false
         case StartSeesLive => s.pc.p == SLocked && s.vmm
         case StartReconciles => s.pc.p == SLive
         case StartSeesDead => s.pc.p == SLocked && !s.vmm
         case StartConverges(_) => s.pc.p == SDead
         case StartInvalid(_) => s.pc.p == SConverged
         case StartPlaces(_, _) => s.pc.p == SConverged
         case StartNet => s.pc.p == SPlaced
         case StartNetFails(_) => s.pc.p == SPlaced
         case StartLaunch => s.pc.p == SNetUp
         case StartLaunchFails => s.pc.p == SNetUp
         case StartPostFails(_) => s.pc.p == SLaunched
         case StartDone(_) => s.pc.p == SLaunched
         case StartMarkFailed(_) => s.pc.p == SFailed
  }

  function StartApply(s: Vm, st: StartStep): Vm
    requires StartEnabled(s, st)
  {
    match st
    // A marker older than StartedAt is stale and removed.
    case StartBegin => s.(pc := InStart(SLocked), dirty := false)
    case StartSeesLive => s.(pc := InStart(SLive))
    case StartReconciles => Commit(s, ReconcileToRunning(s.rec.value, s.dirty), Free)
    case StartSeesDead => s.(pc := InStart(SDead))
    case StartConverges(ok) =>
      if ok then Commit(s, ConvergeDead(s.rec.value, s.rec.value.gen), InStart(SConverged))
      else s.(pc := InStart(SConverged))
    case StartInvalid(ok) => if ok then Commit(s, UpdateError(s.rec.value), Free) else s.(pc := Free)
    case StartPlaces(c, q) => Commit(s, Place(s.rec.value, c, q), InStart(SPlaced))
    case StartNet => s.(net := s.rec.value.nics, pc := InStart(SNetUp))
    case StartNetFails(up) => s.(net := s.net || (up && s.rec.value.nics), pc := InStart(SFailed))
    case StartLaunch => s.(vmm := true, pc := InStart(SLaunched))
    case StartLaunchFails => s.(pc := InStart(SFailed))
    case StartPostFails(killed) => s.(vmm := s.vmm && !killed, pc := InStart(SFailed))
    case StartDone(ok) => if ok then Commit(s, MarkStarted(s.rec.value), Free) else s.(pc := Free)
    case StartMarkFailed(ok) => if ok then Commit(s, MarkFailed(s.rec.value, true), Free) else s.(pc := Free)
  }

  predicate StopEnabled(s: Vm, st: StopStep) {
    if st.StopBegin? then s.pc == Free && Finished(s)
    else
      && s.pc.InStop? && Exists(s)
      && match st
         case StopBegin => false
         case StopFails(_) => s.pc.t == TLocked
         case StopShutdown => s.pc.t == TLocked && s.vmm
         case StopSeesDead => s.pc.t == TLocked && !s.vmm
         case HibernateTerminate => s.pc.t == TLocked && !s.pc.del && s.vmm
         case StopMark(_) => s.pc.t.TDown?
         case StopQuiesce(_) => s.pc.t.TMarked?
         case StopClear(_) => s.pc.t.TQuiesced?
  }

  /** A finished stop either releases the lock or returns to the delete that asked for it. */
  function StopDone(s: Vm): Pc
    requires s.pc.InStop?
  {
    if s.pc.del then InDelete(XStopped(s.pc.had)) else Free
  }

  function Stopping(s: Vm, t: StopPc): Pc
    requires s.pc.InStop?
  {
    s.pc.(t := t)
  }

  function StopApply(s: Vm, st: StopStep): Vm
    requires StopEnabled(s, st)
  {
    match st
    case StopBegin => s.(pc := InStop(false, false, TLocked))
    case StopFails(ok) => if ok then Commit(s, UpdateError(s.rec.value), Free) else s.(pc := Free)
    case StopShutdown => s.(vmm := false, pc := Stopping(s, TDown(true, s.rec.value.gen, s.rec.value.pending)))
    case StopSeesDead =>
      var settled := s.rec.value.state == Stopped && !HasOpen(s.rec.value);
      s.(pc := Stopping(s, TDown(!settled, s.rec.value.gen, s.rec.value.pending)))
    case HibernateTerminate => s.(vmm := false, pc := Stopping(s, TDown(true, s.rec.value.gen, s.rec.value.pending)))
    case StopMark(ok) =>
      var due := s.pc.t.due || (s.pc.t.wentDown && s.rec.value.nics);
      if s.pc.t.wentDown && ok then Commit(s, UpdateStopped(s.rec.value), Stopping(s, TMarked(s.pc.t.gen + 1, due)))
      else s.(pc := Stopping(s, TMarked(s.pc.t.gen, due)))
    case StopQuiesce(ok) =>
      if s.pc.t.due && ok then s.(net := false, pc := Stopping(s, TQuiesced(s.pc.t.gen))) else s.(pc := StopDone(s))
    case StopClear(ok) =>
      if ok then Commit(s, ClearPending(s.rec.value, s.pc.t.gen), StopDone(s)) else s.(pc := StopDone(s))
  }

  predicate RestoreEnabled(s: Vm, st: RestoreStep) {
    if st.RestoreBegin? then s.pc == Free && Finished(s) && s.rec.value.state != Created
    else
      && s.pc.InRestore? && Exists(s)
      && match st
         case RestoreBegin => false
         case RestoreKill => s.pc.r == RLocked
         case RestoreKillFails(_) => s.pc.r == RLocked
         case DoRestoreStop(_) => s.pc.r == RKilled
         case RestoreApply => s.pc.r == RStopped
         case RestoreApplyFails(marked, quarantine) => s.pc.r == RStopped && (quarantine ==> marked)
         case RestoreNet => s.pc.r == RApplied
         case RestoreNetFails(_) => s.pc.r == RApplied
         case RestorePlaces(_, _) => s.pc.r == RNetUp
         case RestorePlaceFails => s.pc.r == RNetUp
         case RestoreLaunch => s.pc.r == RPlaced
         case RestoreLaunchFails => s.pc.r == RPlaced
         case RestoreAbort(_) => s.pc.r == RLaunched
         case DoFinalizeRestore => s.pc.r == RLaunched
         case RestoreMarkFailed(_) => s.pc.r == RFailed
  }

  function To(s: Vm, r: RestorePc): Pc
    requires s.pc.InRestore?
  {
    s.pc.(r := r)
  }

  function RestoreStepApply(s: Vm, st: RestoreStep): Vm
    requires RestoreEnabled(s, st)
  {
    match st
    case RestoreBegin => s.(pc := InRestore(s.rec.value.state == Stopped, RLocked))
    case RestoreKill => s.(vmm := false, pc := To(s, RKilled))
    // A stopped origin is spared so a hibernated VM stays wakeable.
    case RestoreKillFails(ok) =>
      if s.pc.originStopped || !ok then s.(pc := Free) else Commit(s, UpdateError(s.rec.value), Free)
    // A lost stop commit is logged and the restore goes on.
    case DoRestoreStop(ok) =>
      if ok then Commit(s, RestoreStop(s.rec.value), To(s, RStopped)) else s.(pc := To(s, RStopped))
    case RestoreApply => s.(dirty := true, pc := To(s, RApplied))
    case RestoreApplyFails(marked, quarantine) =>
      var m := s.(dirty := s.dirty || marked);
      if quarantine then Commit(m, QuarantineVM(s.rec.value), To(s, RFailed)) else m.(pc := To(s, RFailed))
    case RestoreNet => s.(net := s.rec.value.nics, pc := To(s, RNetUp))
    case RestoreNetFails(up) => s.(net := s.net || (up && s.rec.value.nics), pc := To(s, RFailed))
    case RestorePlaces(c, q) => Commit(s, Place(s.rec.value, c, q), To(s, RPlaced))
    case RestorePlaceFails => s.(pc := To(s, RFailed))
    case RestoreLaunch => s.(vmm := true, pc := To(s, RLaunched))
    case RestoreLaunchFails => s.(pc := To(s, RFailed))
    case RestoreAbort(killed) => s.(vmm := s.vmm && !killed, pc := To(s, RFailed))
    case DoFinalizeRestore => Commit(s.(dirty := false), FinalizeRestore(s.rec.value), Free)
    case RestoreMarkFailed(ok) =>
      if ok then Commit(s, MarkFailed(s.rec.value, !s.pc.originStopped), Free) else s.(pc := Free)
  }

  predicate DeleteEnabled(s: Vm, st: DeleteStep) {
    match st
    case DeleteBegin => s.pc == Free && Exists(s)
    case DeleteKillsOrphan => s.pc == InDelete(XLocked) && Exists(s) && !Finished(s)
    case DeleteStops => s.pc == InDelete(XLocked) && Finished(s) && s.vmm
    case DeleteRereads(_) => s.pc.InDelete? && s.pc.x.XStopped? && Exists(s)
    case DeleteSeesDead => s.pc == InDelete(XLocked) && Exists(s) && !s.vmm
    case DoDelete => s.pc.InDelete? && s.pc.x.XReady? && Exists(s)
  }

  function DeleteApply(s: Vm, st: DeleteStep): Vm
    requires DeleteEnabled(s, st)
  {
    match st
    case DeleteBegin => s.(pc := InDelete(XLocked))
    case DeleteKillsOrphan => s.(vmm := false, pc := InDelete(XStopped(HasOpen(s.rec.value))))
    case DeleteStops => s.(pc := InStop(true, HasOpen(s.rec.value), TLocked))
    // A failed re-read keeps what the record said before the stop.
    case DeleteRereads(ok) => s.(pc := InDelete(XReady(if ok then HasOpen(s.rec.value) else s.pc.x.had, true)))
    case DeleteSeesDead => s.(pc := InDelete(XReady(HasOpen(s.rec.value), false)))
    case DoDelete =>
      s.(rec := None, net := false, pc := Free,
         ledger := Publish(s.ledger, DeleteEmits(s.rec.value, s.pc.x.hadOpen, s.pc.x.stoppedByUs)))
  }

  /** An exit event is dropped unless the record still carries its generation. */
  predicate EventCurrent(s: Vm, event: Option<nat>) { s.rec.Some? && (event.Some? ==> s.rec.value.gen == event.value) }

  predicate SuperviseEnabled(s: Vm, st: SuperviseStep) {
    match st
    case AdoptBegin => s.pc == Free && Exists(s) && !s.rec.value.quarantined
    case AdoptSeesLive => s.pc == InAdopt(false) && s.vmm
    case AdoptReconciles => s.pc == InAdopt(true) && Exists(s)
    case ConvergeBegin(_) => s.pc == Free && Exists(s)
    // The probe answers dead only when it is: live and inconclusive both refuse.
    case ConvergeSeesDead => s.pc.InConverge? && s.pc.d == DLocked && EventCurrent(s, s.pc.event) && !s.vmm
    case DoConverge => s.pc.InConverge? && s.pc.d == DDead && Exists(s)
    case ConvergeQuiesce(_) => s.pc.InConverge? && s.pc.d == DConverged && Exists(s)
    case ConvergeClear(_) => s.pc.InConverge? && s.pc.d.DQuiesced? && Exists(s)
  }

  function SuperviseApply(s: Vm, st: SuperviseStep): Vm
    requires SuperviseEnabled(s, st)
  {
    match st
    case AdoptBegin => s.(pc := InAdopt(false))
    case AdoptSeesLive => s.(pc := InAdopt(true))
    case AdoptReconciles => Commit(s, ReconcileToRunning(s.rec.value, s.dirty), Free)
    case ConvergeBegin(event) => s.(pc := InConverge(event, s.rec.value.gen, DLocked))
    case ConvergeSeesDead => s.(pc := s.pc.(d := DDead))
    case DoConverge =>
      var gen := match s.pc.event case Some(g) => g case None => s.pc.at;
      Commit(s, ConvergeDead(s.rec.value, gen), s.pc.(d := DConverged))
    case ConvergeQuiesce(ok) =>
      if s.rec.value.pending && ok then s.(net := false, pc := s.pc.(d := DQuiesced(s.rec.value.gen)))
      else s.(pc := Free)
    case ConvergeClear(ok) =>
      if ok then Commit(s, ClearPending(s.rec.value, s.pc.d.gen), Free) else s.(pc := Free)
  }

  predicate Enabled(s: Vm, st: Step) {
    match st
    case World(x) => WorldEnabled(s, x)
    case Create(x) => CreateEnabled(s, x)
    case Start(x) => StartEnabled(s, x)
    case Stop(x) => StopEnabled(s, x)
    case RestoreVm(x) => RestoreEnabled(s, x)
    case Delete(x) => DeleteEnabled(s, x)
    case Supervise(x) => SuperviseEnabled(s, x)
  }

  function Apply(s: Vm, st: Step): Vm
    requires Enabled(s, st)
  {
    match st
    case World(x) => WorldApply(s, x)
    case Create(x) => CreateApply(s, x)
    case Start(x) => StartApply(s, x)
    case Stop(x) => StopApply(s, x)
    case RestoreVm(x) => RestoreStepApply(s, x)
    case Delete(x) => DeleteApply(s, x)
    case Supervise(x) => SuperviseApply(s, x)
  }

  predicate Legal(s: Vm, run: seq<Step>)
    decreases |run|
  {
    run == [] || (Enabled(s, run[0]) && Legal(Apply(s, run[0]), run[1..]))
  }

  function After(s: Vm, run: seq<Step>): Vm
    requires Legal(s, run)
    decreases |run|
  {
    if run == [] then s else After(Apply(s, run[0]), run[1..])
  }

  function Init(): Vm { Vm(None, Blank, false, false, false, Free) }

  // ----- the metering ledger

  /** The state of a start/stop meter; `Broken` once a start or a stop came out of turn. */
  datatype Meter = Shut | Open | Broken

  function Turn(m: Meter, kind: Kind, start: Kind, stop: Kind): Meter {
    if kind == start then (if m == Shut then Open else Broken)
    else if kind == stop then (if m == Open then Shut else Broken)
    else m
  }

  function Read(l: Ledger, start: Kind, stop: Kind): Meter {
    match l
    case Blank => Shut
    case Log(before, e) => Turn(Read(before, start, stop), e.kind, start, stop)
  }

  function Compute(l: Ledger): Meter { Read(l, ComputeStart, ComputeStop) }

  function Storage(l: Ledger): Meter { Read(l, StorageStart, StorageStop) }

  /**
    Each kind alternates; compute is open exactly in an open interval, storage exactly while a finished record exists.
  */
  predicate LedgerOk(s: Vm) {
    && Compute(s.ledger) == (if s.rec.Some? && HasOpen(s.rec.value) then Open else Shut)
    && Storage(s.ledger) == (if s.rec.Some? && s.rec.value.state != Creating then Open else Shut)
  }

  // ----- what every step keeps

  predicate RecOk(s: Vm) {
    match s.rec
    case None => !s.net
    case Some(r) =>
      && (r.state == Creating ==> r.gen == 0 && !r.started && !r.stopped && !r.pending && !r.quarantined)
      && (r.pending ==> r.nics)
      && (s.net && r.state != Creating ==> r.nics)
  }

  /** What a start knows: past the dead probe the VMM is gone until it launches; past placement the quiesce is owed. */
  predicate StartOk(p: StartPc, r: Rec, vmm: bool) {
    && r.state != Creating
    && (p.SDead? || p.SConverged? || p.SPlaced? || p.SNetUp? ==> !vmm)
    && (p.SPlaced? || p.SNetUp? || p.SLaunched? || p.SFailed? ==> r.pending == r.nics)
  }

  /** What a stop knows: its local generation is the stored one. */
  predicate StopOk(t: StopPc, r: Rec, vmm: bool, net: bool) {
    && r.state != Creating
    && match t
       case TLocked => true
       case TDown(wentDown, gen, due) =>
         !vmm && gen == r.gen && due == r.pending && (!wentDown ==> r.state == Stopped)
       case TMarked(gen, due) => !vmm && gen == r.gen && (r.pending ==> due)
       case TQuiesced(gen) => !vmm && gen == r.gen && !net
  }

  predicate RestoreOk(p: RestorePc, r: Rec, vmm: bool) {
    && r.state != Creating
    && (!p.RLocked? && !p.RLaunched? && !p.RFailed? ==> !vmm)
    && (p.RPlaced? || p.RLaunched? ==> r.pending == r.nics)
  }

  /** What the supervisor knows: past the dead probe the VMM is gone, and its event is of the generation it read. */
  predicate ConvergeOk(event: Option<nat>, at: nat, d: ConvergePc, r: Rec, vmm: bool, net: bool) {
    && at <= r.gen <= at + 1
    && (d.DLocked? || d.DDead? ==> r.gen == at)
    && (!d.DLocked? ==> !vmm && (event.Some? ==> event.value == at))
    && (d.DQuiesced? ==> !net && d.gen == r.gen)
  }

  /** What each control state knows while it holds the lock. */
  predicate PcOk(s: Vm) {
    s.pc != Free ==>
      && s.rec.Some?
      && var r := s.rec.value;
      match s.pc
      case Free => true
      case InCreate(_) => r.state == Creating
      case InStart(p) => StartOk(p, r, s.vmm)
      case InStop(_, _, t) => StopOk(t, r, s.vmm, s.net)
      case InRestore(_, p) => RestoreOk(p, r, s.vmm)
      case InDelete(x) => !x.XLocked? ==> !s.vmm
      case InAdopt(_) => true
      case InConverge(event, at, d) => ConvergeOk(event, at, d, r, s.vmm, s.net)
  }

  /** A delete never overlooks an open interval: what it read before the stop covers what the record says now. */
  predicate HadOk(s: Vm) {
    s.rec.Some? && HasOpen(s.rec.value) ==>
      match s.pc
      case InStop(del, had, _) => del ==> had
      case InDelete(x) => (x.XStopped? ==> x.had) && (x.XReady? ==> x.hadOpen)
      case _ => true
  }

  /** What every run keeps, whichever writes are lost. */
  predicate Inv(s: Vm) { RecOk(s) && PcOk(s) && HadOk(s) }

  predicate LedgerInv(s: Vm) { Inv(s) && LedgerOk(s) }

  /** A restore finalizes no open interval, and a delete closes exactly the interval the record holds. */
  predicate Sound(s: Vm, st: Step)
    requires Enabled(s, st)
  {
    && (st == RestoreVm(DoFinalizeRestore) ==> !HasOpen(s.rec.value))
    && (st == Delete(DoDelete) && Finished(s) ==> s.pc.x.hadOpen == HasOpen(s.rec.value))
  }

  /** The entries a transaction stages fit the meters of any ledger that fits its record. */
  predicate Metered(r: Rec, tx: Tx) {
    && r.state != Creating && tx.rec.state != Creating
    && match tx.emits
       case Nothing => HasOpen(tx.rec) == HasOpen(r)
       case One(a) => a.kind == (if HasOpen(r) then ComputeStop else ComputeStart) && HasOpen(tx.rec) == !HasOpen(r)
       case Two(a, b) => a.kind == ComputeStop && b.kind == ComputeStart && HasOpen(r) && HasOpen(tx.rec)
       case Three(a, b, c) =>
         a.kind == StorageStop && b.kind == StorageStart && c.kind == ComputeStart && !HasOpen(r) && HasOpen(tx.rec)
  }

  lemma MeteredKeepsLedger(s: Vm, tx: Tx, pc: Pc)
    requires LedgerOk(s) && Exists(s) && Metered(s.rec.value, tx)
    ensures LedgerOk(Commit(s, tx, pc))
  {
    var l := s.ledger;
    match tx.emits
    case Two(a, b) =>
      assert Compute(Log(l, a)) == Shut && Storage(Log(l, a)) == Open;
    case Three(a, b, c) =>
      assert Compute(Log(l, a)) == Shut && Storage(Log(l, a)) == Shut;
      assert Compute(Log(Log(l, a), b)) == Shut && Storage(Log(Log(l, a), b)) == Open;
    case _ =>
  }

  lemma StateTxMetered(r: Rec, dirty: bool)
    requires r.state != Creating
    ensures Metered(r, UpdateStopped(r)) && Metered(r, UpdateError(r)) && Metered(r, QuarantineVM(r))
    ensures Metered(r, MarkStarted(r)) && Metered(r, ReconcileToRunning(r, dirty))
  {
    StartTxMetered(r, dirty);
  }

  lemma StartTxMetered(r: Rec, dirty: bool)
    requires r.state != Creating
    ensures Metered(r, MarkStarted(r)) && Metered(r, ReconcileToRunning(r, dirty))
  {
  }

  lemma ConvergeTxMetered(r: Rec, gen: nat)
    requires r.state != Creating
    ensures Metered(r, ConvergeDead(r, gen)) && Metered(r, ClearPending(r, gen))
  {
  }

  lemma LaunchTxMetered(r: Rec, flag: bool, c: string, q: string)
    requires r.state != Creating
    ensures Metered(r, MarkFailed(r, flag)) && Metered(r, Place(r, c, q))
  {
  }

  /** A restore's closing entries fit exactly when its own stop has landed. */
  lemma RestoreTxMetered(r: Rec)
    requires r.state != Creating
    ensures Metered(r, RestoreStop(r)) && !HasOpen(RestoreStop(r).rec)
    ensures Metered(r, FinalizeRestore(r)) <==> !HasOpen(r)
  {
  }

  lemma WorldKeepsControl(s: Vm, st: WorldStep)
    requires RecOk(s) && PcOk(s) && WorldEnabled(s, st)
    ensures RecOk(WorldApply(s, st)) && PcOk(WorldApply(s, st))
  {
  }

  lemma CreateKeepsControl(s: Vm, st: CreateStep)
    requires RecOk(s) && PcOk(s) && CreateEnabled(s, st)
    ensures RecOk(CreateApply(s, st)) && PcOk(CreateApply(s, st))
  {
  }

  lemma StartKeepsControl(s: Vm, st: StartStep)
    requires RecOk(s) && PcOk(s) && StartEnabled(s, st)
    ensures RecOk(StartApply(s, st)) && PcOk(StartApply(s, st))
  {
    if StartCommits(st) {
      StartCommitKeepsControl(s, st);
    }
  }

  predicate StartCommits(st: StartStep) {
    || st.StartReconciles? || st.StartConverges? || st.StartInvalid? || st.StartPlaces? || st.StartDone?
    || st.StartMarkFailed?
  }

  lemma StartCommitKeepsControl(s: Vm, st: StartStep)
    requires RecOk(s) && PcOk(s) && StartEnabled(s, st) && StartCommits(st)
    ensures RecOk(StartApply(s, st)) && PcOk(StartApply(s, st))
  {
    if st.StartInvalid? || st.StartMarkFailed? { StartCommitKeepsControlErrs(s, st); }
    if st.StartReconciles? || st.StartDone? { StartCommitKeepsControlTurns(s, st); }
    if st.StartPlaces? || st.StartConverges? { StartCommitKeepsControlMarks(s, st); }
  }

  lemma StartCommitKeepsControlErrs(s: Vm, st: StartStep)
    requires RecOk(s) && PcOk(s) && StartEnabled(s, st) && (st.StartInvalid? || st.StartMarkFailed?)
    ensures RecOk(StartApply(s, st)) && PcOk(StartApply(s, st))
  {
  }

  lemma StartCommitKeepsControlTurns(s: Vm, st: StartStep)
    requires RecOk(s) && PcOk(s) && StartEnabled(s, st) && (st.StartReconciles? || st.StartDone?)
    ensures RecOk(StartApply(s, st)) && PcOk(StartApply(s, st))
  {
  }

  lemma StartCommitKeepsControlMarks(s: Vm, st: StartStep)
    requires RecOk(s) && PcOk(s) && StartEnabled(s, st) && (st.StartPlaces? || st.StartConverges?)
    ensures RecOk(StartApply(s, st)) && PcOk(StartApply(s, st))
  {
  }

  lemma StopMarkKeepsControl(s: Vm, ok: bool)
    requires RecOk(s) && PcOk(s) && StopEnabled(s, StopMark(ok))
    ensures RecOk(StopApply(s, StopMark(ok))) && PcOk(StopApply(s, StopMark(ok)))
  {
  }

  lemma StopClearKeepsControl(s: Vm, ok: bool)
    requires RecOk(s) && PcOk(s) && StopEnabled(s, StopClear(ok))
    ensures RecOk(StopApply(s, StopClear(ok))) && PcOk(StopApply(s, StopClear(ok)))
  {
  }

  lemma StopKeepsControl(s: Vm, st: StopStep)
    requires RecOk(s) && PcOk(s) && StopEnabled(s, st)
    ensures RecOk(StopApply(s, st)) && PcOk(StopApply(s, st))
  {
    match st
    case StopMark(ok) => StopMarkKeepsControl(s, ok);
    case StopClear(ok) => StopClearKeepsControl(s, ok);
    case _ =>
  }

  lemma WorldKeepsLedger(s: Vm, st: WorldStep)
    requires LedgerInv(s) && WorldEnabled(s, st)
    ensures LedgerOk(WorldApply(s, st))
  {
  }

  lemma RestoreKeepsControl(s: Vm, st: RestoreStep)
    requires RecOk(s) && PcOk(s) && RestoreEnabled(s, st)
    ensures RecOk(RestoreStepApply(s, st)) && PcOk(RestoreStepApply(s, st))
  {
    if RestoreCommits(st) {
      RestoreCommitKeepsControl(s, st);
    }
  }

  predicate RestoreCommits(st: RestoreStep) {
    || st.RestoreKillFails? || st.DoRestoreStop? || st.RestoreApplyFails? || st.RestorePlaces? || st.DoFinalizeRestore?
    || st.RestoreMarkFailed?
  }

  lemma RestoreCommitKeepsControl(s: Vm, st: RestoreStep)
    requires RecOk(s) && PcOk(s) && RestoreEnabled(s, st) && RestoreCommits(st)
    ensures RecOk(RestoreStepApply(s, st)) && PcOk(RestoreStepApply(s, st))
  {
    if st.RestoreKillFails? || st.RestoreApplyFails? { RestoreCommitKeepsControlErrs(s, st); }
    if st.DoRestoreStop? || st.DoFinalizeRestore? { RestoreCommitKeepsControlTurns(s, st); }
    if st.RestorePlaces? || st.RestoreMarkFailed? { RestoreCommitKeepsControlMarks(s, st); }
  }

  lemma RestoreCommitKeepsControlErrs(s: Vm, st: RestoreStep)
    requires RecOk(s) && PcOk(s) && RestoreEnabled(s, st) && (st.RestoreKillFails? || st.RestoreApplyFails?)
    ensures RecOk(RestoreStepApply(s, st)) && PcOk(RestoreStepApply(s, st))
  {
  }

  lemma RestoreCommitKeepsControlTurns(s: Vm, st: RestoreStep)
    requires RecOk(s) && PcOk(s) && RestoreEnabled(s, st) && (st.DoRestoreStop? || st.DoFinalizeRestore?)
    ensures RecOk(RestoreStepApply(s, st)) && PcOk(RestoreStepApply(s, st))
  {
  }

  lemma RestoreCommitKeepsControlMarks(s: Vm, st: RestoreStep)
    requires RecOk(s) && PcOk(s) && RestoreEnabled(s, st) && (st.RestorePlaces? || st.RestoreMarkFailed?)
    ensures RecOk(RestoreStepApply(s, st)) && PcOk(RestoreStepApply(s, st))
  {
  }

  lemma DeleteKeepsControl(s: Vm, st: DeleteStep)
    requires RecOk(s) && PcOk(s) && DeleteEnabled(s, st)
    ensures RecOk(DeleteApply(s, st)) && PcOk(DeleteApply(s, st))
  {
  }

  lemma SuperviseKeepsControl(s: Vm, st: SuperviseStep)
    requires RecOk(s) && PcOk(s) && SuperviseEnabled(s, st)
    ensures RecOk(SuperviseApply(s, st)) && PcOk(SuperviseApply(s, st))
  {
  }

  lemma CreateKeepsLedger(s: Vm, st: CreateStep)
    requires LedgerInv(s) && CreateEnabled(s, st)
    ensures LedgerOk(CreateApply(s, st))
  {
    if st.DoFinalizeClone? {
      var l := Log(s.ledger, Entry(StorageStart, Clone));
      assert Compute(l) == Shut && Storage(l) == Open;
    }
  }

  lemma StartKeepsLedger(s: Vm, st: StartStep)
    requires LedgerInv(s) && StartEnabled(s, st)
    ensures LedgerOk(StartApply(s, st))
  {
    var r := s.rec.value;
    match st
    case StartReconciles => StateTxMetered(r, s.dirty); MeteredKeepsLedger(s, ReconcileToRunning(r, s.dirty), Free);
    case StartConverges(_) =>
      ConvergeTxMetered(r, r.gen); MeteredKeepsLedger(s, ConvergeDead(r, r.gen), InStart(SConverged));
    case StartInvalid(_) => StateTxMetered(r, s.dirty); MeteredKeepsLedger(s, UpdateError(r), Free);
    case StartPlaces(c, q) => LaunchTxMetered(r, true, c, q); MeteredKeepsLedger(s, Place(r, c, q), InStart(SPlaced));
    case StartDone(_) => StateTxMetered(r, s.dirty); MeteredKeepsLedger(s, MarkStarted(r), Free);
    case StartMarkFailed(_) => LaunchTxMetered(r, true, "", ""); MeteredKeepsLedger(s, MarkFailed(r, true), Free);
    case _ =>
  }

  lemma StopKeepsLedger(s: Vm, st: StopStep)
    requires LedgerInv(s) && StopEnabled(s, st)
    ensures LedgerOk(StopApply(s, st))
  {
    var r, t := s.rec.value, StopApply(s, st);
    match st
    case StopFails(_) => StateTxMetered(r, s.dirty); MeteredKeepsLedger(s, UpdateError(r), Free);
    case StopMark(_) => StateTxMetered(r, s.dirty); MeteredKeepsLedger(s, UpdateStopped(r), t.pc);
    case StopClear(_) => ConvergeTxMetered(r, s.pc.t.gen); MeteredKeepsLedger(s, ClearPending(r, s.pc.t.gen), t.pc);
    case _ =>
  }

  lemma RestoreKeepsLedger(s: Vm, st: RestoreStep)
    requires LedgerInv(s) && RestoreEnabled(s, st) && Sound(s, RestoreVm(st))
    ensures LedgerOk(RestoreStepApply(s, st))
  {
    match st
    case RestoreKillFails(_) => RestoreErrorKeepsLedger(s, st);
    case RestoreApplyFails(_, _) => RestoreErrorKeepsLedger(s, st);
    case DoRestoreStop(_) => RestoreStopKeepsLedger(s, st);
    case DoFinalizeRestore => RestoreStopKeepsLedger(s, st);
    case RestorePlaces(_, _) => RestoreLaunchKeepsLedger(s, st);
    case RestoreMarkFailed(_) => RestoreLaunchKeepsLedger(s, st);
    case _ =>
  }

  lemma RestoreErrorKeepsLedger(s: Vm, st: RestoreStep)
    requires LedgerInv(s) && RestoreEnabled(s, st) && (st.RestoreKillFails? || st.RestoreApplyFails?)
    ensures LedgerOk(RestoreStepApply(s, st))
  {
    var r, t := s.rec.value, RestoreStepApply(s, st);
    StateTxMetered(r, s.dirty);
    if st.RestoreKillFails? {
      MeteredKeepsLedger(s, UpdateError(r), Free);
    } else {
      MeteredKeepsLedger(s.(dirty := t.dirty), QuarantineVM(r), t.pc);
    }
  }

  lemma RestoreStopKeepsLedger(s: Vm, st: RestoreStep)
    requires LedgerInv(s) && RestoreEnabled(s, st) && (st.DoRestoreStop? || st.DoFinalizeRestore?)
    requires Sound(s, RestoreVm(st))
    ensures LedgerOk(RestoreStepApply(s, st))
  {
    var r, t := s.rec.value, RestoreStepApply(s, st);
    RestoreTxMetered(r);
    if st.DoRestoreStop? {
      MeteredKeepsLedger(s, RestoreStop(r), t.pc);
    } else {
      MeteredKeepsLedger(s.(dirty := false), FinalizeRestore(r), Free);
    }
  }

  lemma RestoreLaunchKeepsLedger(s: Vm, st: RestoreStep)
    requires LedgerInv(s) && RestoreEnabled(s, st) && (st.RestorePlaces? || st.RestoreMarkFailed?)
    ensures LedgerOk(RestoreStepApply(s, st))
  {
    var r, t := s.rec.value, RestoreStepApply(s, st);
    if st.RestorePlaces? {
      LaunchTxMetered(r, true, st.cpuSet, st.queueCPUs);
      MeteredKeepsLedger(s, Place(r, st.cpuSet, st.queueCPUs), t.pc);
    } else {
      LaunchTxMetered(r, !s.pc.originStopped, "", "");
      MeteredKeepsLedger(s, MarkFailed(r, !s.pc.originStopped), Free);
    }
  }

  /** A delete closes both meters of a finished record and touches neither for a placeholder. */
  lemma DeleteKeepsLedger(s: Vm, st: DeleteStep)
    requires LedgerInv(s) && DeleteEnabled(s, st) && Sound(s, Delete(st))
    ensures LedgerOk(DeleteApply(s, st))
  {
    if st.DoDelete? && Finished(s) {
      DeleteClosesExactly(s, s.pc.x.hadOpen, s.pc.x.stoppedByUs);
    }
  }

  lemma LogTurns(l: Ledger, e: Entry)
    ensures Compute(Log(l, e)) == Turn(Compute(l), e.kind, ComputeStart, ComputeStop)
    ensures Storage(Log(l, e)) == Turn(Storage(l), e.kind, StorageStart, StorageStop)
  {
  }

  /**
    A delete's closing entries shut the compute meter if and only if the interval it believes open is the record's; one
    it wrongly believes open breaks the meter.
  */
  lemma DeleteClosesExactly(s: Vm, hadOpen: bool, stoppedByUs: bool)
    requires LedgerOk(s) && Finished(s)
    ensures var l := Publish(s.ledger, DeleteEmits(s.rec.value, hadOpen, stoppedByUs));
            && (Compute(l) == Shut <==> hadOpen == HasOpen(s.rec.value))
            && (hadOpen && !HasOpen(s.rec.value) ==> Compute(l) == Broken)
            && Storage(l) == Shut
  {
    var e := Entry(ComputeStop, if stoppedByUs then StopUser else StopCrash);
    LogTurns(s.ledger, e);
    LogTurns(Log(s.ledger, e), Entry(StorageStop, VMRemove));
    LogTurns(s.ledger, Entry(StorageStop, VMRemove));
  }

  /** Finalizing a restore closes and reopens storage, and opens compute, which fits exactly a closed interval. */
  lemma FinalizeFits(s: Vm)
    requires Finished(s) && LedgerOk(s)
    ensures var l := Publish(s.ledger, FinalizeRestore(s.rec.value).emits);
            Storage(l) == Open && Compute(l) == if HasOpen(s.rec.value) then Broken else Open
  {
    var a := Log(s.ledger, Entry(StorageStop, Restore));
    var b := Log(a, Entry(StorageStart, Restore));
    LogTurns(s.ledger, Entry(StorageStop, Restore));
    LogTurns(a, Entry(StorageStart, Restore));
    LogTurns(b, Entry(ComputeStart, Restore));
  }

  lemma PlaceholderUnconverged(s: Vm, gen: nat)
    requires RecOk(s) && s.rec.Some? && s.rec.value.state == Creating
    ensures ConvergeDead(s.rec.value, gen) == ReconcileToRunning(s.rec.value, s.dirty) == ClearPending(s.rec.value, gen)
            == Tx(s.rec.value, Nothing)
  {
  }

  lemma SuperviseKeepsLedger(s: Vm, st: SuperviseStep)
    requires LedgerInv(s) && SuperviseEnabled(s, st)
    ensures LedgerOk(SuperviseApply(s, st))
  {
    if s.pc.InAdopt? && st.AdoptReconciles? {
      AdoptedKeepsLedger(s, Free);
    } else if st.DoConverge? || st.ConvergeClear? {
      var gen := if st.ConvergeClear? then s.pc.d.gen else if s.pc.event.Some? then s.pc.event.value else s.pc.at;
      ConvergedKeepsLedger(s, gen, SuperviseApply(s, st).pc);
    }
  }

  lemma AdoptedKeepsLedger(s: Vm, pc: Pc)
    requires LedgerOk(s) && RecOk(s) && Exists(s)
    ensures LedgerOk(Commit(s, ReconcileToRunning(s.rec.value, s.dirty), pc))
  {
    if s.rec.value.state == Creating {
      PlaceholderUnconverged(s, 0);
    } else {
      StateTxMetered(s.rec.value, s.dirty);
      MeteredKeepsLedger(s, ReconcileToRunning(s.rec.value, s.dirty), pc);
    }
  }

  lemma ConvergedKeepsLedger(s: Vm, gen: nat, pc: Pc)
    requires LedgerOk(s) && RecOk(s) && Exists(s)
    ensures LedgerOk(Commit(s, ConvergeDead(s.rec.value, gen), pc))
    ensures LedgerOk(Commit(s, ClearPending(s.rec.value, gen), pc))
  {
    if s.rec.value.state == Creating {
      PlaceholderUnconverged(s, gen);
    } else {
      ConvergeTxMetered(s.rec.value, gen);
      MeteredKeepsLedger(s, ConvergeDead(s.rec.value, gen), pc);
      MeteredKeepsLedger(s, ClearPending(s.rec.value, gen), pc);
    }
  }

  lemma WorldKeepsHad(s: Vm, st: WorldStep)
    requires HadOk(s) && WorldEnabled(s, st)
    ensures HadOk(WorldApply(s, st))
  {
  }

  lemma CreateKeepsHad(s: Vm, st: CreateStep)
    requires HadOk(s) && CreateEnabled(s, st)
    ensures HadOk(CreateApply(s, st))
  {
  }

  lemma StartKeepsHad(s: Vm, st: StartStep)
    requires HadOk(s) && StartEnabled(s, st)
    ensures HadOk(StartApply(s, st))
  {
  }

  lemma StopKeepsHad(s: Vm, st: StopStep)
    requires HadOk(s) && StopEnabled(s, st)
    ensures HadOk(StopApply(s, st))
  {
  }

  lemma RestoreKeepsHad(s: Vm, st: RestoreStep)
    requires HadOk(s) && RestoreEnabled(s, st)
    ensures HadOk(RestoreStepApply(s, st))
  {
  }

  lemma DeleteKeepsHad(s: Vm, st: DeleteStep)
    requires HadOk(s) && DeleteEnabled(s, st)
    ensures HadOk(DeleteApply(s, st))
  {
  }

  lemma SuperviseKeepsHad(s: Vm, st: SuperviseStep)
    requires HadOk(s) && SuperviseEnabled(s, st)
    ensures HadOk(SuperviseApply(s, st))
  {
  }

  lemma StepKeepsInv(s: Vm, st: Step)
    requires Inv(s) && Enabled(s, st)
    ensures Inv(Apply(s, st))
  {
    match st
    case World(x) => WorldKeepsControl(s, x); WorldKeepsHad(s, x);
    case Create(x) => CreateKeepsControl(s, x); CreateKeepsHad(s, x);
    case Start(x) => StartKeepsControl(s, x); StartKeepsHad(s, x);
    case Stop(x) => StopKeepsControl(s, x); StopKeepsHad(s, x);
    case RestoreVm(x) => RestoreKeepsControl(s, x); RestoreKeepsHad(s, x);
    case Delete(x) => DeleteKeepsControl(s, x); DeleteKeepsHad(s, x);
    case Supervise(x) => SuperviseKeepsControl(s, x); SuperviseKeepsHad(s, x);
  }

  lemma {:induction false} RunKeepsInv(s: Vm, run: seq<Step>)
    requires Inv(s) && Legal(s, run)
    ensures Inv(After(s, run))
    decreases |run|
  {
    if run != [] {
      StepKeepsInv(s, run[0]);
      RunKeepsInv(Apply(s, run[0]), run[1..]);
    }
  }

  lemma StepKeepsLedger(s: Vm, st: Step)
    requires LedgerInv(s) && Enabled(s, st) && Sound(s, st)
    ensures LedgerInv(Apply(s, st))
  {
    StepKeepsInv(s, st);
    match st
    case World(x) => WorldKeepsLedger(s, x);
    case Create(x) => CreateKeepsLedger(s, x);
    case Start(x) => StartKeepsLedger(s, x);
    case Stop(x) => StopKeepsLedger(s, x);
    case RestoreVm(x) => RestoreKeepsLedger(s, x);
    case Delete(x) => DeleteKeepsLedger(s, x);
    case Supervise(x) => SuperviseKeepsLedger(s, x);
  }

  // ----- metering, over every run

  predicate SoundRun(s: Vm, run: seq<Step>)
    requires Legal(s, run)
    decreases |run|
  {
    run == [] || (Sound(s, run[0]) && SoundRun(Apply(s, run[0]), run[1..]))
  }

  /** Nothing is ever taken back from the ledger. */
  predicate Extends(l: Ledger, m: Ledger) {
    l == m || (m.Log? && (l == m.before || (m.before.Log? && (l == m.before.before ||
      (m.before.before.Log? && l == m.before.before.before)))))
  }

  lemma ExtendedStaysBroken(l: Ledger, m: Ledger)
    requires Extends(l, m) && Compute(l) == Broken
    ensures Compute(m) == Broken
  {
    if l != m {
      LogTurns(m.before, m.last);
      if l != m.before {
        LogTurns(m.before.before, m.before.last);
        if l != m.before.before {
          LogTurns(m.before.before.before, m.before.before.last);
        }
      }
    }
  }

  lemma WorldExtends(s: Vm, st: WorldStep)
    requires WorldEnabled(s, st)
    ensures Extends(s.ledger, WorldApply(s, st).ledger)
  {
  }

  lemma CreateExtends(s: Vm, st: CreateStep)
    requires CreateEnabled(s, st)
    ensures Extends(s.ledger, CreateApply(s, st).ledger)
  {
  }

  lemma StartExtends(s: Vm, st: StartStep)
    requires StartEnabled(s, st)
    ensures Extends(s.ledger, StartApply(s, st).ledger)
  {
  }

  lemma StopExtends(s: Vm, st: StopStep)
    requires StopEnabled(s, st)
    ensures Extends(s.ledger, StopApply(s, st).ledger)
  {
  }

  lemma RestoreExtends(s: Vm, st: RestoreStep)
    requires RestoreEnabled(s, st)
    ensures Extends(s.ledger, RestoreStepApply(s, st).ledger)
  {
  }

  lemma DeleteExtends(s: Vm, st: DeleteStep)
    requires DeleteEnabled(s, st)
    ensures Extends(s.ledger, DeleteApply(s, st).ledger)
  {
  }

  lemma SuperviseExtends(s: Vm, st: SuperviseStep)
    requires SuperviseEnabled(s, st)
    ensures Extends(s.ledger, SuperviseApply(s, st).ledger)
  {
  }

  lemma StepExtends(s: Vm, st: Step)
    requires Enabled(s, st)
    ensures Extends(s.ledger, Apply(s, st).ledger)
  {
    match st
    case World(x) => WorldExtends(s, x);
    case Create(x) => CreateExtends(s, x);
    case Start(x) => StartExtends(s, x);
    case Stop(x) => StopExtends(s, x);
    case RestoreVm(x) => RestoreExtends(s, x);
    case Delete(x) => DeleteExtends(s, x);
    case Supervise(x) => SuperviseExtends(s, x);
  }

  lemma {:induction false} BrokenRuns(s: Vm, run: seq<Step>)
    requires Compute(s.ledger) == Broken && Legal(s, run)
    ensures Compute(After(s, run).ledger) == Broken
    decreases |run|
  {
    if run != [] {
      StepExtends(s, run[0]);
      ExtendedStaysBroken(s.ledger, Apply(s, run[0]).ledger);
      BrokenRuns(Apply(s, run[0]), run[1..]);
    }
  }

  /** An unsound step breaks the compute meter. */
  lemma UnsoundBreaks(s: Vm, st: Step)
    requires LedgerInv(s) && Enabled(s, st) && !Sound(s, st)
    ensures Compute(Apply(s, st).ledger) == Broken
  {
    if st == RestoreVm(DoFinalizeRestore) {
      FinalizeFits(s);
    } else {
      DeleteClosesExactly(s, s.pc.x.hadOpen, s.pc.x.stoppedByUs);
    }
  }

  lemma {:induction false} RunKeepsLedger(s: Vm, run: seq<Step>)
    requires LedgerInv(s) && Legal(s, run)
    ensures LedgerOk(After(s, run)) <==> SoundRun(s, run)
    decreases |run|
  {
    if run != [] {
      var t := Apply(s, run[0]);
      if Sound(s, run[0]) {
        StepKeepsLedger(s, run[0]);
        RunKeepsLedger(t, run[1..]);
      } else {
        UnsoundBreaks(s, run[0]);
        BrokenRuns(t, run[1..]);
      }
    }
  }

  /**
    Over every run, compute and storage entries alternate, compute is open exactly while StartedAt is set and
    StoppedAt is not, and storage exactly while a finished record exists, if and only if each restore that was
    finalized found no open interval and each delete believed open exactly the interval its record held. A deleted VM
    then leaves both closed.
  */
  lemma LedgerIsWellFormed(run: seq<Step>)
    requires Legal(Init(), run)
    ensures LedgerOk(After(Init(), run)) <==> SoundRun(Init(), run)
    ensures SoundRun(Init(), run) && After(Init(), run).rec == None ==>
              Compute(After(Init(), run).ledger) == Storage(After(Init(), run).ledger) == Shut
  {
    RunKeepsLedger(Init(), run);
  }

  lemma StepThen(s: Vm, st: Step, rest: seq<Step>)
    requires Enabled(s, st) && Legal(Apply(s, st), rest)
    ensures Legal(s, [st] + rest) && After(s, [st] + rest) == After(Apply(s, st), rest)
  {
    assert ([st] + rest)[1..] == rest;
  }

  /** Two steps on end. */
  lemma StepsThen(s: Vm, a: Step, b: Step, rest: seq<Step>)
    requires Enabled(s, a) && Enabled(Apply(s, a), b) && Legal(Apply(Apply(s, a), b), rest)
    ensures Legal(s, [a, b] + rest) && After(s, [a, b] + rest) == After(Apply(Apply(s, a), b), rest)
  {
    StepThen(Apply(s, a), b, rest);
    StepThen(s, a, [b] + rest);
    assert [a, b] + rest == [a] + ([b] + rest);
  }

  // ----- which restores and deletes keep the ledger

  const FINALIZES := RestoreVm(DoFinalizeRestore)
  const STOP_LANDS := RestoreVm(DoRestoreStop(true))

  /** A step of a restore in progress, or of the world around it. */
  predicate OfRestore(st: Step) { st.World? || (st.RestoreVm? && !st.restore.RestoreBegin?) }

  /** Where a restore that began with record `r` is, with regard to its interval. */
  predicate Restoring(s: Vm, r: Rec, stopped: bool) {
    && s.rec.Some? && s.pc.InRestore?
    && (s.pc.r == RLocked || s.pc.r == RKilled ==> s.rec.value == r && !stopped)
    && (HasOpen(s.rec.value) <==> HasOpen(r) && !stopped)
  }

  lemma RestoringStep(s: Vm, st: Step, r: Rec, stopped: bool)
    requires Restoring(s, r, stopped) && Enabled(s, st) && OfRestore(st)
    ensures Apply(s, st).pc == Free || Restoring(Apply(s, st), r, stopped || st == STOP_LANDS)
    ensures st == FINALIZES ==> Apply(s, st).pc == Free
    ensures Sound(s, st) <==> st != FINALIZES || stopped || !HasOpen(r)
  {
    if st.RestoreVm? {
      RestoringRestore(s, st.restore, r, stopped);
    }
  }

  lemma RestoringRestore(s: Vm, st: RestoreStep, r: Rec, stopped: bool)
    requires Restoring(s, r, stopped) && RestoreEnabled(s, st)
    ensures var t := RestoreStepApply(s, st);
            t.pc == Free || Restoring(t, r, stopped || st == DoRestoreStop(true))
  {
  }

  /** Once the restore is over, nothing of it is left to happen. */
  lemma {:induction false} RestoreIsOver(s: Vm, run: seq<Step>)
    requires s.pc == Free && Legal(s, run) && (forall st <- run :: OfRestore(st))
    ensures SoundRun(s, run) && FINALIZES !in run && STOP_LANDS !in run
    decreases |run|
  {
    if run != [] {
      assert run == [run[0]] + run[1..] && OfRestore(run[0]);
      RestoreIsOver(Apply(s, run[0]), run[1..]);
    }
  }

  lemma {:induction false} RestoringRun(s: Vm, run: seq<Step>, r: Rec, stopped: bool)
    requires Restoring(s, r, stopped) && Legal(s, run) && (forall st <- run :: OfRestore(st))
    ensures SoundRun(s, run) <==> FINALIZES !in run || stopped || STOP_LANDS in run || !HasOpen(r)
    decreases |run|
  {
    if run != [] {
      var t := Apply(s, run[0]);
      assert run == [run[0]] + run[1..];
      RestoringStep(s, run[0], r, stopped);
      if t.pc == Free {
        RestoreIsOver(t, run[1..]);
      } else {
        RestoringRun(t, run[1..], r, stopped || run[0] == STOP_LANDS);
      }
    }
  }

  /**
    Every restore, however it goes and wherever it ends, keeps the ledger if and only if it never finalized, its stop
    was recorded, or no interval was open when it began.
  */
  lemma LostRestoreStopExactly(s: Vm, run: seq<Step>)
    requires LedgerInv(s) && Legal(s, run) && run != [] && run[0] == RestoreVm(RestoreBegin)
    requires forall st <- run[1..] :: OfRestore(st)
    ensures LedgerOk(After(s, run)) <==> FINALIZES !in run || STOP_LANDS in run || !HasOpen(s.rec.value)
  {
    assert run == [run[0]] + run[1..];
    RunKeepsLedger(s, run);
    RestoringRun(Apply(s, run[0]), run[1..], s.rec.value, false);
  }

  const REREAD_FAILS := Delete(DeleteRereads(false))
  const STOP_RECORDED := Stop(StopMark(true))

  /** A step of a delete before it removes the record, its forced stop included, or of the world around it. */
  predicate OfDelete(st: Step) {
    st.World? || st.Stop? || (st.Delete? && !st.delete.DeleteBegin? && !st.delete.DoDelete?)
  }

  /** Where a delete that began with record `r` is, with regard to its interval. */
  predicate Deleting(s: Vm, r: Rec, recorded: bool, lost: bool) {
    && s.rec.Some? && (s.rec.value.state == Creating ==> r.state == Creating)
    && match s.pc
       case InStop(del, had, t) =>
         && del && had == HasOpen(r) && !lost
         && (t.TLocked? || t.TDown? ==> !recorded && HasOpen(s.rec.value) == HasOpen(r))
         && (t.TDown? && !t.wentDown ==> !HasOpen(r))
         && (t.TMarked? || t.TQuiesced? ==> HasOpen(s.rec.value) == (HasOpen(r) && !recorded))
       case InDelete(x) =>
         && (x.XLocked? ==> s.rec.value == r && !recorded && !lost)
         && (x.XStopped? ==> !lost && x.had == HasOpen(r))
         && (x.XReady? ==> x.hadOpen == HasOpen(if lost then r else s.rec.value))
         && HasOpen(s.rec.value) == (HasOpen(r) && !recorded)
       case _ => false
  }

  /** The delete was given up. */
  predicate GivenUp(s: Vm) { s.pc == Free || (s.pc.InStop? && !s.pc.del) }

  lemma DeletingStep(s: Vm, st: Step, r: Rec, recorded: bool, lost: bool)
    requires Deleting(s, r, recorded, lost) && Enabled(s, st) && OfDelete(st)
    ensures GivenUp(Apply(s, st)) ||
            Deleting(Apply(s, st), r, recorded || st == STOP_RECORDED, lost || st == REREAD_FAILS)
    ensures Sound(s, st)
  {
    match st
    case World(_) =>
    case Stop(x) => DeletingStop(s, x, r, recorded);
    case Delete(_) =>
  }

  lemma DeletingStop(s: Vm, st: StopStep, r: Rec, recorded: bool)
    requires Deleting(s, r, recorded, false) && StopEnabled(s, st)
    ensures GivenUp(StopApply(s, st)) || Deleting(StopApply(s, st), r, recorded || st == StopMark(true), false)
  {
  }

  /** A delete that was given up does not come back. */
  lemma {:induction false} GivenUpStays(s: Vm, run: seq<Step>)
    requires GivenUp(s) && Legal(s, run) && (forall st <- run :: OfDelete(st))
    ensures GivenUp(After(s, run))
    decreases |run|
  {
    if run != [] {
      assert OfDelete(run[0]);
      GivenUpStays(Apply(s, run[0]), run[1..]);
    }
  }

  lemma {:induction false} DeletingRun(s: Vm, run: seq<Step>, r: Rec, recorded: bool, lost: bool)
    requires Deleting(s, r, recorded, lost) && Legal(s, run) && (forall st <- run :: OfDelete(st))
    ensures GivenUp(After(s, run)) ||
            (SoundRun(s, run)
             && Deleting(After(s, run), r, recorded || STOP_RECORDED in run, lost || REREAD_FAILS in run))
    decreases |run|
  {
    if run != [] {
      var t := Apply(s, run[0]);
      assert run == [run[0]] + run[1..];
      DeletingStep(s, run[0], r, recorded, lost);
      if GivenUp(t) {
        GivenUpStays(t, run[1..]);
      } else {
        DeletingRun(t, run[1..], r, recorded || run[0] == STOP_RECORDED, lost || run[0] == REREAD_FAILS);
      }
    }
  }

  /**
    Every delete, by whatever path it comes to remove the record, leaves the ledger closed if and only if no re-read
    failed, no stop was recorded on the way, or no interval was open when it began.
  */
  lemma ForcedDeleteExactly(s: Vm, run: seq<Step>)
    requires LedgerInv(s) && Exists(s) && s.pc == InDelete(XLocked)
    requires Legal(s, run) && (forall st <- run :: OfDelete(st)) && Enabled(After(s, run), Delete(DoDelete))
    ensures LedgerOk(Apply(After(s, run), Delete(DoDelete))) <==>
            REREAD_FAILS !in run || STOP_RECORDED !in run || !HasOpen(s.rec.value)
  {
    var t := After(s, run);
    DeletingRun(s, run, s.rec.value, false, false);
    RunKeepsLedger(s, run);
    RunKeepsInv(s, run);
    if Finished(t) {
      DeleteClosesExactly(t, t.pc.x.hadOpen, t.pc.x.stoppedByUs);
    }
  }

  /** The record a death leaves when it strikes after the commit and before the entries. */
  function Unbooked(s: Vm, tx: Tx): Vm { s.(rec := Some(tx.rec), pc := Free) }

  /** A death between a metered commit and its entries keeps the ledger exactly when the interval did not change. */
  lemma DeathBeforeEntries(s: Vm, tx: Tx)
    requires LedgerOk(s) && Exists(s) && Metered(s.rec.value, tx)
    ensures LedgerOk(Unbooked(s, tx)) <==> HasOpen(tx.rec) == HasOpen(s.rec.value)
  {
  }

  /**
    By transaction: such a death after a stop, a convergence or a restore's stop is harmless exactly when no interval
    was open, and after a start, an adoption that takes hold or a restore's finalization exactly when one was.
  */
  lemma DeathBeforeEntriesExactly(s: Vm, gen: nat)
    requires LedgerOk(s) && Finished(s)
    ensures var r := s.rec.value;
            && (LedgerOk(Unbooked(s, UpdateStopped(r))) <==> !HasOpen(r))
            && (LedgerOk(Unbooked(s, ConvergeDead(r, gen))) <==> r.gen != gen || !HasOpen(r))
            && (LedgerOk(Unbooked(s, RestoreStop(r))) <==> !HasOpen(r))
            && (LedgerOk(Unbooked(s, MarkStarted(r))) <==> HasOpen(r))
            && (LedgerOk(Unbooked(s, ReconcileToRunning(r, s.dirty))) <==>
                r.state == Running || r.quarantined || s.dirty || HasOpen(r))
            && (LedgerOk(Unbooked(s, FinalizeRestore(r))) <==> HasOpen(r))
  {
    var r := s.rec.value;
    StateTxMetered(r, s.dirty);
    ConvergeTxMetered(r, gen);
    RestoreTxMetered(r);
    DeathBeforeEntries(s, UpdateStopped(r));
    DeathBeforeEntries(s, ConvergeDead(r, gen));
    DeathBeforeEntries(s, RestoreStop(r));
    DeathBeforeEntries(s, MarkStarted(r));
    DeathBeforeEntries(s, ReconcileToRunning(r, s.dirty));
  }

  /**
    After the commit that finishes a create or a clone such a death is never harmless, and after the commit that removes
    a record exactly when the record was a placeholder.
  */
  lemma DeathAroundTheRecordExactly(s: Vm, nics: bool)
    requires LedgerInv(s) && Exists(s)
    ensures !Finished(s) ==> !LedgerOk(Unbooked(s, FinalizeCreate(nics)))
    ensures !Finished(s) ==> !LedgerOk(Unbooked(s, FinalizeClone(s.rec.value, nics)))
    ensures LedgerOk(s.(rec := None, net := false, pc := Free)) <==> !Finished(s)
  {
  }

  // ----- runs from the empty store

  ghost predicate Reached(s: Vm) { exists run: seq<Step> :: Legal(Init(), run) && After(Init(), run) == s }

  lemma {:induction false} RunsJoin(s: Vm, a: seq<Step>, b: seq<Step>)
    requires Legal(s, a) && Legal(After(s, a), b)
    ensures Legal(s, a + b) && After(s, a + b) == After(After(s, a), b)
    decreases |a|
  {
    if a == [] {
      assert a + b == b;
    } else {
      RunsJoin(Apply(s, a[0]), a[1..], b);
      assert (a + b)[1..] == a[1..] + b;
    }
  }

  lemma Reach(s: Vm, run: seq<Step>)
    requires Reached(s) && Legal(s, run)
    ensures Reached(After(s, run))
  {
    var first: seq<Step> :| Legal(Init(), first) && After(Init(), first) == s;
    RunsJoin(Init(), first, run);
  }

  lemma Go(s: Vm, st: Step) returns (t: Vm)
    requires Reached(s) && Enabled(s, st)
    ensures t == Apply(s, st) && Reached(t)
  {
    t := Apply(s, st);
    StepThen(s, st, []);
    Reach(s, [st] + []);
  }

  lemma GoSoundly(s: Vm, st: Step) returns (t: Vm)
    requires Reached(s) && LedgerInv(s) && Enabled(s, st) && Sound(s, st)
    ensures t == Apply(s, st) && Reached(t) && LedgerInv(t)
  {
    t := Go(s, st);
    StepKeepsLedger(s, st);
  }

  /** A VM cloned with plumbing and running. */
  lemma RunningVm() returns (s: Vm)
    ensures Reached(s) && LedgerInv(s) && s.pc == Free && s.vmm && s.net && !s.dirty
    ensures s.rec.Some? && s.rec.value.state == Running && s.rec.value.nics && HasOpen(s.rec.value)
    ensures !s.rec.value.pending
  {
    assert Legal(Init(), []) && After(Init(), []) == Init();
    s := GoSoundly(Init(), Create(Reserve));
    s := GoSoundly(s, Create(CreateNet));
    s := GoSoundly(s, Create(CloneLaunch));
    s := GoSoundly(s, Create(DoFinalizeClone(true)));
  }

  /** A running VM that a delete has stopped, recorded and quiesced. */
  lemma StoppedForDelete() returns (s: Vm)
    ensures Reached(s) && LedgerInv(s) && s.pc == InDelete(XStopped(true)) && Finished(s) && !HasOpen(s.rec.value)
  {
    s := RunningVm();
    s := GoSoundly(s, Delete(DeleteBegin));
    s := GoSoundly(s, Delete(DeleteStops));
    s := GoSoundly(s, Stop(StopShutdown));
    s := GoSoundly(s, Stop(StopMark(true)));
    s := GoSoundly(s, Stop(StopQuiesce(true)));
    s := GoSoundly(s, Stop(StopClear(true)));
  }

  /** A run that deletes a running VM, loses the re-read and books its compute interval closed twice. */
  lemma FailedRereadBreaksTheLedger() returns (s: Vm)
    ensures Reached(s) && s.rec == None && Compute(s.ledger) == Broken
  {
    s := StoppedForDelete();
    s := GoSoundly(s, Delete(DeleteRereads(false)));
    UnsoundBreaks(s, Delete(DoDelete));
    s := Go(s, Delete(DoDelete));
  }

  /** A run that restores a running VM, loses the stop and books its compute interval opened twice. */
  lemma LostRestoreStopBreaksTheLedger() returns (s: Vm)
    ensures Reached(s) && Compute(s.ledger) == Broken
  {
    s := RunningVm();
    s := GoSoundly(s, RestoreVm(RestoreBegin));
    s := GoSoundly(s, RestoreVm(RestoreKill));
    s := GoSoundly(s, RestoreVm(DoRestoreStop(false)));
    s := GoSoundly(s, RestoreVm(RestoreApply));
    s := GoSoundly(s, RestoreVm(RestoreNet));
    s := GoSoundly(s, RestoreVm(RestorePlaces("", "")));
    s := GoSoundly(s, RestoreVm(RestoreLaunch));
    UnsoundBreaks(s, RestoreVm(DoFinalizeRestore));
    s := Go(s, RestoreVm(DoFinalizeRestore));
  }

  // ----- where each commit lands, field by field

  /** Running, or with an interval left open: what the record of a dead VM must not stay. */
  predicate Unsettled(r: Rec) { r.state == Running || (r.started && !r.stopped) }

  /** Stopped: the interval closed, no cpus held, a quiesce owed for the plumbing, one transition on. */
  predicate LandsStopped(r: Rec, t: Rec) {
    && t.state == Stopped && t.stopped == (r.stopped || Unsettled(r)) && t.cpuSet == "" && t.queueCPUs == ""
    && t.pending == r.nics && t.gen == r.gen + 1
    && t.started == r.started && t.booted == r.booted && t.nics == r.nics && t.quarantined == r.quarantined
  }

  /** Running: an interval open, nothing owed, the placement and the plumbing as they were. */
  predicate LandsRunning(r: Rec, t: Rec) {
    && t.state == Running && t.started && !t.stopped && !t.pending && t.gen == r.gen + 1
    && t.cpuSet == r.cpuSet && t.queueCPUs == r.queueCPUs && t.nics == r.nics
  }

  /** In error: nothing but the state, the transition count and perhaps the quarantine has changed. */
  predicate LandsError(r: Rec, t: Rec, quarantined: bool) {
    && t.state == Error && t.gen == r.gen + 1 && t.quarantined == quarantined
    && t.started == r.started && t.stopped == r.stopped && t.booted == r.booted
    && t.pending == r.pending && t.nics == r.nics && t.cpuSet == r.cpuSet && t.queueCPUs == r.queueCPUs
  }

  /** Nothing but the placement and the quiesce mark has changed. */
  predicate OnlyPlaced(r: Rec, t: Rec, cpuSet: string, queueCPUs: string) {
    && t.cpuSet == cpuSet && t.queueCPUs == queueCPUs && t.pending == (r.pending || (r.state != Creating && r.nics))
    && t.state == r.state && t.gen == r.gen && t.started == r.started && t.stopped == r.stopped
    && t.booted == r.booted && t.quarantined == r.quarantined && t.nics == r.nics
  }

  /** A failed operation: no cpus held, a quiesce owed, in error if asked. */
  predicate LandsFailed(r: Rec, t: Rec, markError: bool) {
    && t.cpuSet == "" && t.queueCPUs == "" && t.pending == r.nics && t.state == (if markError then Error else r.state)
    && t.gen == (if markError && r.state != Error then r.gen + 1 else r.gen)
    && t.started == r.started && t.stopped == r.stopped && t.booted == r.booted
    && t.nics == r.nics && t.quarantined == r.quarantined
  }

  lemma StopTxLands(r: Rec, gen: nat)
    ensures LandsStopped(r, UpdateStopped(r).rec)
    ensures if r.gen == gen && r.state != Creating && Unsettled(r) then LandsStopped(r, ConvergeDead(r, gen).rec)
            else ConvergeDead(r, gen).rec == r
    ensures if r.started && !r.stopped then LandsStopped(r, RestoreStop(r).rec) else RestoreStop(r).rec == r
    ensures !Unsettled(UpdateStopped(r).rec) && !Unsettled(RestoreStop(r).rec.(state := Stopped))
  {
  }

  lemma RunTxLands(r: Rec, dirty: bool)
    ensures LandsRunning(r, MarkStarted(r).rec) && MarkStarted(r).rec.booted
    ensures MarkStarted(r).rec.quarantined == r.quarantined
    ensures LandsRunning(r, FinalizeRestore(r).rec) && !FinalizeRestore(r).rec.quarantined
    ensures if r.state == Running || r.state == Creating || r.quarantined || dirty
            then ReconcileToRunning(r, dirty).rec == r
            else LandsRunning(r, ReconcileToRunning(r, dirty).rec)
                 && ReconcileToRunning(r, dirty).rec.booted == (r.booted || !(r.started && !r.stopped))
  {
  }

  lemma OtherTxLands(r: Rec, gen: nat, markError: bool, c: string, q: string)
    ensures LandsError(r, UpdateError(r).rec, r.quarantined) && LandsError(r, QuarantineVM(r).rec, true)
    ensures LandsFailed(r, MarkFailed(r, markError).rec, markError) && OnlyPlaced(r, Place(r, c, q).rec, c, q)
    ensures ClearPending(r, gen).rec == if r.gen == gen then r.(pending := false) else r
  {
    MarkTxLands(r, markError, c, q);
  }

  lemma MarkTxLands(r: Rec, markError: bool, c: string, q: string)
    ensures LandsFailed(r, MarkFailed(r, markError).rec, markError) && OnlyPlaced(r, Place(r, c, q).rec, c, q)
  {
  }

  /** A commit that leaves a stopped record. */
  predicate Settles(s: Vm, st: Step)
    requires Enabled(s, st) && s.rec.Some?
  {
    var r := s.rec.value;
    || (st == Start(StartConverges(true)) && Unsettled(r))
    || (st == Stop(StopMark(true)) && s.pc.t.wentDown)
    || (st == RestoreVm(DoRestoreStop(true)) && r.started && !r.stopped)
    || (st == Supervise(DoConverge) && Unsettled(r) && r.state != Creating)
  }

  /** One that leaves a running record. */
  predicate Raises(s: Vm, st: Step)
    requires Enabled(s, st) && s.rec.Some?
  {
    var r := s.rec.value;
    || st == Start(StartDone(true)) || st == RestoreVm(DoFinalizeRestore)
    || ((st == Start(StartReconciles) || st == Supervise(AdoptReconciles))
        && r.state != Running && r.state != Creating && !r.quarantined && !s.dirty)
  }

  /** One that leaves a record in error. */
  predicate Errs(s: Vm, st: Step)
    requires Enabled(s, st) && s.rec.Some?
  {
    || st == Start(StartInvalid(true)) || st == Stop(StopFails(true)) || st == RestoreVm(RestoreApplyFails(true, true))
    || (st == RestoreVm(RestoreKillFails(true)) && !s.pc.originStopped)
  }

  /** One that records a placement. */
  predicate Places(st: Step) {
    || (st.Start? && st.start.StartPlaces?) || (st.RestoreVm? && st.restore.RestorePlaces?)
    || (st.Create? && st.create.ClonePlaces?)
  }

  function PlacedAs(st: Step): (string, string)
    requires Places(st)
  {
    match st
    case Start(x) => (x.cpuSet, x.queueCPUs)
    case RestoreVm(x) => (x.cpuSet, x.queueCPUs)
    case Create(x) => (x.cpuSet, x.queueCPUs)
  }

  predicate FailMark(st: Step) { st == Start(StartMarkFailed(true)) || st == RestoreVm(RestoreMarkFailed(true)) }

  predicate Clears(st: Step) { st == Stop(StopClear(true)) || st == Supervise(ConvergeClear(true)) }

  lemma SettlesLand(s: Vm, st: Step)
    requires Inv(s) && Enabled(s, st) && s.rec.Some? && Settles(s, st)
    ensures Apply(s, st).rec.Some? && LandsStopped(s.rec.value, Apply(s, st).rec.value)
  {
    var r := s.rec.value;
    StopTxLands(r, r.gen);
    if st == Supervise(DoConverge) {
      assert (match s.pc.event case Some(g) => g case None => s.pc.at) == r.gen;
    }
  }

  lemma RaisesLand(s: Vm, st: Step)
    requires Inv(s) && Enabled(s, st) && s.rec.Some? && Raises(s, st)
    ensures Apply(s, st).rec.Some? && LandsRunning(s.rec.value, Apply(s, st).rec.value)
  {
    RunTxLands(s.rec.value, s.dirty);
  }

  lemma ErrsLand(s: Vm, st: Step)
    requires Inv(s) && Enabled(s, st) && s.rec.Some? && Errs(s, st)
    ensures Apply(s, st).rec.Some?
    ensures LandsError(s.rec.value, Apply(s, st).rec.value,
                       s.rec.value.quarantined || st == RestoreVm(RestoreApplyFails(true, true)))
  {
    OtherTxLands(s.rec.value, 0, true, "", "");
  }

  lemma PlacesLand(s: Vm, st: Step)
    requires Inv(s) && Enabled(s, st) && s.rec.Some? && Places(st)
    ensures Apply(s, st).rec.Some?
    ensures OnlyPlaced(s.rec.value, Apply(s, st).rec.value, PlacedAs(st).0, PlacedAs(st).1)
  {
    OtherTxLands(s.rec.value, 0, true, PlacedAs(st).0, PlacedAs(st).1);
  }

  lemma FailuresLand(s: Vm, st: Step)
    requires Inv(s) && Enabled(s, st) && s.rec.Some? && FailMark(st)
    ensures Apply(s, st).rec.Some?
    ensures LandsFailed(s.rec.value, Apply(s, st).rec.value, st.Start? || !s.pc.originStopped)
  {
    OtherTxLands(s.rec.value, 0, st.Start? || !s.pc.originStopped, "", "");
  }

  lemma ClearsLand(s: Vm, st: Step)
    requires Inv(s) && Enabled(s, st) && s.rec.Some? && Clears(st)
    ensures Apply(s, st).rec == Some(s.rec.value.(pending := false))
  {
    OtherTxLands(s.rec.value, s.rec.value.gen, true, "", "");
  }

  /** A commit of a create: an unstarted record, or for a clone a running one. */
  predicate Finishes(st: Step) {
    && st.Create?
    && (st.create.Reserve? || st.create.DoFinalizeCreate? || st.create.DoFinalizeClone? || st.create.Rollback?)
  }

  lemma FinishesLand(s: Vm, st: CreateStep)
    requires Inv(s) && CreateEnabled(s, st) && Finishes(Create(st))
    ensures var t := CreateApply(s, st).rec;
            && (st.Rollback? ==> t.None? && !CreateApply(s, st).net)
            && (st.Reserve? ==> t.Some? && t.value.state == Creating && !t.value.started)
            && (st.DoFinalizeCreate? ==>
                  && t.Some? && t.value.state == Created && t.value.gen == 1 && !t.value.started && !t.value.booted
                  && t.value.nics == st.nics && t.value.cpuSet == "" && t.value.queueCPUs == "")
            && (st.DoFinalizeClone? ==>
                  t.Some? && t.value.booted && LandsRunning(s.rec.value.(nics := st.nics), t.value))
  {
  }

  /** Any other step but a delete's leaves the record alone. */
  predicate Commits(s: Vm, st: Step)
    requires Enabled(s, st)
  {
    || Finishes(st) || st == Delete(DoDelete) || Places(st) || FailMark(st) || Clears(st)
    || (s.rec.Some? && (Settles(s, st) || Raises(s, st) || Errs(s, st)))
  }

  lemma OthersKeepTheRecord(s: Vm, st: Step)
    requires Inv(s) && Enabled(s, st) && !Commits(s, st)
    ensures Apply(s, st).rec == s.rec
  {
    if s.rec.Some? {
      match st
      case Start(x) => StartKeepsRecord(s, x);
      case Stop(x) => StopKeepsRecord(s, x);
      case RestoreVm(x) => RestoreKeepsRecord(s, x);
      case Supervise(x) => SuperviseKeepsRecord(s, x);
      case _ =>
    }
  }

  lemma StartKeepsRecord(s: Vm, st: StartStep)
    requires Inv(s) && StartEnabled(s, st) && s.rec.Some? && !Commits(s, Start(st))
    ensures StartApply(s, st).rec == s.rec
  {
    StopTxLands(s.rec.value, s.rec.value.gen);
    RunTxLands(s.rec.value, s.dirty);
  }

  lemma StopKeepsRecord(s: Vm, st: StopStep)
    requires Inv(s) && StopEnabled(s, st) && s.rec.Some? && !Commits(s, Stop(st))
    ensures StopApply(s, st).rec == s.rec
  {
  }

  lemma RestoreKeepsRecord(s: Vm, st: RestoreStep)
    requires Inv(s) && RestoreEnabled(s, st) && s.rec.Some? && !Commits(s, RestoreVm(st))
    ensures RestoreStepApply(s, st).rec == s.rec
  {
    StopTxLands(s.rec.value, s.rec.value.gen);
  }

  lemma SuperviseKeepsRecord(s: Vm, st: SuperviseStep)
    requires Inv(s) && SuperviseEnabled(s, st) && s.rec.Some? && !Commits(s, Supervise(st))
    ensures SuperviseApply(s, st).rec == s.rec
  {
    RunTxLands(s.rec.value, s.dirty);
    if st == DoConverge {
      StopTxLands(s.rec.value, match s.pc.event case Some(g) => g case None => s.pc.at);
    }
  }

  /** What a step leaves of the record it found. */
  predicate Landed(s: Vm, st: Step, r: Rec, t: Option<Rec>)
    requires Enabled(s, st) && s.rec == Some(r)
  {
    && (Settles(s, st) ==> t.Some? && LandsStopped(r, t.value) && !Unsettled(t.value))
    && (Raises(s, st) ==> t.Some? && LandsRunning(r, t.value))
    && (Errs(s, st) ==>
          t.Some? && LandsError(r, t.value, r.quarantined || st == RestoreVm(RestoreApplyFails(true, true))))
    && (Places(st) ==> t.Some? && OnlyPlaced(r, t.value, PlacedAs(st).0, PlacedAs(st).1))
    && (FailMark(st) ==> t.Some? && LandsFailed(r, t.value, st.Start? || !s.pc.originStopped))
    && (Clears(st) ==> t == Some(r.(pending := false)))
    && (!Commits(s, st) ==> t == Some(r))
  }

  lemma StepLands(s: Vm, st: Step)
    requires Inv(s) && Enabled(s, st) && s.rec.Some?
    ensures Landed(s, st, s.rec.value, Apply(s, st).rec)
  {
    if Settles(s, st) { SettlesLand(s, st); }
    if Raises(s, st) { RaisesLand(s, st); }
    if Errs(s, st) { ErrsLand(s, st); }
    if Places(st) { PlacesLand(s, st); }
    if FailMark(st) { FailuresLand(s, st); }
    if Clears(st) { ClearsLand(s, st); }
    if !Commits(s, st) { OthersKeepTheRecord(s, st); }
  }

  /**
    Over every run, what each commit leaves in the record. A convergence that finds the record running or with an open
    interval, a stop and a restore's stop leave it stopped, with no interval open, no cpus held and nothing left to
    converge. A start, a restore's finalization and an adoption that takes hold leave it running with an interval
    open. A failed stop, kill or start leaves it in error, a mixed disk also in quarantine. A placement is stored as
    given, a failure mark gives it up, a cleared mark is gone, and no other step but a create's and a delete's touches
    the record.
  */
  lemma CommitsLand(run: seq<Step>, st: Step)
    requires Legal(Init(), run) && Enabled(After(Init(), run), st) && After(Init(), run).rec.Some?
    ensures var s := After(Init(), run); Landed(s, st, s.rec.value, Apply(s, st).rec)
  {
    RunKeepsInv(Init(), run);
    StepLands(After(Init(), run), st);
  }

  /** The entries each transaction books, with the reasons they carry. */
  lemma EntriesTell(r: Rec, gen: nat, dirty: bool, nics: bool, stoppedByUs: bool)
    requires r.state != Creating
    ensures var open := r.started && !r.stopped; var boot := if r.booted then Restart else Boot;
            && UpdateStopped(r).emits == (if open then One(Entry(ComputeStop, StopUser)) else Nothing)
            && RestoreStop(r).emits == (if open then One(Entry(ComputeStop, Restore)) else Nothing)
            && ConvergeDead(r, gen).emits ==
               (if open && r.gen == gen then One(Entry(ComputeStop, StopCrash)) else Nothing)
            && MarkStarted(r).emits == (if open then Two(Entry(ComputeStop, StopCrash), Entry(ComputeStart, boot))
                                        else One(Entry(ComputeStart, boot)))
            && ReconcileToRunning(r, dirty).emits ==
               (if open || r.state == Running || r.quarantined || dirty then Nothing
                else One(Entry(ComputeStart, boot)))
            && FinalizeCreate(nics).emits == One(Entry(StorageStart, Boot))
            && FinalizeClone(r, nics).emits == Two(Entry(StorageStart, Clone), Entry(ComputeStart, Clone))
            && DeleteEmits(r, false, stoppedByUs) == One(Entry(StorageStop, VMRemove))
            && DeleteEmits(r, true, stoppedByUs) ==
               Two(Entry(ComputeStop, if stoppedByUs then StopUser else StopCrash), Entry(StorageStop, VMRemove))
  {
  }

  // ----- what each step does outside the record

  predicate Launches(st: Step) {
    st == Start(StartLaunch) || st == RestoreVm(RestoreLaunch) || st == Create(CloneLaunch)
  }

  /** The VMM is gone after these, whatever it was before. */
  predicate Kills(st: Step) {
    || st == World(VmmExits) || st == Stop(StopShutdown) || st == Stop(HibernateTerminate)
    || st == RestoreVm(RestoreKill) || st == Delete(DeleteKillsOrphan)
    || st == Start(StartPostFails(true)) || st == RestoreVm(RestoreAbort(true)) || st == Create(Rollback(true))
  }

  lemma VmmMoves(s: Vm, st: Step)
    requires Enabled(s, st)
    ensures Apply(s, st).vmm == if Launches(st) then true else if Kills(st) then false else s.vmm
  {
    match st
    case World(_) =>
    case Create(_) =>
    case Start(x) => StartMovesOutside(s, x);
    case Stop(x) => StopMovesOutside(s, x);
    case RestoreVm(x) => RestoreMovesOutside(s, x);
    case Delete(_) =>
    case Supervise(x) => SuperviseMovesOutside(s, x);
  }

  lemma StartMovesOutside(s: Vm, st: StartStep)
    requires StartEnabled(s, st)
    ensures StartApply(s, st).vmm == (st == StartLaunch || (s.vmm && st != StartPostFails(true)))
    ensures StartApply(s, st).dirty == (s.dirty && st != StartBegin)
    ensures StartApply(s, st).net == (match st
                                      case StartNet => s.rec.value.nics
                                      case StartNetFails(up) => s.net || (up && s.rec.value.nics)
                                      case _ => s.net)
  {
  }

  lemma StopMovesOutside(s: Vm, st: StopStep)
    requires StopEnabled(s, st)
    ensures StopApply(s, st).vmm == (s.vmm && st != StopShutdown && st != HibernateTerminate)
    ensures StopApply(s, st).dirty == s.dirty
    ensures StopApply(s, st).net == (s.net && !(st == StopQuiesce(true) && s.pc.t.due))
  {
  }

  lemma RestoreMovesOutside(s: Vm, st: RestoreStep)
    requires RestoreEnabled(s, st)
    ensures RestoreStepApply(s, st).vmm ==
            (st == RestoreLaunch || (s.vmm && st != RestoreKill && st != RestoreAbort(true)))
    ensures RestoreStepApply(s, st).dirty ==
            (st == RestoreApply || (st.RestoreApplyFails? && st.marked) || (s.dirty && st != DoFinalizeRestore))
    ensures RestoreStepApply(s, st).net == (match st
                                            case RestoreNet => s.rec.value.nics
                                            case RestoreNetFails(up) => s.net || (up && s.rec.value.nics)
                                            case _ => s.net)
  {
  }

  lemma SuperviseMovesOutside(s: Vm, st: SuperviseStep)
    requires SuperviseEnabled(s, st)
    ensures SuperviseApply(s, st).vmm == s.vmm && SuperviseApply(s, st).dirty == s.dirty
    ensures SuperviseApply(s, st).net == (s.net && !(st == ConvergeQuiesce(true) && s.rec.value.pending))
  {
  }

  /** A restore of a running VM that runs through: running again on the restored disk, marked clean, placed anew. */
  lemma RestoredVm(cpuSet: string, queueCPUs: string) returns (s: Vm)
    ensures Reached(s) && s.pc == Free && s.vmm && s.net && !s.dirty && s.rec.Some?
    ensures s.rec.value == Rec(Running, 4, true, false, true, false, false, true, cpuSet, queueCPUs)
  {
    s := StartedVm("", "");
    s := Go(s, RestoreVm(RestoreBegin));
    s := Go(s, RestoreVm(RestoreKill));
    s := Go(s, RestoreVm(DoRestoreStop(true)));
    s := Go(s, RestoreVm(RestoreApply));
    s := Go(s, RestoreVm(RestoreNet));
    s := Go(s, RestoreVm(RestorePlaces(cpuSet, queueCPUs)));
    s := Go(s, RestoreVm(RestoreLaunch));
    s := Go(s, RestoreVm(DoFinalizeRestore));
  }

  lemma CreatedVm() returns (s: Vm)
    ensures Reached(s) && s == Vm(Some(Rec(Created, 1, false, false, false, false, false, true, "", "")),
                                  Log(Blank, Entry(StorageStart, Boot)), false, true, false, Free)
  {
    assert Legal(Init(), []) && After(Init(), []) == Init();
    s := Go(Init(), Create(Reserve));
    s := Go(s, Create(CreateNet));
    s := Go(s, Create(DoFinalizeCreate(true)));
  }

  /** A VM created with plumbing, placed and started. */
  lemma StartedVm(cpuSet: string, queueCPUs: string) returns (s: Vm)
    ensures Reached(s) && s.pc == Free && s.vmm && s.net && !s.dirty && s.rec.Some?
    ensures s.rec.value == Rec(Running, 2, true, false, true, false, false, true, cpuSet, queueCPUs)
  {
    s := CreatedVm();
    s := Go(s, Start(StartBegin));
    s := Go(s, Start(StartSeesDead));
    s := Go(s, Start(StartConverges(true)));
    s := Go(s, Start(StartPlaces(cpuSet, queueCPUs)));
    s := Go(s, Start(StartNet));
    s := Go(s, Start(StartLaunch));
    s := Go(s, Start(StartDone(true)));
  }

  /** Its VMM exits and the supervisor converges it: stopped, its cpus free, its plumbing down and nothing owed. */
  lemma DeadVmConverges(cpuSet: string, queueCPUs: string) returns (s: Vm)
    ensures Reached(s) && s.pc == Free && !s.vmm && !s.net && s.rec.Some?
    ensures s.rec.value == Rec(Stopped, 3, true, true, true, false, false, true, "", "")
  {
    s := StartedVm(cpuSet, queueCPUs);
    s := Go(s, World(VmmExits));
    s := Go(s, Supervise(ConvergeBegin(Some(2))));
    s := Go(s, Supervise(ConvergeSeesDead));
    s := Go(s, Supervise(DoConverge));
    s := Go(s, Supervise(ConvergeQuiesce(true)));
    s := Go(s, Supervise(ConvergeClear(true)));
  }

  // ----- the supervisor's fence, in every interleaving

  /** A stop the supervisor lands finds no live VMM, and only at the generation it observed. */
  lemma SupervisorNeverStopsALiveVm(run: seq<Step>)
    requires Legal(Init(), run) && SuperviseEnabled(After(Init(), run), DoConverge)
    ensures var s := After(Init(), run);
            && !s.vmm
            && (s.pc.event.Some? ==> s.rec.value.gen == s.pc.event.value)
            && SuperviseApply(s, DoConverge).rec.Some?
            && (SuperviseApply(s, DoConverge).rec != s.rec ==> NeedsDeadConvergence(s.rec.value))
  {
    RunKeepsInv(Init(), run);
  }

  /** An exit event of another generation, recycled descriptor or not, changes nothing in the record. */
  lemma StaleExitIsDropped(run: seq<Step>, st: Step)
    requires Legal(Init(), run) && Enabled(After(Init(), run), st)
    requires var s := After(Init(), run);
             s.pc.InConverge? && s.pc.event.Some? && s.pc.event.value != s.pc.at
    ensures var s := After(Init(), run);
            Apply(s, st).rec == s.rec && (Apply(s, st).pc == s.pc || Apply(s, st).pc == Free)
  {
    RunKeepsInv(Init(), run);
  }

  /** A finished record loses its VMM's plumbing record only with the VMM gone. */
  lemma DeleteFindsNoVmm(run: seq<Step>)
    requires Legal(Init(), run) && DeleteEnabled(After(Init(), run), DoDelete)
    ensures !After(Init(), run).vmm
  {
    RunKeepsInv(Init(), run);
  }

  // ----- the quiesce obligation

  /** A stopped VM whose plumbing is up owes a quiesce, except where a restore has not yet recorded its own. */
  predicate Obliged(s: Vm) {
    && s.rec.Some? && s.rec.value.state == Stopped && s.net
    ==> s.rec.value.pending || (s.pc.InRestore? && (s.pc.r == RNetUp || s.pc.r == RFailed))
  }

  predicate Owed(s: Vm) { s.rec.Some? && s.rec.value.state == Stopped && s.net ==> s.rec.value.pending }

  /** A restore dies, or its failure mark is lost. */
  predicate EndsRestore(s: Vm, st: Step) {
    s.pc.InRestore? && (st == World(Crash) || st == RestoreVm(RestoreMarkFailed(false)))
  }

  predicate Harmless(s: Vm, st: Step) { EndsRestore(s, st) ==> Owed(s) }

  /** Gone only with a transition to Running, or after a quiesce at the generation the mark was read at. */
  predicate ClearedRightly(s: Vm, t: Vm) {
    s.rec.Some? && t.rec.Some? && s.rec.value.pending && !t.rec.value.pending ==>
      || (t.rec.value.state == Running && t.rec.value.gen == s.rec.value.gen + 1)
      || (!s.net && t.rec.value.gen == s.rec.value.gen
          && ((s.pc.InStop? && s.pc.t == TQuiesced(s.rec.value.gen))
              || (s.pc.InConverge? && s.pc.d == DQuiesced(s.rec.value.gen))))
  }

  /** At most one transition per step, and one whenever the state changes. */
  predicate CountsTransitions(s: Vm, t: Vm) {
    s.rec.Some? && t.rec.Some? ==>
      || (t.rec.value.gen == s.rec.value.gen && t.rec.value.state == s.rec.value.state)
      || t.rec.value.gen == s.rec.value.gen + 1
  }

  lemma WorldMoves(s: Vm, st: WorldStep)
    requires RecOk(s) && PcOk(s) && WorldEnabled(s, st)
    ensures CountsTransitions(s, WorldApply(s, st)) && ClearedRightly(s, WorldApply(s, st))
    ensures Obliged(s) && Harmless(s, World(st)) ==> Obliged(WorldApply(s, st))
  {
  }

  lemma CreateMoves(s: Vm, st: CreateStep)
    requires RecOk(s) && PcOk(s) && CreateEnabled(s, st)
    ensures CountsTransitions(s, CreateApply(s, st)) && ClearedRightly(s, CreateApply(s, st))
    ensures Obliged(s) ==> Obliged(CreateApply(s, st))
  {
  }

  lemma StartMoves(s: Vm, st: StartStep)
    requires RecOk(s) && PcOk(s) && StartEnabled(s, st)
    ensures CountsTransitions(s, StartApply(s, st)) && ClearedRightly(s, StartApply(s, st))
    ensures Obliged(s) ==> Obliged(StartApply(s, st))
  {
    if StartCommits(st) {
      StartCommitMoves(s, st);
    }
  }

  lemma StartCommitMoves(s: Vm, st: StartStep)
    requires RecOk(s) && PcOk(s) && StartEnabled(s, st) && StartCommits(st)
    ensures CountsTransitions(s, StartApply(s, st)) && ClearedRightly(s, StartApply(s, st))
    ensures Obliged(s) ==> Obliged(StartApply(s, st))
  {
    if st.StartInvalid? || st.StartMarkFailed? { StartCommitMovesErrs(s, st); }
    if st.StartReconciles? || st.StartDone? { StartCommitMovesTurns(s, st); }
    if st.StartPlaces? || st.StartConverges? { StartCommitMovesMarks(s, st); }
  }

  lemma StartCommitMovesErrs(s: Vm, st: StartStep)
    requires RecOk(s) && PcOk(s) && StartEnabled(s, st) && (st.StartInvalid? || st.StartMarkFailed?)
    ensures CountsTransitions(s, StartApply(s, st)) && ClearedRightly(s, StartApply(s, st))
    ensures Obliged(s) ==> Obliged(StartApply(s, st))
  {
  }

  lemma StartCommitMovesTurns(s: Vm, st: StartStep)
    requires RecOk(s) && PcOk(s) && StartEnabled(s, st) && (st.StartReconciles? || st.StartDone?)
    ensures CountsTransitions(s, StartApply(s, st)) && ClearedRightly(s, StartApply(s, st))
    ensures Obliged(s) ==> Obliged(StartApply(s, st))
  {
  }

  lemma StartCommitMovesMarks(s: Vm, st: StartStep)
    requires RecOk(s) && PcOk(s) && StartEnabled(s, st) && (st.StartPlaces? || st.StartConverges?)
    ensures CountsTransitions(s, StartApply(s, st)) && ClearedRightly(s, StartApply(s, st))
    ensures Obliged(s) ==> Obliged(StartApply(s, st))
  {
  }

  lemma StopMoves(s: Vm, st: StopStep)
    requires RecOk(s) && PcOk(s) && StopEnabled(s, st)
    ensures CountsTransitions(s, StopApply(s, st)) && ClearedRightly(s, StopApply(s, st))
    ensures Obliged(s) ==> Obliged(StopApply(s, st))
  {
  }

  lemma RestoreMoves(s: Vm, st: RestoreStep)
    requires RecOk(s) && PcOk(s) && RestoreEnabled(s, st)
    ensures CountsTransitions(s, RestoreStepApply(s, st)) && ClearedRightly(s, RestoreStepApply(s, st))
    ensures Obliged(s) && Harmless(s, RestoreVm(st)) ==> Obliged(RestoreStepApply(s, st))
  {
    if RestoreCommits(st) {
      RestoreCommitMoves(s, st);
    }
  }

  lemma RestoreCommitMoves(s: Vm, st: RestoreStep)
    requires RecOk(s) && PcOk(s) && RestoreEnabled(s, st) && RestoreCommits(st)
    ensures CountsTransitions(s, RestoreStepApply(s, st)) && ClearedRightly(s, RestoreStepApply(s, st))
    ensures Obliged(s) && Harmless(s, RestoreVm(st)) ==> Obliged(RestoreStepApply(s, st))
  {
    if st.RestoreKillFails? || st.RestoreApplyFails? { RestoreCommitMovesErrs(s, st); }
    if st.DoRestoreStop? || st.DoFinalizeRestore? { RestoreCommitMovesTurns(s, st); }
    if st.RestorePlaces? || st.RestoreMarkFailed? { RestoreCommitMovesMarks(s, st); }
  }

  lemma RestoreCommitMovesErrs(s: Vm, st: RestoreStep)
    requires RecOk(s) && PcOk(s) && RestoreEnabled(s, st) && (st.RestoreKillFails? || st.RestoreApplyFails?)
    ensures CountsTransitions(s, RestoreStepApply(s, st)) && ClearedRightly(s, RestoreStepApply(s, st))
    ensures Obliged(s) && Harmless(s, RestoreVm(st)) ==> Obliged(RestoreStepApply(s, st))
  {
  }

  lemma RestoreCommitMovesTurns(s: Vm, st: RestoreStep)
    requires RecOk(s) && PcOk(s) && RestoreEnabled(s, st) && (st.DoRestoreStop? || st.DoFinalizeRestore?)
    ensures CountsTransitions(s, RestoreStepApply(s, st)) && ClearedRightly(s, RestoreStepApply(s, st))
    ensures Obliged(s) && Harmless(s, RestoreVm(st)) ==> Obliged(RestoreStepApply(s, st))
  {
  }

  lemma RestoreCommitMovesMarks(s: Vm, st: RestoreStep)
    requires RecOk(s) && PcOk(s) && RestoreEnabled(s, st) && (st.RestorePlaces? || st.RestoreMarkFailed?)
    ensures CountsTransitions(s, RestoreStepApply(s, st)) && ClearedRightly(s, RestoreStepApply(s, st))
    ensures Obliged(s) && Harmless(s, RestoreVm(st)) ==> Obliged(RestoreStepApply(s, st))
  {
  }

  lemma DeleteMoves(s: Vm, st: DeleteStep)
    requires RecOk(s) && PcOk(s) && DeleteEnabled(s, st)
    ensures CountsTransitions(s, DeleteApply(s, st)) && ClearedRightly(s, DeleteApply(s, st))
    ensures Obliged(s) ==> Obliged(DeleteApply(s, st))
  {
  }

  lemma SuperviseMoves(s: Vm, st: SuperviseStep)
    requires RecOk(s) && PcOk(s) && SuperviseEnabled(s, st)
    ensures CountsTransitions(s, SuperviseApply(s, st)) && ClearedRightly(s, SuperviseApply(s, st))
    ensures Obliged(s) ==> Obliged(SuperviseApply(s, st))
  {
  }

  /** The generation counts transitions, and the quiesce mark is cleared only with a reason. */
  lemma StepMoves(s: Vm, st: Step)
    requires Inv(s) && Enabled(s, st)
    ensures CountsTransitions(s, Apply(s, st)) && ClearedRightly(s, Apply(s, st))
    ensures Obliged(s) && Harmless(s, st) ==> Obliged(Apply(s, st))
  {
    match st
    case World(x) => WorldMoves(s, x);
    case Create(x) => CreateMoves(s, x);
    case Start(x) => StartMoves(s, x);
    case Stop(x) => StopMoves(s, x);
    case RestoreVm(x) => RestoreMoves(s, x);
    case Delete(x) => DeleteMoves(s, x);
    case Supervise(x) => SuperviseMoves(s, x);
  }

  predicate HarmlessRun(s: Vm, run: seq<Step>)
    requires Legal(s, run)
    decreases |run|
  {
    run == [] || (Harmless(s, run[0]) && HarmlessRun(Apply(s, run[0]), run[1..]))
  }

  lemma {:induction false} RunKeepsObligation(s: Vm, run: seq<Step>)
    requires Inv(s) && Obliged(s) && Legal(s, run) && HarmlessRun(s, run)
    ensures Obliged(After(s, run))
    decreases |run|
  {
    if run != [] {
      StepMoves(s, run[0]);
      StepKeepsInv(s, run[0]);
      RunKeepsObligation(Apply(s, run[0]), run[1..]);
    }
  }

  /**
    Between operations a stopped VM with plumbing up is marked for quiescing, over every run in which each restore that
    died or lost its failure mark left the quiesce owed; EarlyEndExactly says which do.
  */
  lemma StoppedPlumbingIsPending(run: seq<Step>)
    requires Legal(Init(), run) && HarmlessRun(Init(), run)
    ensures After(Init(), run).pc == Free ==> Owed(After(Init(), run))
  {
    RunKeepsObligation(Init(), run);
  }

  // ----- restores that end before their placement or failure mark is recorded

  /** Whether a VM with plumbing up owes its quiesce. */
  predicate Marked(r: Rec) { r.state != Stopped || r.pending || !r.nics }

  /** A step of a restore that records neither a placement nor a failure mark, its death included. */
  predicate Unrecorded(st: Step) {
    || st.World?
    || (st.RestoreVm? && !st.restore.RestoreBegin? && !st.restore.RestorePlaces? &&
        st.restore != RestoreMarkFailed(true))
  }

  /** A restore, whatever happens to it, that is over before its placement or its failure mark is recorded. */
  predicate EarlyEnd(s: Vm, run: seq<Step>) {
    && Legal(s, run) && run != [] && run[0] == RestoreVm(RestoreBegin)
    && (forall st <- run[1..] :: Unrecorded(st))
    && After(s, run).pc == Free
  }

  /** With the stop's, the write of a restore that can mark a stopped record on the way. */
  const QUARANTINES := RestoreVm(RestoreApplyFails(true, true))

  /** Where such a restore is, `r` being the record it began with. */
  predicate Unfinished(s: Vm, r: Rec, stopped: bool, quarantined: bool) {
    && s.rec.Some? && s.rec.value.nics == r.nics && (s.net ==> r.nics)
    && (Marked(s.rec.value) <==> Marked(r) || (stopped && HasOpen(r)) || quarantined)
    && (s.pc == Free || s.pc.InRestore?)
    && (s.pc.InRestore? ==>
          && s.pc.originStopped == (r.state == Stopped)
          && (s.pc.r == RLocked || s.pc.r == RKilled ==> s.rec.value == r && !stopped && !quarantined)
          && s.pc.r != RPlaced && s.pc.r != RLaunched)
  }

  lemma UnrecordedStep(s: Vm, st: Step, r: Rec, stopped: bool, quarantined: bool)
    requires Unfinished(s, r, stopped, quarantined) && Enabled(s, st) && Unrecorded(st)
    ensures Unfinished(Apply(s, st), r, stopped || st == STOP_LANDS, quarantined || st == QUARANTINES)
  {
    if st.World? {
      assert WorldApply(s, st.world).rec == s.rec;
    } else {
      UnrecordedRestoreStep(s, st.restore, r, stopped, quarantined);
    }
  }

  lemma UnrecordedRestoreStep(s: Vm, st: RestoreStep, r: Rec, stopped: bool, quarantined: bool)
    requires Unfinished(s, r, stopped, quarantined) && RestoreEnabled(s, st) && Unrecorded(RestoreVm(st))
    ensures Unfinished(RestoreStepApply(s, st), r, stopped || st == DoRestoreStop(true),
                       quarantined || st == RestoreApplyFails(true, true))
  {
  }

  lemma {:induction false} UnrecordedRun(s: Vm, run: seq<Step>, r: Rec, stopped: bool, quarantined: bool)
    requires Unfinished(s, r, stopped, quarantined) && Legal(s, run) && (forall st <- run :: Unrecorded(st))
    ensures Unfinished(After(s, run), r, stopped || STOP_LANDS in run, quarantined || QUARANTINES in run)
    decreases |run|
  {
    if run != [] {
      assert run == [run[0]] + run[1..];
      UnrecordedStep(s, run[0], r, stopped, quarantined);
      UnrecordedRun(Apply(s, run[0]), run[1..], r,
                    stopped || run[0] == STOP_LANDS, quarantined || run[0] == QUARANTINES);
    }
  }

  /**
    Such a restore leaves its quiesce owed if and only if it left the plumbing down, the VM was not stopped or was
    marked when it began, its stop of an open interval was recorded, or it quarantined the VM.
  */
  lemma EarlyEndExactly(s: Vm, run: seq<Step>)
    requires Inv(s) && EarlyEnd(s, run)
    ensures var r := s.rec.value; var t := After(s, run);
            Owed(t) <==> !t.net || Marked(r) || (STOP_LANDS in run && HasOpen(r)) || QUARANTINES in run
  {
    assert run == [run[0]] + run[1..];
    UnrecordedRun(Apply(s, run[0]), run[1..], s.rec.value, false, false);
  }

  /** A restore whose stop is lost and which dies right after it has brought the plumbing up. */
  function DyingRestore(): seq<Step> { [RestoreVm(RestoreBegin), RestoreVm(RestoreKill)] + DyingEnd() }

  function DyingEnd(): seq<Step> {
    [RestoreVm(DoRestoreStop(false)), RestoreVm(RestoreApply)] + ([RestoreVm(RestoreNet), World(Crash)] + [])
  }

  lemma DyingEndRuns(s: Vm)
    requires s.pc.InRestore? && s.pc.r == RKilled && s.rec.Some?
    ensures Legal(s, DyingEnd()) && After(s, DyingEnd()).pc == Free && After(s, DyingEnd()).net == s.rec.value.nics
  {
    var a := Apply(Apply(s, RestoreVm(DoRestoreStop(false))), RestoreVm(RestoreApply));
    StepsThen(a, RestoreVm(RestoreNet), World(Crash), []);
    StepsThen(s, RestoreVm(DoRestoreStop(false)), RestoreVm(RestoreApply), [RestoreVm(RestoreNet), World(Crash)] + []);
  }

  lemma DyingRestoreRuns(s: Vm)
    requires Enabled(s, RestoreVm(RestoreBegin))
    ensures EarlyEnd(s, DyingRestore()) && After(s, DyingRestore()).net == s.rec.value.nics
    ensures STOP_LANDS !in DyingRestore() && QUARANTINES !in DyingRestore()
  {
    var b := Apply(s, RestoreVm(RestoreBegin));
    DyingEndRuns(Apply(b, RestoreVm(RestoreKill)));
    StepsThen(s, RestoreVm(RestoreBegin), RestoreVm(RestoreKill), DyingEnd());
    DyingRestoreSteps();
  }

  lemma DyingRestoreSteps()
    ensures forall st <- DyingRestore()[1..] :: Unrecorded(st)
    ensures STOP_LANDS !in DyingRestore() && QUARANTINES !in DyingRestore()
  {
    assert DyingRestore()[1..] == [RestoreVm(RestoreKill)] + DyingEnd();
  }

  /**
    Every early end of a restore leaves the quiesce owed if and only if the VM was not stopped, or marked, when it
    began.
  */
  lemma DyingRestoreKeepsTheMarkExactly(s: Vm)
    requires Inv(s) && Owed(s) && Enabled(s, RestoreVm(RestoreBegin))
    ensures (forall run: seq<Step> | EarlyEnd(s, run) :: Owed(After(s, run))) <==> Marked(s.rec.value)
  {
    forall run: seq<Step> | EarlyEnd(s, run)
      ensures Marked(s.rec.value) ==> Owed(After(s, run))
    {
      EarlyEndExactly(s, run);
    }
    DyingRestoreRuns(s);
    EarlyEndExactly(s, DyingRestore());
  }

  /** A VM that has run, been stopped and quiesced. */
  lemma QuiescedVm() returns (s: Vm)
    ensures Reached(s) && Inv(s) && s.pc == Free && !s.net && !s.vmm
    ensures s.rec.Some? && s.rec.value.state == Stopped && s.rec.value.nics && !s.rec.value.pending &&
            !HasOpen(s.rec.value)
  {
    s := RunningVm();
    s := Go(s, Stop(StopBegin));
    s := Go(s, Stop(StopShutdown));
    s := Go(s, Stop(StopMark(true)));
    s := Go(s, Stop(StopQuiesce(true)));
    s := Go(s, Stop(StopClear(true)));
    var run: seq<Step> :| Legal(Init(), run) && After(Init(), run) == s;
    RunKeepsInv(Init(), run);
  }

  /** A VM stopped and quiesced before the restore loses its mark when the restore dies with the plumbing up. */
  lemma DyingRestoreCanLoseTheMark() returns (s: Vm)
    ensures Reached(s) && s.pc == Free && !Owed(s)
  {
    s := QuiescedVm();
    DyingRestoreRuns(s);
    EarlyEndExactly(s, DyingRestore());
    Reach(s, DyingRestore());
    s := After(s, DyingRestore());
  }

  /** It does so without dying too, when the plumbing comes up in part and the failure mark is not recorded. */
  lemma LostFailureMarkLosesTheMark() returns (s: Vm)
    ensures Reached(s) && s.pc == Free && !Owed(s)
  {
    s := QuiescedVm();
    s := Go(s, RestoreVm(RestoreBegin));
    s := Go(s, RestoreVm(RestoreKill));
    s := Go(s, RestoreVm(DoRestoreStop(true)));
    s := Go(s, RestoreVm(RestoreApply));
    s := Go(s, RestoreVm(RestoreNetFails(true)));
    s := Go(s, RestoreVm(RestoreMarkFailed(false)));
  }
}
