/**
  The source-lease handover of a Firecracker clone (hypervisor/firecracker: clone.go,
  start.go, relay.go).  The cloning parent takes a shared lease on every source VM, forks a
  relay that inherits the descriptors, loads the snapshot, records the clone and only then
  tells the relay to let go.  End of file on the control pipe means abort.
*/
module Relay {

  type Lease = nat

  /** `Failing` runs leaseControl.close and AbortLaunch, in either order, before plan.close. */
  datatype Parent =
    | Holding
    | Launched
    | Forked
    | Ready
    | Loaded
    | Recorded
    | Sent
    | Closing
    | Unready(relayKilled: bool, vmmKilled: bool)
    | Failing(controlClosed: bool, aborted: bool)
    | Dead

  datatype RelayPc = NotForked | Starting | Waiting | Aborting | Releasing | Serving | Exited | Crashed

  datatype State = State(
    leases: set<Lease>,
    parent: Parent, parentHas: set<Lease>,
    relay: RelayPc, relayHas: set<Lease>,
    vmm: bool, loaded: bool, recorded: bool,
    writerOpen: bool, commitSent: bool, readySent: bool, acked: bool)

  datatype Step =
    | Launch
    | Fork
    | SeeReady
    | NotReady
    | KillRelay
    | KillVmm
    | LoadSnapshot
    | Record
    | SendCommit
    | CommitUndeliverable
    | SeeAckOrTimeout
    | Fail
    | CloseControl
    | AbortLaunch(killed: bool)
    | ParentCloses(l: Lease)
    | ParentCrash
    | RelayReady
    | RelayReadyFails
    | RelayReadsCommit
    | RelayReadsEof
    | RelayReleases(l: Lease)
    | RelayAcks
    | RelayKillsVmm
    | RelayExits
    | RelayCrash
    | VmmExits

  predicate RelayLive(s: State) {
    s.relay.Starting? || s.relay.Waiting? || s.relay.Aborting? || s.relay.Releasing? || s.relay.Serving?
  }

  predicate Enabled(s: State, st: Step) {
    match st
    case Launch => s.parent == Holding
    case Fork => s.parent == Launched
    case SeeReady => s.parent == Forked && s.readySent
    case NotReady => s.parent == Forked
    case KillRelay => s.parent.Unready? && !s.parent.relayKilled
    case KillVmm => s.parent.Unready? && s.parent.relayKilled && !s.parent.vmmKilled
    case LoadSnapshot => s.parent == Ready && s.vmm
    case Record => s.parent == Loaded
    case SendCommit => s.parent == Recorded
    // A dead relay has closed the reading end.
    case CommitUndeliverable => s.parent == Recorded && !RelayLive(s)
    case SeeAckOrTimeout => s.parent == Sent
    case Fail => s.parent.Ready? || s.parent.Loaded?
    case CloseControl => s.parent.Failing? && !s.parent.controlClosed
    // A failed terminate is tolerated only while the relay is there to finish the job.
    case AbortLaunch(killed) => s.parent.Failing? && !s.parent.aborted && (killed || RelayLive(s))
    case ParentCloses(l) =>
      && l in s.parentHas
      && (s.parent == Closing || s.parent == Unready(true, true) || s.parent == Failing(true, true))
    // At most one of the two processes crashes.
    case ParentCrash => s.parent != Dead && s.relay != Crashed
    case RelayReady => s.relay == Starting
    case RelayReadyFails => s.relay == Starting && (s.parent == Dead || s.parent.Unready?)
    case RelayReadsCommit => s.relay == Waiting && s.commitSent
    case RelayReadsEof => s.relay == Waiting && !s.commitSent && !s.writerOpen
    case RelayReleases(l) => s.relay == Releasing && l in s.relayHas
    case RelayAcks => s.relay == Releasing && s.relayHas == {}
    case RelayKillsVmm => s.relay == Aborting && s.vmm
    // The process poll stops the relay once the VMM is gone, whatever else it was doing.
    case RelayExits => RelayLive(s) && !s.vmm
    // One fault: not after the parent crashed, nor after a terminate it could not complete.
    case RelayCrash => RelayLive(s) && s.parent != Dead && !(s.parent.Failing? && s.parent.aborted && s.vmm)
    case VmmExits => s.vmm
  }

  function Apply(s: State, st: Step): State
    requires Enabled(s, st)
  {
    match st
    case Launch => s.(parent := Launched, vmm := true)
    case Fork => s.(parent := Forked, relay := Starting, relayHas := s.leases, writerOpen := true)
    case SeeReady => s.(parent := Ready)
    case NotReady => s.(parent := Unready(false, false), writerOpen := false)
    case KillRelay =>
      s.(parent := Unready(true, false), relay := if RelayLive(s) then Exited else s.relay, relayHas := {})
    case KillVmm => s.(parent := Unready(true, true), vmm := false)
    case LoadSnapshot => s.(parent := Loaded, loaded := true)
    case Record => s.(parent := Recorded, recorded := true)
    case SendCommit => s.(parent := Sent, commitSent := true)
    case CommitUndeliverable => s.(parent := Closing, writerOpen := false)
    case SeeAckOrTimeout => s.(parent := Closing, writerOpen := false)
    case Fail => s.(parent := Failing(false, false))
    case CloseControl => s.(parent := Failing(true, s.parent.aborted), writerOpen := false)
    case AbortLaunch(killed) => s.(parent := Failing(s.parent.controlClosed, true), vmm := s.vmm && !killed)
    case ParentCloses(l) => s.(parentHas := s.parentHas - {l})
    case ParentCrash => s.(parent := Dead, parentHas := {}, writerOpen := false)
    case RelayReady => s.(relay := Waiting, readySent := true)
    case RelayReadyFails => s.(relay := Aborting)
    case RelayReadsCommit => s.(relay := Releasing)
    case RelayReadsEof => s.(relay := Aborting)
    case RelayReleases(l) => s.(relayHas := s.relayHas - {l})
    case RelayAcks => s.(relay := Serving, acked := true)
    case RelayKillsVmm => s.(vmm := false)
    case RelayExits => s.(relay := Exited, relayHas := {})
    case RelayCrash => s.(relay := Crashed, relayHas := {})
    case VmmExits => s.(vmm := false)
  }

  predicate Legal(s: State, run: seq<Step>)
    decreases |run|
  {
    run == [] || (Enabled(s, run[0]) && Legal(Apply(s, run[0]), run[1..]))
  }

  function After(s: State, run: seq<Step>): State
    requires Legal(s, run)
    decreases |run|
  {
    if run == [] then s else After(Apply(s, run[0]), run[1..])
  }

  function Init(leases: set<Lease>): State {
    State(leases, Holding, leases, NotForked, {}, false, false, false, false, false, false, false)
  }

  // ----- what every step keeps

  predicate ParentOk(s: State) {
    match s.parent
    case Holding => s.parentHas == s.leases && s.relay == NotForked && !s.vmm && !s.loaded && !s.recorded
    case Launched => s.parentHas == s.leases && s.relay == NotForked && !s.loaded && !s.recorded
    case Forked => s.parentHas == s.leases && s.relay != NotForked && s.writerOpen && !s.loaded && !s.recorded
    case Ready => s.parentHas == s.leases && s.readySent && s.writerOpen && !s.loaded && !s.recorded
    case Loaded => s.parentHas == s.leases && s.readySent && s.writerOpen && s.loaded && !s.recorded
    case Recorded => s.parentHas == s.leases && s.readySent && s.writerOpen && s.loaded && s.recorded
    case Sent => s.recorded
    case Closing => s.recorded
    case Unready(killed, dead) =>
      !s.loaded && !s.recorded && !s.writerOpen && (dead ==> killed) && (!dead ==> s.parentHas == s.leases)
    case Failing(closed, aborted) =>
      && s.relay != NotForked && !s.recorded && s.writerOpen == !closed
      && (!(closed && aborted) ==> s.parentHas == s.leases)
      && (s.vmm && aborted ==> !s.relay.Crashed?)
    case Dead => s.parentHas == {} && !s.writerOpen && !s.relay.Crashed?
  }

  predicate RelayOk(s: State) {
    && (s.relay.Starting? || s.relay.Waiting? || s.relay.Aborting? ==> s.relayHas == s.leases)
    && (s.relay.Releasing? || s.relay.Serving? ==> s.commitSent)
    && (s.relay.Aborting? ==> !s.commitSent && !s.writerOpen)
    && (s.relay.Exited? ==> !s.vmm || (!s.loaded && (s.parent.Unready? || s.parent.Dead?)))
    && (s.relay.NotForked? || s.relay.Starting? ==> !s.readySent && !s.loaded)
  }

  predicate Inv(s: State) {
    && ParentOk(s) && RelayOk(s)
    && (s.commitSent ==> s.recorded && s.readySent)
    && (s.recorded ==> s.loaded)
    && s.parentHas <= s.leases && s.relayHas <= s.leases
  }

  predicate ByRelay(st: Step) {
    st.RelayReady? || st.RelayReadyFails? || st.RelayReadsCommit? || st.RelayReadsEof? || st.RelayReleases?
    || st.RelayAcks? || st.RelayKillsVmm? || st.RelayExits? || st.RelayCrash? || st.VmmExits?
  }

  lemma RelayStepKeepsInv(s: State, st: Step)
    requires Inv(s) && Enabled(s, st) && ByRelay(st)
    ensures Inv(Apply(s, st))
  {
  }

  lemma ParentStepKeepsInv(s: State, st: Step)
    requires Inv(s) && Enabled(s, st) && !ByRelay(st)
    ensures Inv(Apply(s, st))
  {
  }

  lemma StepKeepsInv(s: State, st: Step)
    requires Inv(s) && Enabled(s, st)
    ensures Inv(Apply(s, st)) && Apply(s, st).leases == s.leases
  {
    if ByRelay(st) { RelayStepKeepsInv(s, st); } else { ParentStepKeepsInv(s, st); }
  }

  lemma {:induction false} RunKeepsInv(s: State, run: seq<Step>)
    requires Inv(s) && Legal(s, run)
    ensures Inv(After(s, run)) && After(s, run).leases == s.leases
    decreases |run|
  {
    if run != [] {
      StepKeepsInv(s, run[0]);
      RunKeepsInv(Apply(s, run[0]), run[1..]);
    }
  }

  /** From snapshot load until the record is durable, a live VMM has every source leased by one of the two processes. */
  lemma LeasesCoverTheLoad(leases: set<Lease>, run: seq<Step>)
    requires Legal(Init(leases), run)
    ensures var s := After(Init(leases), run);
            s.vmm && s.loaded && !s.recorded ==> forall l | l in leases :: l in s.parentHas || l in s.relayHas
  {
    RunKeepsInv(Init(leases), run);
  }

  /** A relay that has not crashed gives up a copy only after the commit byte, or once the loaded VMM is gone. */
  lemma RelayLetsGoOnlyWhenTold(leases: set<Lease>, run: seq<Step>, l: Lease)
    requires Legal(Init(leases), run) && l in leases
    ensures var s := After(Init(leases), run);
            s.relay != NotForked && s.relay != Crashed && l !in s.relayHas ==>
              (s.commitSent && s.recorded) || !(s.vmm && s.loaded)
  {
    RunKeepsInv(Init(leases), run);
  }

  // ----- both ways a handover can end are open to it

  ghost predicate Reached(leases: set<Lease>, s: State) {
    exists run: seq<Step> :: Legal(Init(leases), run) && After(Init(leases), run) == s
  }

  lemma {:induction false} AfterSnoc(s: State, run: seq<Step>, st: Step)
    requires Legal(s, run) && Enabled(After(s, run), st)
    ensures Legal(s, run + [st]) && After(s, run + [st]) == Apply(After(s, run), st)
    decreases |run|
  {
    if run == [] {
      assert run + [st] == [st] && [st][1..] == [];
    } else {
      AfterSnoc(Apply(s, run[0]), run[1..], st);
      assert (run + [st])[1..] == run[1..] + [st];
    }
  }

  lemma Go(leases: set<Lease>, s: State, st: Step) returns (t: State)
    requires Reached(leases, s) && Enabled(s, st)
    ensures t == Apply(s, st) && Reached(leases, t)
  {
    var run: seq<Step> :| Legal(Init(leases), run) && After(Init(leases), run) == s;
    AfterSnoc(Init(leases), run, st);
    t := Apply(s, st);
  }

  lemma Loads(leases: set<Lease>) returns (s: State)
    ensures Reached(leases, s)
    ensures s == State(leases, Loaded, leases, Waiting, leases, true, true, false, true, false, true, false)
  {
    assert Legal(Init(leases), []) && After(Init(leases), []) == Init(leases);
    s := Go(leases, Init(leases), Launch);
    s := Go(leases, s, Fork);
    s := Go(leases, s, RelayReady);
    s := Go(leases, s, SeeReady);
    s := Go(leases, s, LoadSnapshot);
  }

  lemma {:induction false} RelayLetsGo(leases: set<Lease>, s: State) returns (t: State)
    requires Reached(leases, s) && s.relay == Releasing
    ensures Reached(leases, t) && t == s.(relayHas := {})
    decreases s.relayHas
  {
    t := s;
    if s.relayHas != {} {
      var l :| l in s.relayHas;
      var u := Go(leases, s, RelayReleases(l));
      t := RelayLetsGo(leases, u);
    }
  }

  lemma {:induction false} ParentLetsGo(leases: set<Lease>, s: State) returns (t: State)
    requires Reached(leases, s) && s.parent == Closing
    ensures Reached(leases, t) && t == s.(parentHas := {})
    decreases s.parentHas
  {
    t := s;
    if s.parentHas != {} {
      var l :| l in s.parentHas;
      var u := Go(leases, s, ParentCloses(l));
      t := ParentLetsGo(leases, u);
    }
  }

  /** A handover can complete: the clone runs and is recorded, the relay serves, and nobody holds a lease any more. */
  lemma HandoverCompletes(leases: set<Lease>) returns (s: State)
    ensures Reached(leases, s) && s.vmm && s.loaded && s.recorded && s.commitSent && s.acked
    ensures s.relay == Serving && s.relayHas == {} && s.parent == Closing && s.parentHas == {}
  {
    s := Loads(leases);
    s := Go(leases, s, Record);
    s := Go(leases, s, SendCommit);
    s := Go(leases, s, RelayReadsCommit);
    s := RelayLetsGo(leases, s);
    s := Go(leases, s, RelayAcks);
    s := Go(leases, s, SeeAckOrTimeout);
    s := ParentLetsGo(leases, s);
  }

  /** A parent that dies before the record leaves the relay to kill the clone and only then let go. */
  lemma OrphanedLoadIsUndone(leases: set<Lease>) returns (s: State)
    ensures Reached(leases, s) && s.parent == Dead && !s.recorded && !s.vmm && s.relay == Exited && s.relayHas == {}
  {
    s := Loads(leases);
    s := Go(leases, s, ParentCrash);
    s := Go(leases, s, RelayReadsEof);
    s := Go(leases, s, RelayKillsVmm);
    s := Go(leases, s, RelayExits);
  }

  /** A relay that never reports is killed with the clone, which was not loaded. */
  lemma UnreadyRelayIsUndone(leases: set<Lease>) returns (s: State)
    ensures Reached(leases, s) && !s.vmm && !s.loaded && s.relay == Exited && s.relayHas == {}
    ensures s.parent == Unready(true, true) && s.parentHas == leases
  {
    assert Legal(Init(leases), []) && After(Init(leases), []) == Init(leases);
    s := Go(leases, Init(leases), Launch);
    s := Go(leases, s, Fork);
    s := Go(leases, s, NotReady);
    s := Go(leases, s, KillRelay);
    s := Go(leases, s, KillVmm);
  }

  /** A load that fails is aborted by the parent, and the relay, told by the closed control pipe, goes with it. */
  lemma FailedLoadIsUndone(leases: set<Lease>) returns (s: State)
    ensures Reached(leases, s) && !s.vmm && !s.recorded && s.relay == Exited && s.relayHas == {}
    ensures s.parent == Failing(true, true) && s.parentHas == leases && !s.writerOpen
  {
    s := Loads(leases);
    s := Go(leases, s, Fail);
    s := Go(leases, s, CloseControl);
    s := Go(leases, s, RelayReadsEof);
    s := Go(leases, s, AbortLaunch(true));
    s := Go(leases, s, RelayExits);
  }

  /** The relay aborts, and kills the clone, only when the commit byte was never sent. */
  lemma AbortMeansNoCommit(leases: set<Lease>, run: seq<Step>)
    requires Legal(Init(leases), run)
    ensures After(Init(leases), run).relay == Aborting ==> !After(Init(leases), run).commitSent
  {
    RunKeepsInv(Init(leases), run);
  }
}
