/**
 Exact outcomes of single reconciles whose calls are made one after the other: for each answer, what
 is persisted, and a whole restore from its creation to Succeeded.
 */
module RestoreOutcomes {
  import opened Text
  import opened VmSpec
  import opened GuestOs
  import opened RestoreModel
  import opened RestoreStatus
  import opened RestoreRuns
  import opened RestoreVms
  import opened RestoreCleanup
  import opened RestoreRaces
  import opened RestoreDecisions
  import Backoff
  import FileCount

  /** Restore c is in this status, live, and nobody works on it. */
  predicate Idle(w: World, c: Name, st: Status) {
    c in w.crs && c !in w.threads && w.crs[c].finalizer && !w.crs[c].deleting && w.crs[c].status == st
  }

  /** Its reconcile is about to make call pc, at time clock. */
  predicate Busy(w: World, c: Name, spec: Spec, st: Status, pc: Pc, clock: nat) {
    && c in w.crs && c in w.threads && w.crs[c].status == st && w.crs[c].spec == spec && w.clock == clock
    && w.threads[c].pc == pc && !w.threads[c].deletion && !w.threads[c].vmGone
  }

  /** Its reconcile is over. */
  predicate Ended(w: World, c: Name, spec: Spec, st: Status, clock: nat) {
    c in w.crs && c !in w.threads && w.crs[c].status == st && w.crs[c].spec == spec && w.clock == clock
  }

  /** A call that is made, seen from the restore itself. */
  lemma OwnCall(w: World, c: Name, spec: Spec, st: Status, pc: Pc, clock: nat, x: Outcome)
    requires Busy(w, c, spec, st, pc, clock) && !x.Crash? && Possible(w, c, x)
    requires !EffectOf(w, c, x).gone && EffectOf(w, c, x).cr.spec == spec
    ensures var e, w' := EffectOf(w, c, x), Step(w, Act(c, x));
            && c in w'.crs && w'.crs[c] == Woken(e.cr, e.ret, clock) && w'.clock == clock
            && w'.crs[c].status == e.cr.status && w'.crs[c].spec == spec && (e.patch.None? ==> w'.vms == w.vms)
            && (c in w'.threads <==> e.thread.Some?) && (e.thread.Some? ==> w'.threads[c] == e.thread.value)
  {
    hide Move, VolumeName, MergePatch;
  }

  lemma {:induction false} Four(w: World, c: Name, a: Outcome, b: Outcome, d: Outcome, e: Outcome)
    ensures OwnCalls(w, c, [a, b, d, e]) == Step(Step(Step(Step(w, Act(c, a)), Act(c, b)), Act(c, d)), Act(c, e))
  {
    hide Step;
    assert [a, b, d, e][1..] == [b, d, e] && [b, d, e][1..] == [d, e] && [d, e][1..] == [e] && [e][1..] == [];
    assert OwnCalls(w, c, [a, b, d, e]) == OwnCalls(Step(w, Act(c, a)), c, [b, d, e]);
    var w1 := Step(w, Act(c, a));
    assert OwnCalls(w1, c, [b, d, e]) == OwnCalls(Step(w1, Act(c, b)), c, [d, e]);
    var w2 := Step(w1, Act(c, b));
    assert OwnCalls(w2, c, [d, e]) == OwnCalls(Step(w2, Act(c, d)), c, [e]);
    assert OwnCalls(Step(w2, Act(c, d)), c, [e]) == OwnCalls(Step(Step(w2, Act(c, d)), Act(c, e)), c, []);
  }

  lemma IdleCall(w: World, c: Name, x: Outcome)
    requires c !in w.threads
    ensures Step(w, Act(c, x)) == w
  {
  }

  /** The first call a live reconcile makes in these phases, when it is due. */
  predicate Due(st: Status, clock: nat) {
    || (st.phase.WaitingForAttachment? && 0 <= st.attachmentRetries < 60 && (st.lastAttachment.Some? ==> clock >= (st.lastAttachment.value + 5) * SECOND))
    || (st.phase.SshConnecting? && 0 <= st.sshRetries < 24 && (st.lastSsh.Some? ==> clock >= (st.lastSsh.value + 5) * SECOND))
    || st.phase.Restoring? || st.phase.Cleanup?
  }

  function FirstCall(p: Phase): Pc {
    if p.WaitingForAttachment? then WaitVmi else if p.SshConnecting? then SshStamp else if p.Restoring? then RestoreRun else DoneGet
  }

  lemma Starts(w: World, c: Name, st: Status)
    requires Idle(w, c, st) && Due(st, w.clock)
    ensures Busy(Step(w, Start(c)), c, w.crs[c].spec, st, FirstCall(st.phase), w.clock)
  {
    hide VolumeName, MergePatch;
  }

  /** failRestore's patch and one more call. */
  lemma Fails(w: World, c: Name, spec: Spec, st: Status, clock: nat)
    requires Busy(w, c, spec, st, FailPatch, clock)
    ensures var w1 := Step(w, Act(c, Ok)); var w2 := Step(w1, Act(c, Ok));
            && c in w1.crs && w1.crs[c].status == st.(phase := Failed, completionTime := Some(Seconds(clock)))
            && c in w2.crs && w2.crs[c].status == w1.crs[c].status
  {
    var failed := st.(phase := Failed, completionTime := Some(Seconds(clock)));
    assert Busy(Step(w, Act(c, Ok)), c, spec, failed, CleanGuest, clock) by { FailPatchGoes(w, c, spec, st, clock); }
    CleanGuestGoes(Step(w, Act(c, Ok)), c, spec, failed, clock);
  }

  lemma FailPatchGoes(w: World, c: Name, spec: Spec, st: Status, clock: nat)
    requires Busy(w, c, spec, st, FailPatch, clock)
    ensures Busy(Step(w, Act(c, Ok)), c, spec, st.(phase := Failed, completionTime := Some(Seconds(clock))), CleanGuest, clock)
    ensures Step(w, Act(c, Ok)).vms == w.vms
  {
    hide Step, VolumeName, MoveInit, MoveHot, MoveWait, MoveSsh, MoveRestore, MoveDone, MoveClean;
    OwnCall(w, c, spec, st, FailPatch, clock, Ok);
  }

  lemma CleanGuestGoes(w: World, c: Name, spec: Spec, st: Status, clock: nat)
    requires Busy(w, c, spec, st, CleanGuest, clock)
    ensures Busy(Step(w, Act(c, Ok)), c, spec, st, CleanGet, clock) && Step(w, Act(c, Ok)).vms == w.vms
  {
    hide Step, VolumeName, MoveInit, MoveHot, MoveWait, MoveSsh, MoveRestore, MoveDone;
    OwnCall(w, c, spec, st, CleanGuest, clock, Ok);
  }

  /** The patch of transitionPhase, with nothing more to do. */
  lemma Advances(w: World, c: Name, spec: Spec, st: Status, to: Phase, clock: nat)
    requires Busy(w, c, spec, st, Advance(to), clock) && !Fresh0(st.phase)
    ensures Ended(Step(w, Act(c, Ok)), c, spec, st.(phase := to, completionTime := if Terminal(to) then Some(Seconds(clock)) else st.completionTime), clock)
  {
    hide Step, VolumeName, MoveInit, MoveHot, MoveWait, MoveSsh, MoveRestore, MoveDone, MoveClean;
    OwnCall(w, c, spec, st, Advance(to), clock, Ok);
  }

  // ---------------------------------------------------------------------------
  // The hotplug
  // ---------------------------------------------------------------------------

  /** Every volume of that name points at the claim. */
  predicate AllPointAt(vm: Vm, name: string, claim: string) {
    forall i :: 0 <= i < |vm.volumes| && vm.volumes[i].name == name ==> vm.volumes[i].ref == claim
  }

  lemma StartsHotplug(w: World, c: Name, st: Status)
    requires Idle(w, c, st) && st.phase.Hotplugging?
    ensures var w' := Step(w, Start(c)); Busy(w', c, w.crs[c].spec, st, HotGet, w.clock) && w'.vms == w.vms && w'.past == w.past && w'.namespace == w.namespace
  {
    hide VolumeName, MergePatch;
  }

  /** Where a scan that finds the VM free of others leads, for a PVC of the own namespace. */
  lemma ScanGoes(w: World, c: Name, spec: Spec, st: Status, clock: nat, vm: Vm)
    requires Busy(w, c, spec, st, HotGet, clock) && (spec.target, vm) in w.past && spec.source.pvc.Some?
    requires PlugVerdict(vm, VolumeName(c)) != Partial
    ensures var w' := Step(w, Act(c, SawVm(vm)));
            && w'.vms == w.vms
            && Busy(w', c, spec, st, match PlugVerdict(vm, VolumeName(c))
                                     case Busy => FailPatch
                                     case Present => Advance(WaitingForAttachment)
                                     case _ => if CrossNamespace(w.namespace, spec.source.pvc.value) then FailPatch else HotPatch(vm), clock)
  {
    hide Step, VolumeName, PlugVerdict, MoveInit, MoveWait, MoveSsh, MoveRestore, MoveDone, MoveClean;
    OwnCall(w, c, spec, st, HotGet, clock, SawVm(vm));
  }

  lemma PatchGoes(w: World, c: Name, spec: Spec, st: Status, clock: nat, vm: Vm)
    requires Busy(w, c, spec, st, HotPatch(vm), clock) && spec.target in w.vms && spec.source.pvc.Some?
    ensures var w' := Step(w, Act(c, Ok));
            && Busy(w', c, spec, st, Advance(WaitingForAttachment), clock)
            && w'.vms == w.vms[spec.target := Plug(vm, VolumeName(c), spec.source.pvc.value.name)]
  {
    hide VolumeName, MergePatch, Plug, MoveInit, MoveWait, MoveSsh, MoveRestore, MoveDone, MoveClean;
    PlugPatch(w.vms[spec.target], vm, VolumeName(c), spec.source.pvc.value.name);
  }

  lemma {:induction false} ThreeCalls(w: World, c: Name, a: Outcome, b: Outcome, d: Outcome)
    ensures OwnCalls(w, c, [a, b, d]) == Step(Step(Step(w, Act(c, a)), Act(c, b)), Act(c, d))
  {
    hide Step;
    assert [a, b, d][1..] == [b, d];
    assert OwnCalls(w, c, [a, b, d]) == OwnCalls(Step(w, Act(c, a)), c, [b, d]);
    TwoCalls(Step(w, Act(c, a)), c, b, d);
  }

  lemma PointsAfterPlug(vm: Vm, name: string, claim: string)
    requires !Has(vm.volumes, name)
    ensures AllPointAt(vm, name, claim) && AllPointAt(Plug(vm, name, claim), name, claim)
  {
    forall i | 0 <= i < |vm.volumes| ensures vm.volumes[i].name != name { assert vm.volumes[i] in vm.volumes; }
  }

  /**
   Exact: a reconcile in Hotplugging for a PVC that reads the VM as it is, its calls answered, fails if
   and only if another restore's volume is there, or the PVC is of another namespace and the own pair is
   not there; otherwise it goes on, and then the volume of its name points at its PVC if and only if the
   version it read had no volume of that name that points elsewhere.
   */
  lemma HotplugExactly(w: World, c: Name, st: Status)
    requires VmInv(w) && Idle(w, c, st) && st.phase.Hotplugging?
    requires var spec := w.crs[c].spec; spec.source.pvc.Some? && spec.target in w.vms
    ensures var w', spec := OwnCalls(Step(w, Start(c)), c, [SawVm(w.vms[w.crs[c].spec.target]), Ok, Ok]), w.crs[c].spec;
            var vm, name, pvc := w.vms[spec.target], VolumeName(c), spec.source.pvc.value;
            && c in w'.crs && spec.target in w'.vms
            && (w'.crs[c].status.phase.Failed? <==> OtherRestoreIn(vm, name) || (!Has(vm.volumes, name) && pvc.namespace != "" && pvc.namespace != w.namespace))
            && (!w'.crs[c].status.phase.Failed? ==>
                  && w'.crs[c].status.phase.WaitingForAttachment? && Has(w'.vms[spec.target].volumes, name)
                  && (AllPointAt(w'.vms[spec.target], name, pvc.name) <==> AllPointAt(vm, name, pvc.name)))
  {
    hide Inv, Step, VolumeName, Busy, Plug, PlugVerdict, OtherRestoreIn, AllPointAt, Exclusive;
    var spec, clock := w.crs[c].spec, w.clock;
    var vm, name, pvc := w.vms[spec.target], VolumeName(c), spec.source.pvc.value;
    assert (spec.target, vm) in w.past && Exclusive(vm);
    NeverPartial(vm, name);
    VerdictIs(vm, name);
    StartsHotplug(w, c, st);
    var w1 := Step(w, Start(c));
    ScanGoes(w1, c, spec, st, clock, vm);
    var w2 := Step(w1, Act(c, SawVm(vm)));
    ThreeCalls(w1, c, SawVm(vm), Ok, Ok);
    match PlugVerdict(vm, name)
    case Busy => HotFails(w2, c, spec, st, clock);
    case Present =>
      HotAdvances(w2, c, spec, st, clock);
      IdleCall(Step(w2, Act(c, Ok)), c, Ok);
    case _ =>
      if CrossNamespace(w.namespace, pvc) {
        HotFails(w2, c, spec, st, clock);
      } else {
        PatchGoes(w2, c, spec, st, clock, vm);
        HotAdvances(Step(w2, Act(c, Ok)), c, spec, st, clock);
        PointsAfterPlug(vm, name, pvc.name);
        PlugHas(vm, name, pvc.name);
      }
  }

  lemma PlugHas(vm: Vm, name: string, claim: string)
    ensures Has(Plug(vm, name, claim).volumes, name)
  {
    assert Entry(name, claim) in Plug(vm, name, claim).volumes;
  }

  lemma VerdictIs(vm: Vm, name: string)
    requires PlugVerdict(vm, name) != Partial
    ensures PlugVerdict(vm, name).Busy? <==> OtherRestoreIn(vm, name)
    ensures !PlugVerdict(vm, name).Busy? ==> (PlugVerdict(vm, name).Present? <==> Has(vm.volumes, name))
  {
    hide IsRestoreName, Has;
    if HeldByOther(vm, name) {
      var v :| v in vm.volumes && IsRestoreName(v.name) && v.name != name;
      var i :| 0 <= i < |vm.volumes| && vm.volumes[i] == v;
    }
  }

  lemma HotFails(w: World, c: Name, spec: Spec, st: Status, clock: nat)
    requires Busy(w, c, spec, st, FailPatch, clock)
    ensures var w' := Step(Step(w, Act(c, Ok)), Act(c, Ok)); c in w'.crs && w'.crs[c].status.phase.Failed? && w'.vms == w.vms
  {
    hide Step, VolumeName;
    Fails(w, c, spec, st, clock);
    var failed := st.(phase := Failed, completionTime := Some(Seconds(clock)));
    FailPatchGoes(w, c, spec, st, clock);
    CleanGuestGoes(Step(w, Act(c, Ok)), c, spec, failed, clock);
  }

  lemma HotAdvances(w: World, c: Name, spec: Spec, st: Status, clock: nat)
    requires Busy(w, c, spec, st, Advance(WaitingForAttachment), clock) && st.phase.Hotplugging?
    ensures var w' := Step(w, Act(c, Ok)); c in w'.crs && c !in w'.threads && w'.crs[c].status.phase.WaitingForAttachment? && w'.vms == w.vms
  {
    hide VolumeName, MergePatch, MoveInit, MoveHot, MoveWait, MoveSsh, MoveRestore, MoveDone, MoveClean;
  }

  // ---------------------------------------------------------------------------
  // The attachment check
  // ---------------------------------------------------------------------------

  lemma WaitVmiGoes(w: World, c: Name, spec: Spec, st: Status, clock: nat, vmi: Vmi)
    requires Busy(w, c, spec, st, WaitVmi, clock)
    ensures exists check: AttachCheck ::
              && Busy(Step(w, Act(c, SawVmi(vmi))), c, spec, st, WaitStamp(check), clock)
              && (check.Attached? <==> AttachedIn(vmi, VolumeName(c))) && (check.NotHotplugged? <==> NotHotpluggedIn(vmi, VolumeName(c)))
  {
    hide Step, VolumeName, CheckAttachment, AttachedIn, NotHotpluggedIn, MoveInit, MoveHot, MoveSsh, MoveRestore, MoveDone, MoveClean;
    CheckMeans(vmi, VolumeName(c));
    OwnCall(w, c, spec, st, WaitVmi, clock, SawVmi(vmi));
    assert Busy(Step(w, Act(c, SawVmi(vmi))), c, spec, st, WaitStamp(CheckAttachment(vmi, VolumeName(c))), clock);
  }

  lemma WaitStampGoes(w: World, c: Name, spec: Spec, st: Status, clock: nat, check: AttachCheck)
    requires Busy(w, c, spec, st, WaitStamp(check), clock)
    ensures Busy(Step(w, Act(c, Ok)), c, spec, st.(lastAttachment := Some(Seconds(clock))),
                 if check.NotYet? then WaitRetry else if check.NotHotplugged? then FailPatch
                 else if st.attachmentRetries > 0 then WaitReset else Advance(SshConnecting), clock)
  {
    hide Step, VolumeName, MoveInit, MoveHot, MoveSsh, MoveRestore, MoveDone, MoveClean;
    OwnCall(w, c, spec, st, WaitStamp(check), clock, Ok);
  }

  /** A retry that is answered, with the requeue it asks for. */
  lemma RetryGoes(w: World, c: Name, spec: Spec, st: Status, clock: nat, ssh: bool)
    requires Busy(w, c, spec, st, if ssh then SshRetry else WaitRetry, clock) && st.attachmentRetries >= 0 && st.sshRetries >= 0
    ensures var w' := Step(w, Act(c, Ok)); var n := if ssh then st.sshRetries else st.attachmentRetries;
            && Ended(w', c, spec, if ssh then st.(sshRetries := n + 1) else st.(attachmentRetries := n + 1), clock)
            && w'.crs[c].hist.wake == Some(clock + (Backoff.Schedule(n + 1) - Backoff.Schedule(n)) * SECOND)
  {
    hide Step, VolumeName, Backoff.Delay, Backoff.Schedule, MoveInit, MoveHot, MoveRestore, MoveDone, MoveClean;
    OwnCall(w, c, spec, st, if ssh then SshRetry else WaitRetry, clock, Ok);
    DelayIsShare(if ssh then st.sshRetries else st.attachmentRetries);
  }

  lemma ResetGoes(w: World, c: Name, spec: Spec, st: Status, clock: nat, ssh: bool)
    requires Busy(w, c, spec, st, if ssh then SshReset else WaitReset, clock)
    ensures Busy(Step(w, Act(c, Ok)), c, spec, if ssh then st.(sshRetries := 0) else st.(attachmentRetries := 0),
                 Advance(if ssh then Restoring else SshConnecting), clock)
  {
    hide Step, VolumeName, MoveInit, MoveHot, MoveRestore, MoveDone, MoveClean;
    OwnCall(w, c, spec, st, if ssh then SshReset else WaitReset, clock, Ok);
  }

  /** Behind a check: reset if need be, then on; or one more retry. */
  lemma Proceeds(w: World, c: Name, spec: Spec, st: Status, clock: nat, ssh: bool)
    requires st.phase == if ssh then SshConnecting else WaitingForAttachment
    requires var n := if ssh then st.sshRetries else st.attachmentRetries;
             n >= 0 && Busy(w, c, spec, st, if n == 0 then Advance(if ssh then Restoring else SshConnecting) else if ssh then SshReset else WaitReset, clock)
    ensures var on := if ssh then st.(sshRetries := 0, phase := Restoring) else st.(attachmentRetries := 0, phase := SshConnecting);
            Ended(Step(Step(w, Act(c, Ok)), Act(c, Ok)), c, spec, on, clock)
  {
    hide Step, VolumeName;
    if (if ssh then st.sshRetries else st.attachmentRetries) == 0 {
      Advances(w, c, spec, st, if ssh then Restoring else SshConnecting, clock);
      IdleCall(Step(w, Act(c, Ok)), c, Ok);
    } else {
      ResetGoes(w, c, spec, st, clock, ssh);
      var reset := if ssh then st.(sshRetries := 0) else st.(attachmentRetries := 0);
      Advances(Step(w, Act(c, Ok)), c, spec, reset, if ssh then Restoring else SshConnecting, clock);
    }
  }

  /**
   Exact: a due reconcile in WaitingForAttachment whose calls are answered persists SSHConnecting, with
   the counter back at 0, if and only if the first status of the volume's name in the VMI it read is
   ready, has a target and is hotplugged; it persists Failed if and only if that status is ready, has a
   target and is not hotplugged; otherwise it persists one more retry and asks to be called again after
   the next share of the schedule.
   */
  lemma AttachmentCheckExactly(w: World, c: Name, st: Status, vmi: Vmi)
    requires Idle(w, c, st) && st.phase.WaitingForAttachment? && Due(st, w.clock) && st.sshRetries >= 0
    ensures var w', name := OwnCalls(Step(w, Start(c)), c, [SawVmi(vmi), Ok, Ok, Ok]), VolumeName(c);
            var checked, n := st.(lastAttachment := Some(Seconds(w.clock))), st.attachmentRetries;
            && c in w'.crs
            && (w'.crs[c].status.phase.SshConnecting? <==> AttachedIn(vmi, name))
            && (w'.crs[c].status.phase.Failed? <==> NotHotpluggedIn(vmi, name))
            && (AttachedIn(vmi, name) ==> w'.crs[c].status == checked.(phase := SshConnecting, attachmentRetries := 0))
            && (!AttachedIn(vmi, name) && !NotHotpluggedIn(vmi, name) ==>
                  && w'.crs[c].status == checked.(attachmentRetries := n + 1)
                  && w'.crs[c].hist.wake == Some(w.clock + (Backoff.Schedule(n + 1) - Backoff.Schedule(n)) * SECOND))
  {
    hide Step, VolumeName, AttachedIn, NotHotpluggedIn, Busy, Backoff.Schedule;
    var spec, clock := w.crs[c].spec, w.clock;
    Starts(w, c, st);
    var w1 := Step(w, Start(c));
    WaitVmiGoes(w1, c, spec, st, clock, vmi);
    var w2 := Step(w1, Act(c, SawVmi(vmi)));
    var check: AttachCheck :| && Busy(w2, c, spec, st, WaitStamp(check), clock)
              && (check.Attached? <==> AttachedIn(vmi, VolumeName(c))) && (check.NotHotplugged? <==> NotHotpluggedIn(vmi, VolumeName(c)));
    WaitStampGoes(w2, c, spec, st, clock, check);
    var w3, checked := Step(w2, Act(c, Ok)), st.(lastAttachment := Some(Seconds(clock)));
    Four(w1, c, SawVmi(vmi), Ok, Ok, Ok);
    match check
    case NotYet =>
      RetryGoes(w3, c, spec, checked, clock, false);
      IdleCall(Step(w3, Act(c, Ok)), c, Ok);
    case NotHotplugged => Fails(w3, c, spec, checked, clock);
    case Attached => Proceeds(w3, c, spec, checked, clock, false);
  }

  // ---------------------------------------------------------------------------
  // The SSH check
  // ---------------------------------------------------------------------------

  lemma SshStampGoes(w: World, c: Name, spec: Spec, st: Status, clock: nat)
    requires Busy(w, c, spec, st, SshStamp, clock)
    ensures Busy(Step(w, Act(c, Ok)), c, spec, st.(lastSsh := Some(Seconds(clock))), SshConnect, clock)
  {
    hide Step, VolumeName, MoveInit, MoveHot, MoveWait, MoveRestore, MoveDone, MoveClean;
    OwnCall(w, c, spec, st, SshStamp, clock, Ok);
  }

  lemma DialGoes(w: World, c: Name, spec: Spec, st: Status, clock: nat, x: Outcome)
    requires Busy(w, c, spec, st, SshConnect, clock) && !x.Crash? && !x.SawVm?
    ensures Busy(Step(w, Act(c, x)), c, spec, st,
                 if x.Refused? then SshRetry else if !x.Ok? then FailPatch else if st.sshRetries > 0 then SshReset else Advance(Restoring), clock)
  {
    hide Step, VolumeName, MoveInit, MoveHot, MoveWait, MoveRestore, MoveDone, MoveClean;
    OwnCall(w, c, spec, st, SshConnect, clock, x);
  }

  /**
   Exact: a due reconcile in SSHConnecting whose writes are answered persists Restoring, with the
   counter back at 0, if and only if the connection came about; one more retry, with the next share of
   the schedule, if and only if it was refused; and Failed if and only if anything else went wrong.
   */
  lemma SshCheckExactly(w: World, c: Name, st: Status, x: Outcome)
    requires Idle(w, c, st) && st.phase.SshConnecting? && Due(st, w.clock) && st.attachmentRetries >= 0 && !x.Crash? && !x.SawVm?
    ensures var w' := OwnCalls(Step(w, Start(c)), c, [Ok, x, Ok, Ok]);
            var checked, n := st.(lastSsh := Some(Seconds(w.clock))), st.sshRetries;
            && c in w'.crs
            && (w'.crs[c].status.phase.Restoring? <==> x.Ok?)
            && (w'.crs[c].status.phase.Failed? <==> !x.Ok? && !x.Refused?)
            && (x.Ok? ==> w'.crs[c].status == checked.(phase := Restoring, sshRetries := 0))
            && (x.Refused? ==> && w'.crs[c].status == checked.(sshRetries := n + 1)
                               && w'.crs[c].hist.wake == Some(w.clock + (Backoff.Schedule(n + 1) - Backoff.Schedule(n)) * SECOND))
  {
    hide Step, VolumeName, Busy, Backoff.Schedule;
    var spec, clock := w.crs[c].spec, w.clock;
    Starts(w, c, st);
    var w1 := Step(w, Start(c));
    SshStampGoes(w1, c, spec, st, clock);
    var w2, checked := Step(w1, Act(c, Ok)), st.(lastSsh := Some(Seconds(clock)));
    DialGoes(w2, c, spec, checked, clock, x);
    var w3 := Step(w2, Act(c, x));
    Four(w1, c, Ok, x, Ok, Ok);
    if x.Refused? {
      RetryGoes(w3, c, spec, checked, clock, true);
      IdleCall(Step(w3, Act(c, Ok)), c, Ok);
    } else if x.Ok? {
      Proceeds(w3, c, spec, checked, clock, true);
    } else {
      Fails(w3, c, spec, checked, clock);
    }
  }

  // ---------------------------------------------------------------------------
  // The guest command, and a VM that is gone
  // ---------------------------------------------------------------------------

  lemma RunGoes(w: World, c: Name, spec: Spec, st: Status, clock: nat, x: Outcome)
    requires Busy(w, c, spec, st, RestoreRun, clock) && !x.Crash? && !x.SawVm?
    ensures Busy(Step(w, Act(c, x)), c, spec, st, if x.Ran? then RestorePatch(x.stdout) else FailPatch, clock)
  {
    hide Step, VolumeName, MoveInit, MoveHot, MoveWait, MoveSsh, MoveDone, MoveClean;
    OwnCall(w, c, spec, st, RestoreRun, clock, x);
  }

  lemma CountGoes(w: World, c: Name, spec: Spec, st: Status, clock: nat, stdout: string)
    requires Busy(w, c, spec, st, RestorePatch(stdout), clock)
    ensures exists n: int ::
              CountOf(stdout, n) && Ended(Step(w, Act(c, Ok)), c, spec,
                    if spec.sourcePath == "" then st.(phase := VolumeReady) else st.(phase := Cleanup, count := Some(n)), clock)
  {
    hide Step, VolumeName, CountOf, FileCount.ReportedCount, MoveInit, MoveHot, MoveWait, MoveSsh, MoveDone, MoveClean;
    ReportedIsCountOf(stdout);
    OwnCall(w, c, spec, st, RestorePatch(stdout), clock, Ok);
    var n := FileCount.ReportedCount(stdout);
    assert CountOf(stdout, n) && Ended(Step(w, Act(c, Ok)), c, spec,
                    if spec.sourcePath == "" then st.(phase := VolumeReady) else st.(phase := Cleanup, count := Some(n)), clock);
  }

  lemma TwoCalls(w: World, c: Name, a: Outcome, b: Outcome)
    ensures OwnCalls(w, c, [a, b]) == Step(Step(w, Act(c, a)), Act(c, b))
  {
    hide Step;
    assert [a, b][1..] == [b] && [b][1..] == [];
    assert OwnCalls(Step(w, Act(c, a)), c, [b]) == OwnCalls(Step(Step(w, Act(c, a)), Act(c, b)), c, []);
  }

  /**
   Exact: a reconcile in Restoring whose writes are answered persists Failed if and only if the guest
   command failed; otherwise VolumeReady without a count for a restore without source path, and for one
   with a source path Cleanup, in the same patch as the count of the first counting line, 0 without one.
   */
  lemma GuestCommandExactly(w: World, c: Name, st: Status, x: Outcome)
    requires Idle(w, c, st) && st.phase.Restoring? && !x.Crash? && !x.SawVm?
    ensures var w' := OwnCalls(Step(w, Start(c)), c, [x, Ok]); var auto := w.crs[c].spec.sourcePath != "";
            && c in w'.crs
            && (w'.crs[c].status.phase.Failed? <==> !x.Ran?)
            && (x.Ran? && !auto ==> w'.crs[c].status == st.(phase := VolumeReady))
            && (x.Ran? && auto ==> exists n :: CountOf(x.stdout, n) && w'.crs[c].status == st.(phase := Cleanup, count := Some(n)))
  {
    hide Step, VolumeName, Busy, CountOf;
    var spec, clock := w.crs[c].spec, w.clock;
    Starts(w, c, st);
    var w1 := Step(w, Start(c));
    RunGoes(w1, c, spec, st, clock, x);
    var w2 := Step(w1, Act(c, x));
    TwoCalls(w1, c, x, Ok);
    if x.Ran? {
      CountGoes(w2, c, spec, st, clock, x.stdout);
    } else {
      Fails(w2, c, spec, st, clock);
    }
  }

  lemma MissingGoes(w: World, c: Name, spec: Spec, st: Status, clock: nat)
    requires Busy(w, c, spec, st, DoneGet, clock)
    ensures var w' := Step(w, Act(c, NotFound));
            && c in w'.crs && c in w'.threads && w'.crs[c].status == st && w'.crs[c].spec == spec && w'.clock == clock
            && w'.threads[c].pc == (if st.count.Some? then Advance(Succeeded) else FailPatch)
  {
    hide Step, VolumeName, MoveInit, MoveHot, MoveWait, MoveSsh, MoveRestore, MoveClean;
    OwnCall(w, c, spec, st, DoneGet, clock, NotFound);
  }

  /** Exact: if the VM is missing in Cleanup, Succeeded is persisted if and only if there is a count, and Failed otherwise. */
  lemma MissingVmExactly(w: World, c: Name, st: Status)
    requires Idle(w, c, st) && st.phase.Cleanup?
    ensures var w' := OwnCalls(Step(w, Start(c)), c, [NotFound, Ok]);
            && c in w'.crs
            && w'.crs[c].status == st.(phase := if st.count.Some? then Succeeded else Failed, completionTime := Some(Seconds(w.clock)))
  {
    hide Step, VolumeName, MergePatch;
    var spec, clock := w.crs[c].spec, w.clock;
    Starts(w, c, st);
    var w1 := Step(w, Start(c));
    MissingGoes(w1, c, spec, st, clock);
    TwoCalls(w1, c, NotFound, Ok);
    LastPatch(Step(w1, Act(c, NotFound)), c);
  }

  lemma LastPatch(w: World, c: Name)
    requires c in w.crs && c in w.threads && (w.threads[c].pc == Advance(Succeeded) || w.threads[c].pc.FailPatch?) && !Fresh0(w.crs[c].status.phase)
    ensures var w' := Step(w, Act(c, Ok));
            c in w'.crs && w'.crs[c].status == w.crs[c].status.(phase := if w.threads[c].pc.FailPatch? then Failed else Succeeded, completionTime := Some(Seconds(w.clock)))
  {
    hide VolumeName, MergePatch, MoveInit, MoveHot, MoveWait, MoveSsh, MoveRestore, MoveDone, MoveClean;
  }
}
