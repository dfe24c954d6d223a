/**
 What one restore's own status and reconcile go through, whatever the other restores and the
 surroundings do: the phase chain, the retry clocks, and the progress measure.
 */
module RestoreStatus {
  import opened Text
  import opened VmSpec
  import opened RestoreModel
  import Backoff
  import FileCount

  // ---------------------------------------------------------------------------
  // Invariants of one restore
  // ---------------------------------------------------------------------------

  /** Phases between leaving New and success. */
  predicate Started(p: Phase) {
    p.Hotplugging? || p.WaitingForAttachment? || p.SshConnecting? || p.Restoring? || p.VolumeReady? || p.Cleanup? || p.Succeeded?
  }

  /** n retries need n recorded checks, and those are 5 seconds apart. */
  predicate PacedBy(retries: int, first: Option<nat>, last: Option<nat>, clock: nat) {
    && (last.None? <==> first.None?)
    && (last.None? ==> retries == 0)
    && (last.Some? ==> first.value <= last.value <= Seconds(clock))
    && (retries >= 1 ==> last.value - first.value >= 5 * (retries - 1))
  }

  predicate PhaseOk(cr: Cr) {
    var st := cr.status;
    && (Started(st.phase) || st.phase.Unset? || st.phase.Failed?)
    && (st.completionTime.Some? <==> Terminal(st.phase))
    && (Started(st.phase) ==> st.startTime.Some? && st.mountPath != "")
    && (st.phase.Unset? ==> st.startTime.None? && st.count.None?)
    && (st.phase.Cleanup? || st.phase.Succeeded? ==>
          cr.hist.guestOk && cr.spec.sourcePath != "" && st.count.Some? && st.count.value >= 0)
    && (st.phase.VolumeReady? ==> cr.hist.guestOk && cr.spec.sourcePath == "" && st.count.None?)
    && (Started(st.phase) && !st.phase.Cleanup? && !st.phase.Succeeded? ==> st.count.None?)
    && (!cr.finalizer ==> st.phase.Unset? && !cr.deleting)
  }

  predicate ClockOk(cr: Cr, clock: nat) {
    var st, h := cr.status, cr.hist;
    && 0 <= st.attachmentRetries <= MAX_ATTACHMENT_RETRIES
    && 0 <= st.sshRetries <= MAX_SSH_RETRIES
    && PacedBy(st.attachmentRetries, h.firstAttachment, st.lastAttachment, clock)
    && PacedBy(st.sshRetries, h.firstSsh, st.lastSsh, clock)
    && (h.wake.Some? && st.phase.WaitingForAttachment? && st.lastAttachment.Some? ==>
          h.wake.value >= (st.lastAttachment.value + 5) * SECOND)
    && (h.wake.Some? && st.phase.SshConnecting? && st.lastSsh.Some? ==>
          h.wake.value >= (st.lastSsh.value + 5) * SECOND)
  }

  predicate StatusOk(cr: Cr, clock: nat) { PhaseOk(cr) && ClockOk(cr, clock) }

  predicate Cleaning(pc: Pc) { pc.CleanGuest? || pc.CleanGet? || pc.CleanPatch? || pc.CleanDv? }

  /** The step transitionPhase is about to persist. */
  predicate NextPhase(from: Phase, to: Phase) {
    match to
    case Hotplugging => from.Unset?
    case WaitingForAttachment => from.Hotplugging?
    case SshConnecting => from.WaitingForAttachment?
    case Restoring => from.SshConnecting?
    case Succeeded => from.Cleanup?
    case _ => false
  }

  predicate SameProgress(a: Status, b: Status) {
    a.phase == b.phase && a.attachmentRetries == b.attachmentRetries && a.sshRetries == b.sshRetries
  }

  /** Which phase a reconcile's next call belongs to, and what it has written so far. */
  predicate AtPc(cr: Cr, th: Thread, clock: nat) {
    var st, was := cr.status, th.entry.status;
    match th.pc
    case AddFinalizer => true
    case InitRead => st == was && st.phase.Unset?
    case InitMount(path) => st == was && st.phase.Unset? && path != ""
    case Advance(to) => NextPhase(st.phase, to) && st.phase == was.phase && (to.Hotplugging? ==> st.mountPath != "")
    case FailPatch => SameProgress(st, was) && !Terminal(st.phase)
    case CleanGuest => st.phase.Failed?
    case CleanGet => st.phase.Failed?
    case CleanPatch(_) => st.phase.Failed?
    case CleanDv => st.phase.Failed?
    case Finalize(_) => true
    case HotGet => st == was && st.phase.Hotplugging?
    case HotDv(_) => st == was && st.phase.Hotplugging? && cr.spec.source.snapshot.Some?
    case HotCreate(_) => st == was && st.phase.Hotplugging? && cr.spec.source.snapshot.Some?
    case HotReget(_) => st == was && st.phase.Hotplugging? && cr.spec.source.snapshot.Some?
    case HotPatch(_) => st == was && st.phase.Hotplugging?
    case WaitVmi => st == was && Due(st.attachmentRetries, MAX_ATTACHMENT_RETRIES, st.lastAttachment, clock) && st.phase.WaitingForAttachment?
    case WaitStamp(_) => st == was && Due(st.attachmentRetries, MAX_ATTACHMENT_RETRIES, st.lastAttachment, clock) && st.phase.WaitingForAttachment?
    case WaitRetry => SameProgress(st, was) && st.phase.WaitingForAttachment? && cr.hist.wake.None?
                      && Checked(st.attachmentRetries, MAX_ATTACHMENT_RETRIES, cr.hist.firstAttachment, st.lastAttachment)
    case WaitReset => SameProgress(st, was) && st.phase.WaitingForAttachment? && cr.hist.wake.None?
    case SshStamp => st == was && Due(st.sshRetries, MAX_SSH_RETRIES, st.lastSsh, clock) && st.phase.SshConnecting?
    case SshConnect => SameProgress(st, was) && st.phase.SshConnecting? && cr.hist.wake.None?
                       && Checked(st.sshRetries, MAX_SSH_RETRIES, cr.hist.firstSsh, st.lastSsh)
    case SshRetry => SameProgress(st, was) && st.phase.SshConnecting? && cr.hist.wake.None?
                     && Checked(st.sshRetries, MAX_SSH_RETRIES, cr.hist.firstSsh, st.lastSsh)
    case SshReset => SameProgress(st, was) && st.phase.SshConnecting? && cr.hist.wake.None?
    case RestoreRun => st == was && st.phase.Restoring?
    case RestorePatch(_) => st == was && st.phase.Restoring? && cr.hist.guestOk
    case DoneGet => st == was && st.phase.Cleanup?
    case DonePatch(_) => st == was && st.phase.Cleanup?
    case DoneDv => st == was && st.phase.Cleanup?
    case DoneVmi => st == was && st.phase.Cleanup?
  }

  /** The retry and rate checks let this attempt through. */
  predicate Due(retries: int, max: int, last: Option<nat>, clock: nat) {
    retries < max && (last.Some? ==> clock >= (last.value + 5) * SECOND)
  }

  /** The check time of this attempt is on record. */
  predicate Checked(retries: int, max: int, first: Option<nat>, last: Option<nat>) {
    retries < max && first.Some? && last.Some? && last.value - first.value >= 5 * retries
  }

  predicate ThreadOk(cr: Cr, th: Thread, clock: nat) {
    if th.pc.AddFinalizer? then
      !th.deletion && !th.entry.finalizer
    else if th.deletion then
      && (Cleaning(th.pc) || th.pc.Finalize?)
      && (Cleaning(th.pc) ==> cr.finalizer)
      && (th.pc.Finalize? ==> th.pc.attempt < FINALIZER_ATTEMPTS && (th.pc.attempt == 0 ==> cr.finalizer))
      && (cr.finalizer ==> cr.deleting)
    else
      && !th.pc.Finalize?
      && cr.finalizer
      && th.entry.finalizer && !th.entry.deleting && !Terminal(th.entry.status.phase)
      && th.entry.spec == cr.spec
      && AtPc(cr, th, clock)
  }

  predicate EffectOk(e: Effect, clock: nat) {
    var cr := Woken(e.cr, e.ret, clock);
    && (e.ret.Running? <==> e.thread.Some?)
    && (!e.gone ==> StatusOk(cr, clock) && (e.thread.Some? ==> ThreadOk(cr, e.thread.value, clock)))
  }

  // ---------------------------------------------------------------------------
  // Every call keeps them
  // ---------------------------------------------------------------------------

  lemma DispatchKeeps(cr: Cr, v: View)
    requires StatusOk(cr, v.clock)
    ensures EffectOk(Dispatch(cr, v), v.clock)
  {
    hide EffectOk, StatusOk, Dispatch;
    if cr.deleting || !cr.finalizer {
      EarlyDispatchKeeps(cr, v);
    } else if cr.status.phase.WaitingForAttachment? || cr.status.phase.SshConnecting? {
      PacedDispatchKeeps(cr, v);
    } else {
      PlainDispatchKeeps(cr, v);
    }
  }

  lemma EarlyDispatchKeeps(cr: Cr, v: View)
    requires StatusOk(cr, v.clock) && (cr.deleting || !cr.finalizer)
    ensures EffectOk(Dispatch(cr, v), v.clock)
  {
  }

  lemma PlainDispatchKeeps(cr: Cr, v: View)
    requires StatusOk(cr, v.clock) && cr.finalizer && !cr.deleting
    requires !cr.status.phase.WaitingForAttachment? && !cr.status.phase.SshConnecting?
    ensures EffectOk(Dispatch(cr, v), v.clock)
  {
  }

  lemma PacedDispatchKeeps(cr: Cr, v: View)
    requires StatusOk(cr, v.clock) && cr.finalizer && !cr.deleting
    requires cr.status.phase.WaitingForAttachment? || cr.status.phase.SshConnecting?
    ensures EffectOk(Dispatch(cr, v), v.clock)
  {
  }

  /** A call that writes nothing to the object and goes on. */
  lemma GotoKeeps(cr: Cr, th: Thread, pc: Pc, clock: nat)
    requires StatusOk(cr, clock) && ThreadOk(cr, th.(pc := pc), clock)
    ensures EffectOk(Goto(cr, th, pc), clock)
  {
  }

  /** failRestore is entered with the progress the reconcile started from. */
  lemma FailKeeps(cr: Cr, th: Thread, clock: nat)
    requires StatusOk(cr, clock) && ThreadOk(cr, th, clock) && !th.deletion && !th.pc.AddFinalizer?
    requires SameProgress(cr.status, th.entry.status) && !Terminal(cr.status.phase)
    ensures EffectOk(Goto(cr, th, FailPatch), clock)
    ensures EffectOk(Goto(cr, th.(busy := true), FailPatch), clock)
  {
  }

  /** A call that ends the reconcile without asking for a timed requeue. */
  lemma ReturnKeeps(cr: Cr, ret: Ret, clock: nat)
    requires StatusOk(cr, clock) && (ret.Error? || ret.Finished? || ret.Requeue?)
    ensures EffectOk(Return(cr, ret), clock)
  {
  }

  /** A call that ends the reconcile to wait for provisioning or detachment. */
  lemma HoldKeeps(cr: Cr, why: Wait, after: Option<nat>, clock: nat)
    requires StatusOk(cr, clock) && (cr.status.phase.Hotplugging? || cr.status.phase.Cleanup?)
    ensures EffectOk(Return(cr, Waiting(why, after)), clock)
  {
  }

  lemma RetryWakes(last: nat, clock: nat, retries: int)
    requires last <= Seconds(clock)
    ensures clock + Backoff.Delay(Backoff.BASE_DELAY, retries) * SECOND >= (last + 5) * SECOND
  {
  }

  lemma InitKeeps(c: Name, cr: Cr, th: Thread, v: View, x: Outcome)
    requires StatusOk(cr, v.clock) && ThreadOk(cr, th, v.clock) && (th.pc.InitRead? || th.pc.InitMount?)
    ensures EffectOk(MoveInit(c, cr, th, v, x), v.clock)
  {
  }

  lemma HotGetKeeps(c: Name, cr: Cr, th: Thread, v: View, x: Outcome)
    requires StatusOk(cr, v.clock) && ThreadOk(cr, th, v.clock) && th.pc.HotGet?
    ensures EffectOk(MoveHot(c, cr, th, v, x), v.clock)
  {
    hide PhaseOk, ClockOk;
    FailKeeps(cr, th, v.clock);
    GotoKeeps(cr, th, Advance(WaitingForAttachment), v.clock);
    if x.SawVm? {
      GotoKeeps(cr, th, HotPatch(x.vm), v.clock);
      if cr.spec.source.snapshot.Some? {
        GotoKeeps(cr, th, HotDv(x.vm), v.clock);
      }
    }
  }

  lemma HotDvKeeps(c: Name, cr: Cr, th: Thread, v: View, x: Outcome)
    requires StatusOk(cr, v.clock) && ThreadOk(cr, th, v.clock) && (th.pc.HotDv? || th.pc.HotReget? || th.pc.HotCreate?)
    ensures EffectOk(MoveHot(c, cr, th, v, x), v.clock)
  {
    hide PhaseOk, ClockOk, VolumeName, Unplug, Plug, Lists, PlugVerdict;
    HoldKeeps(cr, Provisioning, Some(5 * SECOND), v.clock);
    FailKeeps(cr, th, v.clock);
    if x.Ok? && v.dv.Some? {
      GotoKeeps(cr, th, HotPatch(th.pc.base), v.clock);
    } else if th.pc.HotDv? {
      GotoKeeps(cr, th, HotCreate(th.pc.base), v.clock);
    }
    if th.pc.HotCreate? {
      GotoKeeps(cr, th, HotReget(th.pc.base), v.clock);
    }
  }

  lemma HotPatchKeeps(c: Name, cr: Cr, th: Thread, v: View, x: Outcome)
    requires StatusOk(cr, v.clock) && ThreadOk(cr, th, v.clock) && th.pc.HotPatch?
    ensures EffectOk(MoveHot(c, cr, th, v, x), v.clock)
  {
  }

  function AttachmentStamped(cr: Cr, clock: nat): Cr {
    var first := if cr.hist.firstAttachment.None? then Some(Seconds(clock)) else cr.hist.firstAttachment;
    cr.(status := cr.status.(lastAttachment := Some(Seconds(clock))), hist := cr.hist.(firstAttachment := first, wake := None))
  }

  lemma AttachmentStampOk(cr: Cr, clock: nat)
    requires StatusOk(cr, clock) && cr.status.phase.WaitingForAttachment?
    requires Due(cr.status.attachmentRetries, MAX_ATTACHMENT_RETRIES, cr.status.lastAttachment, clock)
    ensures var st := AttachmentStamped(cr, clock);
            StatusOk(st, clock) && Checked(cr.status.attachmentRetries, MAX_ATTACHMENT_RETRIES, st.hist.firstAttachment, st.status.lastAttachment)
  {
  }

  lemma WaitVmiKeeps(c: Name, cr: Cr, th: Thread, v: View, x: Outcome)
    requires StatusOk(cr, v.clock) && ThreadOk(cr, th, v.clock) && th.pc.WaitVmi?
    ensures EffectOk(MoveWait(c, cr, th, v, x), v.clock)
  {
  }

  lemma WaitStampKeeps(c: Name, cr: Cr, th: Thread, v: View, x: Outcome)
    requires StatusOk(cr, v.clock) && ThreadOk(cr, th, v.clock) && th.pc.WaitStamp?
    ensures EffectOk(MoveWait(c, cr, th, v, x), v.clock)
  {
    hide EffectOk, StatusOk, ThreadOk, MoveWait;
    if x.Ok? { StampAnswered(c, cr, th, v); } else { StampUnanswered(c, cr, th, v, x); }
  }

  lemma StampUnanswered(c: Name, cr: Cr, th: Thread, v: View, x: Outcome)
    requires StatusOk(cr, v.clock) && ThreadOk(cr, th, v.clock) && th.pc.WaitStamp? && !x.Ok?
    ensures EffectOk(MoveWait(c, cr, th, v, x), v.clock)
  {
    hide PhaseOk, ClockOk, EffectOk, CheckAttachment, VolumeName;
    AttachmentStampOk(cr, v.clock);
    ReturnKeeps(AttachmentStamped(cr, v.clock), Error, v.clock);
    ReturnKeeps(cr, Error, v.clock);
  }

  lemma StampAnswered(c: Name, cr: Cr, th: Thread, v: View)
    requires StatusOk(cr, v.clock) && ThreadOk(cr, th, v.clock) && th.pc.WaitStamp?
    ensures EffectOk(MoveWait(c, cr, th, v, Ok), v.clock)
  {
    hide PhaseOk, ClockOk, EffectOk, CheckAttachment, VolumeName;
    var stamped := AttachmentStamped(cr, v.clock);
    AttachmentStampOk(cr, v.clock);
    if th.pc.check.NotYet? {
      GotoKeeps(stamped, th, WaitRetry, v.clock);
    } else if th.pc.check.NotHotplugged? {
      GotoKeeps(stamped, th, FailPatch, v.clock);
    } else if cr.status.attachmentRetries > 0 {
      GotoKeeps(stamped, th, WaitReset, v.clock);
    } else {
      GotoKeeps(stamped, th, Advance(SshConnecting), v.clock);
    }
  }

  lemma WaitRetryKeeps(c: Name, cr: Cr, th: Thread, v: View, x: Outcome)
    requires StatusOk(cr, v.clock) && ThreadOk(cr, th, v.clock) && (th.pc.WaitRetry? || th.pc.WaitReset?)
    ensures EffectOk(MoveWait(c, cr, th, v, x), v.clock)
  {
    hide CheckAttachment, VolumeName, Backoff.Delay;
    if th.pc.WaitReset? {
      assert StatusOk(cr.(status := cr.status.(attachmentRetries := 0)), v.clock);
    } else if Applied(x) {
      RetryWakes(cr.status.lastAttachment.value, v.clock, cr.status.attachmentRetries + 1);
    } else {
      ReturnKeeps(cr, Error, v.clock);
    }
  }

  function SshStamped(cr: Cr, clock: nat): Cr {
    var first := if cr.hist.firstSsh.None? then Some(Seconds(clock)) else cr.hist.firstSsh;
    cr.(status := cr.status.(lastSsh := Some(Seconds(clock))), hist := cr.hist.(firstSsh := first, wake := None))
  }

  lemma SshStampOk(cr: Cr, clock: nat)
    requires StatusOk(cr, clock) && cr.status.phase.SshConnecting?
    requires Due(cr.status.sshRetries, MAX_SSH_RETRIES, cr.status.lastSsh, clock)
    ensures var st := SshStamped(cr, clock);
            StatusOk(st, clock) && Checked(cr.status.sshRetries, MAX_SSH_RETRIES, st.hist.firstSsh, st.status.lastSsh)
  {
  }

  lemma SshStampKeeps(cr: Cr, th: Thread, v: View, x: Outcome)
    requires StatusOk(cr, v.clock) && ThreadOk(cr, th, v.clock) && th.pc.SshStamp?
    ensures EffectOk(MoveSsh(cr, th, v, x), v.clock)
  {
    hide PhaseOk, ClockOk;
    var stamped := SshStamped(cr, v.clock);
    SshStampOk(cr, v.clock);
    if x.Ok? {
      GotoKeeps(stamped, th, SshConnect, v.clock);
    } else {
      ReturnKeeps(stamped, Error, v.clock);
      ReturnKeeps(cr, Error, v.clock);
    }
  }

  lemma SshConnectKeeps(cr: Cr, th: Thread, v: View, x: Outcome)
    requires StatusOk(cr, v.clock) && ThreadOk(cr, th, v.clock) && th.pc.SshConnect?
    ensures EffectOk(MoveSsh(cr, th, v, x), v.clock)
  {
  }

  lemma SshRetryKeeps(cr: Cr, th: Thread, v: View, x: Outcome)
    requires StatusOk(cr, v.clock) && ThreadOk(cr, th, v.clock) && th.pc.SshRetry?
    ensures EffectOk(MoveSsh(cr, th, v, x), v.clock)
  {
    hide Backoff.Delay;
    if Applied(x) {
      RetryWakes(cr.status.lastSsh.value, v.clock, cr.status.sshRetries + 1);
    } else {
      ReturnKeeps(cr, Error, v.clock);
    }
  }

  lemma SshResetKeeps(cr: Cr, th: Thread, v: View, x: Outcome)
    requires StatusOk(cr, v.clock) && ThreadOk(cr, th, v.clock) && th.pc.SshReset?
    ensures EffectOk(MoveSsh(cr, th, v, x), v.clock)
  {
  }

  lemma RestoreRunKeeps(cr: Cr, th: Thread, v: View, x: Outcome)
    requires StatusOk(cr, v.clock) && ThreadOk(cr, th, v.clock) && th.pc.RestoreRun?
    ensures EffectOk(MoveRestore(cr, th, x), v.clock)
  {
  }

  lemma RestorePatchKeeps(cr: Cr, th: Thread, v: View, x: Outcome)
    requires StatusOk(cr, v.clock) && ThreadOk(cr, th, v.clock) && th.pc.RestorePatch?
    ensures EffectOk(MoveRestore(cr, th, x), v.clock)
  {
    hide FileCount.ReportedCount;
    if Applied(x) {
      var restored := RestoredCr(cr, th.pc.stdout);
      ReturnKeeps(restored, if x.Ok? then Requeue else Error, v.clock);
    } else {
      ReturnKeeps(cr, Error, v.clock);
    }
  }

  lemma DoneGetKeeps(c: Name, cr: Cr, th: Thread, v: View, x: Outcome)
    requires StatusOk(cr, v.clock) && ThreadOk(cr, th, v.clock) && (th.pc.DoneGet? || th.pc.DoneVmi?)
    ensures EffectOk(MoveDone(c, cr, th, v, x), v.clock)
  {
    hide PhaseOk, ClockOk, VolumeName, Unplug, Plug, Lists, PlugVerdict;
    if x.SawVm? && th.pc.DoneGet? {
      GotoKeeps(cr, th, DonePatch(x.vm), v.clock);
    } else if x.NotFound? || x.SawVmi? {
      GotoKeeps(cr, th.(vmGone := true), Advance(Succeeded), v.clock);
      GotoKeeps(cr, th, Advance(Succeeded), v.clock);
    }
    HoldKeeps(cr, Detaching, Some(5 * SECOND), v.clock);
    FailKeeps(cr, th, v.clock);
  }

  lemma DonePatchKeeps(c: Name, cr: Cr, th: Thread, v: View, x: Outcome)
    requires StatusOk(cr, v.clock) && ThreadOk(cr, th, v.clock) && (th.pc.DonePatch? || th.pc.DoneDv?)
    ensures EffectOk(MoveDone(c, cr, th, v, x), v.clock)
  {
    hide PhaseOk, ClockOk, VolumeName, Unplug, Plug, Lists, PlugVerdict;
    if x.Ok? {
      GotoKeeps(cr, th, DoneDv, v.clock);
      GotoKeeps(cr, th, DoneVmi, v.clock);
    }
    FailKeeps(cr, th, v.clock);
  }

  lemma CleanKeeps(c: Name, cr: Cr, th: Thread, v: View, x: Outcome)
    requires StatusOk(cr, v.clock) && ThreadOk(cr, th, v.clock) && Cleaning(th.pc)
    ensures EffectOk(MoveClean(c, cr, th, v, x), v.clock)
  {
    hide PhaseOk, ClockOk, VolumeName, Unplug, Plug, Lists, PlugVerdict;
    ReturnKeeps(cr, Finished, v.clock);
  }

  lemma FinalizeKeeps(cr: Cr, th: Thread, v: View, x: Outcome)
    requires StatusOk(cr, v.clock) && ThreadOk(cr, th, v.clock) && th.pc.Finalize?
    ensures EffectOk(MoveFinalize(cr, th, x), v.clock)
  {
  }

  lemma AddFinalizerKeeps(c: Name, cr: Cr, th: Thread, v: View, x: Outcome)
    requires StatusOk(cr, v.clock) && ThreadOk(cr, th, v.clock) && th.pc.AddFinalizer?
    ensures EffectOk(Move(c, cr, th, v, x), v.clock)
  {
    ReturnKeeps(cr, Error, v.clock);
    assert StatusOk(cr.(finalizer := true), v.clock);
    ReturnKeeps(cr.(finalizer := true), Requeue, v.clock);
    ReturnKeeps(cr.(finalizer := true), Error, v.clock);
  }

  lemma AdvanceKeeps(c: Name, cr: Cr, th: Thread, v: View, x: Outcome)
    requires StatusOk(cr, v.clock) && ThreadOk(cr, th, v.clock) && th.pc.Advance?
    ensures EffectOk(Move(c, cr, th, v, x), v.clock)
  {
    if Applied(x) {
      var next := Advanced(cr, th.pc.to, th.vmGone, v.clock);
      assert PhaseOk(next);
      ReturnAdvanced(next, if x.Ok? then Requeue else Error, v.clock);
    } else {
      ReturnKeeps(cr, Error, v.clock);
    }
  }

  lemma FailPatchKeeps(c: Name, cr: Cr, th: Thread, v: View, x: Outcome)
    requires StatusOk(cr, v.clock) && ThreadOk(cr, th, v.clock) && th.pc.FailPatch?
    ensures EffectOk(Move(c, cr, th, v, x), v.clock)
  {
    if Applied(x) {
      var failed := FailedCr(cr, v.clock);
      assert StatusOk(failed, v.clock);
      ReturnKeeps(failed, Error, v.clock);
      GotoKeeps(failed, th, CleanGuest, v.clock);
    } else {
      ReturnKeeps(cr, Error, v.clock);
    }
  }

  lemma ReturnAdvanced(cr: Cr, ret: Ret, clock: nat)
    requires PhaseOk(cr) && ClockOk(cr.(hist := cr.hist.(wake := None)), clock) && (ret.Error? || ret.Requeue?)
    ensures EffectOk(Return(cr, ret), clock)
  {
  }

  /** Every call of every reconcile keeps the invariants of its own restore. */
  lemma MoveKeeps(c: Name, cr: Cr, th: Thread, v: View, x: Outcome)
    requires StatusOk(cr, v.clock) && ThreadOk(cr, th, v.clock)
    ensures EffectOk(Move(c, cr, th, v, x), v.clock)
  {
    hide EffectOk, StatusOk, ThreadOk, MoveInit, MoveHot, MoveWait, MoveSsh, MoveRestore, MoveDone, MoveClean, MoveFinalize;
    match th.pc
    case AddFinalizer => AddFinalizerKeeps(c, cr, th, v, x);
    case Advance(_) => AdvanceKeeps(c, cr, th, v, x);
    case FailPatch => FailPatchKeeps(c, cr, th, v, x);
    case InitRead => InitKeeps(c, cr, th, v, x);
    case InitMount(_) => InitKeeps(c, cr, th, v, x);
    case HotGet => HotGetKeeps(c, cr, th, v, x);
    case HotDv(_) => HotDvKeeps(c, cr, th, v, x);
    case HotCreate(_) => HotDvKeeps(c, cr, th, v, x);
    case HotReget(_) => HotDvKeeps(c, cr, th, v, x);
    case HotPatch(_) => HotPatchKeeps(c, cr, th, v, x);
    case WaitVmi => WaitVmiKeeps(c, cr, th, v, x);
    case WaitStamp(_) => WaitStampKeeps(c, cr, th, v, x);
    case WaitRetry => WaitRetryKeeps(c, cr, th, v, x);
    case WaitReset => WaitRetryKeeps(c, cr, th, v, x);
    case SshStamp => SshStampKeeps(cr, th, v, x);
    case SshConnect => SshConnectKeeps(cr, th, v, x);
    case SshRetry => SshRetryKeeps(cr, th, v, x);
    case SshReset => SshResetKeeps(cr, th, v, x);
    case RestoreRun => RestoreRunKeeps(cr, th, v, x);
    case RestorePatch(_) => RestorePatchKeeps(cr, th, v, x);
    case DoneGet => DoneGetKeeps(c, cr, th, v, x);
    case DonePatch(_) => DonePatchKeeps(c, cr, th, v, x);
    case DoneDv => DonePatchKeeps(c, cr, th, v, x);
    case DoneVmi => DoneGetKeeps(c, cr, th, v, x);
    case CleanGuest => CleanKeeps(c, cr, th, v, x);
    case CleanGet => CleanKeeps(c, cr, th, v, x);
    case CleanPatch(_) => CleanKeeps(c, cr, th, v, x);
    case CleanDv => CleanKeeps(c, cr, th, v, x);
    case Finalize(_) => FinalizeKeeps(cr, th, v, x);
  }
}
