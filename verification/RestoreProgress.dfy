/** The phase chain and the progress measure, call by call (phases.go and the dispatch of Reconcile). */
module RestoreProgress {
  import opened Text
  import opened VmSpec
  import opened GuestOs
  import opened RestoreModel
  import opened RestoreStatus
  import FileCount

  // ---------------------------------------------------------------------------
  // The phase chain
  // ---------------------------------------------------------------------------

  /** The arrows of the phase diagram. */
  predicate Edge(from: Phase, to: Phase) {
    match to
    case Failed => !Terminal(from)
    case VolumeReady => from.Restoring?
    case Cleanup => from.Restoring?
    case _ => NextPhase(from, to)
  }

  function Height(p: Phase): nat {
    match p
    case Hotplugging => 1
    case WaitingForAttachment => 2
    case SshConnecting => 3
    case Restoring => 4
    case VolumeReady => 5
    case Cleanup => 5
    case Succeeded => 6
    case Failed => 7
    case _ => 0
  }

  /** How one call may change the persisted status. */
  predicate Evolves(a: Status, b: Status) {
    && (a.phase == b.phase || Edge(a.phase, b.phase))
    && (Terminal(a.phase) ==> a == b)
    && (a.startTime.Some? ==> b.startTime == a.startTime)
    && (a.count.Some? ==> b.count == a.count)
    && (Started(a.phase) ==> b.mountPath == a.mountPath)
  }

  /** How any number of calls may change it. */
  predicate EvolvesTo(a: Status, b: Status) {
    && (a.phase == b.phase || Height(a.phase) < Height(b.phase))
    && (Terminal(a.phase) ==> a == b)
    && (a.startTime.Some? ==> b.startTime == a.startTime)
    && (a.count.Some? ==> b.count == a.count)
    && (Started(a.phase) ==> b.mountPath == a.mountPath)
  }

  lemma EvolvesCompose(a: Status, b: Status, d: Status)
    requires EvolvesTo(a, b) && Evolves(b, d) && (Started(a.phase) ==> Started(b.phase) || b.phase.Failed?)
    ensures EvolvesTo(a, d)
  {
  }

  /** What a reconcile entered with, and what its last call leaves behind. */
  predicate ChainOk(cr: Cr, e: Effect, clock: nat) {
    var after := Woken(e.cr, e.ret, clock);
    after.spec == cr.spec && Evolves(cr.status, after.status)
  }

  /** Calls that leave the object alone. */
  predicate Quiet(pc: Pc) {
    || pc.HotGet? || pc.HotDv? || pc.HotCreate? || pc.HotReget? || pc.HotPatch?
    || pc.DoneGet? || pc.DonePatch? || pc.DoneDv? || pc.DoneVmi?
  }
  predicate InWait(pc: Pc) { pc.WaitVmi? || pc.WaitStamp? || pc.WaitRetry? || pc.WaitReset? }
  predicate InSsh(pc: Pc) { pc.SshStamp? || pc.SshConnect? || pc.SshRetry? || pc.SshReset? }
  predicate InRestore(pc: Pc) { pc.RestoreRun? || pc.RestorePatch? }

  lemma QuietEvolves(c: Name, cr: Cr, th: Thread, v: View, x: Outcome)
    requires Quiet(th.pc) || Cleaning(th.pc) || th.pc.Finalize?
    ensures var e := Move(c, cr, th, v, x); e.cr.status == cr.status && e.cr.spec == cr.spec
  {
    hide MoveInit, MoveHot, MoveWait, MoveSsh, MoveRestore, MoveDone, MoveClean;
    HotWritesNothing(c, cr, th, v, x);
    DoneWritesNothing(c, cr, th, v, x);
    CleanWritesNothing(c, cr, th, v, x);
  }

  lemma HotWritesNothing(c: Name, cr: Cr, th: Thread, v: View, x: Outcome)
    ensures MoveHot(c, cr, th, v, x).cr == cr
  {
    hide PlugVerdict, VolumeName, Plug;
  }

  lemma DoneWritesNothing(c: Name, cr: Cr, th: Thread, v: View, x: Outcome)
    ensures MoveDone(c, cr, th, v, x).cr == cr
  {
    hide VolumeName, Unplug, Lists;
  }

  lemma CleanWritesNothing(c: Name, cr: Cr, th: Thread, v: View, x: Outcome)
    ensures MoveClean(c, cr, th, v, x).cr == cr
  {
    hide VolumeName, Unplug;
  }

  lemma WaitEvolves(c: Name, cr: Cr, th: Thread, v: View, x: Outcome)
    requires ThreadOk(cr, th, v.clock) && InWait(th.pc)
    ensures ChainOk(cr, Move(c, cr, th, v, x), v.clock)
  {
    hide CheckAttachment, VolumeName, Due, Checked, Edge;
  }

  lemma SshEvolves(c: Name, cr: Cr, th: Thread, v: View, x: Outcome)
    requires ThreadOk(cr, th, v.clock) && InSsh(th.pc)
    ensures ChainOk(cr, Move(c, cr, th, v, x), v.clock)
  {
    hide VolumeName, Due, Checked, Edge;
  }

  lemma RestoreEvolves(c: Name, cr: Cr, th: Thread, v: View, x: Outcome)
    requires PhaseOk(cr) && ThreadOk(cr, th, v.clock) && InRestore(th.pc)
    ensures ChainOk(cr, Move(c, cr, th, v, x), v.clock)
  {
    hide FileCount.ReportedCount;
  }

  lemma PatchEvolves(c: Name, cr: Cr, th: Thread, v: View, x: Outcome)
    requires PhaseOk(cr) && ThreadOk(cr, th, v.clock)
    requires th.pc.AddFinalizer? || th.pc.Advance? || th.pc.FailPatch? || th.pc.InitRead? || th.pc.InitMount?
    ensures ChainOk(cr, Move(c, cr, th, v, x), v.clock)
  {
    hide MountPath, DetectGuestOs, VolumeName;
  }

  lemma MoveEvolves(c: Name, cr: Cr, th: Thread, v: View, x: Outcome)
    requires PhaseOk(cr) && ThreadOk(cr, th, v.clock)
    ensures ChainOk(cr, Move(c, cr, th, v, x), v.clock)
  {
    hide Move, PhaseOk, ThreadOk;
    if Quiet(th.pc) || Cleaning(th.pc) || th.pc.Finalize? {
      QuietEvolves(c, cr, th, v, x);
    } else if InWait(th.pc) {
      WaitEvolves(c, cr, th, v, x);
    } else if InSsh(th.pc) {
      SshEvolves(c, cr, th, v, x);
    } else if InRestore(th.pc) {
      RestoreEvolves(c, cr, th, v, x);
    } else {
      PatchEvolves(c, cr, th, v, x);
    }
  }

  // ---------------------------------------------------------------------------
  // The progress measure
  // ---------------------------------------------------------------------------

  function Rank(p: Phase): nat { 7 - Height(p) }

  /** Finalizer missing, phase rank, attachment retries left, SSH retries left. */
  datatype Measure = Measure(finalizer: int, rank: int, attachment: int, ssh: int)

  function MeasureOf(cr: Cr): Measure {
    Measure(if cr.finalizer then 0 else 1, Rank(cr.status.phase),
            MAX_ATTACHMENT_RETRIES - cr.status.attachmentRetries, MAX_SSH_RETRIES - cr.status.sshRetries)
  }

  predicate Below(a: Measure, b: Measure) {
    || a.finalizer < b.finalizer
    || (a.finalizer == b.finalizer && a.rank < b.rank)
    || (a.finalizer == b.finalizer && a.rank == b.rank && a.attachment < b.attachment)
    || (a.finalizer == b.finalizer && a.rank == b.rank && a.attachment == b.attachment && a.ssh < b.ssh)
  }

  predicate Natural(m: Measure) { m.finalizer >= 0 && m.rank >= 0 && m.attachment >= 0 && m.ssh >= 0 }

  /** The three waits the protocol has, and the rate limiter. */
  predicate LegitimateWait(cr: Cr, why: Wait, clock: nat) {
    match why
    case RateLimit => (cr.status.phase.WaitingForAttachment? && RateLimited(cr.status.lastAttachment, clock))
                      || (cr.status.phase.SshConnecting? && RateLimited(cr.status.lastSsh, clock))
    case Provisioning => cr.status.phase.Hotplugging? && cr.spec.source.snapshot.Some?
    case ManualHold => cr.status.phase.VolumeReady?
    case Detaching => cr.status.phase.Cleanup?
  }

  /** The calls that write the restore object and give up on an error. */
  predicate WritesCr(pc: Pc) {
    || pc.AddFinalizer? || pc.Finalize? || pc.InitMount? || pc.Advance? || pc.FailPatch?
    || pc.WaitStamp? || pc.WaitRetry? || pc.SshStamp? || pc.SshRetry? || pc.RestorePatch?
  }

  /** A reconcile ends with an error only when a write of its object failed; otherwise it made progress, or it waits. */
  predicate Progressed(entry: Cr, e: Effect, clock: nat, writeFailed: bool) {
    match e.ret
    case Running => true
    case Error => writeFailed
    case Waiting(why, _) => e.cr.status == entry.status && MeasureOf(e.cr) == MeasureOf(entry) && LegitimateWait(e.cr, why, clock)
    case _ => Below(MeasureOf(e.cr), MeasureOf(entry))
  }

  lemma DispatchProgress(cr: Cr, v: View)
    requires !cr.deleting && !Terminal(cr.status.phase)
    ensures Progressed(cr, Dispatch(cr, v), v.clock, false)
  {
  }

  lemma QuietProgress(c: Name, cr: Cr, th: Thread, v: View, x: Outcome)
    requires ThreadOk(cr, th, v.clock) && !th.deletion && Quiet(th.pc)
    ensures Progressed(th.entry, Move(c, cr, th, v, x), v.clock, WritesCr(th.pc) && !x.Ok?)
  {
    hide PlugVerdict, VolumeName, Lists, Plug, Unplug, Below;
  }

  lemma WaitProgress(c: Name, cr: Cr, th: Thread, v: View, x: Outcome)
    requires ThreadOk(cr, th, v.clock) && !th.deletion && (InWait(th.pc) || InSsh(th.pc))
    ensures Progressed(th.entry, Move(c, cr, th, v, x), v.clock, WritesCr(th.pc) && !x.Ok?)
  {
    hide CheckAttachment, VolumeName, Due, Checked, LegitimateWait, MoveInit, MoveHot, MoveRestore, MoveDone, MoveClean, MoveFinalize;
  }

  lemma PatchProgress(c: Name, cr: Cr, th: Thread, v: View, x: Outcome)
    requires ThreadOk(cr, th, v.clock) && !th.deletion
    requires th.pc.AddFinalizer? || th.pc.Advance? || th.pc.FailPatch? || th.pc.InitRead? || th.pc.InitMount?
    ensures Progressed(th.entry, Move(c, cr, th, v, x), v.clock, WritesCr(th.pc) && !x.Ok?)
  {
    hide MountPath, DetectGuestOs, VolumeName, LegitimateWait;
  }

  lemma GuestProgress(c: Name, cr: Cr, th: Thread, v: View, x: Outcome)
    requires ThreadOk(cr, th, v.clock) && !th.deletion && InRestore(th.pc)
    ensures Progressed(th.entry, Move(c, cr, th, v, x), v.clock, WritesCr(th.pc) && !x.Ok?)
  {
    hide FileCount.ReportedCount, LegitimateWait;
  }

  lemma CleanProgress(c: Name, cr: Cr, th: Thread, v: View, x: Outcome)
    requires ThreadOk(cr, th, v.clock) && !th.deletion && Cleaning(th.pc)
    ensures Progressed(th.entry, Move(c, cr, th, v, x), v.clock, WritesCr(th.pc) && !x.Ok?)
  {
    hide MoveInit, MoveHot, MoveWait, MoveSsh, MoveRestore, MoveDone, MoveClean, LegitimateWait, ThreadOk, Below, MeasureOf;
    CleanReturns(c, cr, th, v, x);
    FailedIsLow(cr, th, v.clock);
  }

  lemma CleanReturns(c: Name, cr: Cr, th: Thread, v: View, x: Outcome)
    requires !th.deletion && Cleaning(th.pc)
    ensures var e := MoveClean(c, cr, th, v, x); e.cr == cr && (e.ret.Running? || e.ret.Finished?)
  {
    hide VolumeName, Unplug;
  }

  lemma FailedIsLow(cr: Cr, th: Thread, clock: nat)
    requires ThreadOk(cr, th, clock) && !th.deletion && Cleaning(th.pc)
    ensures Below(MeasureOf(cr), MeasureOf(th.entry))
  {
    hide Due, Checked;
  }

  lemma MoveProgress(c: Name, cr: Cr, th: Thread, v: View, x: Outcome)
    requires ThreadOk(cr, th, v.clock) && !th.deletion
    ensures Progressed(th.entry, Move(c, cr, th, v, x), v.clock, WritesCr(th.pc) && !x.Ok?)
  {
    hide Move, Progressed;
    if Quiet(th.pc) {
      QuietProgress(c, cr, th, v, x);
    } else if InWait(th.pc) || InSsh(th.pc) {
      WaitProgress(c, cr, th, v, x);
    } else if Cleaning(th.pc) {
      CleanProgress(c, cr, th, v, x);
    } else if InRestore(th.pc) {
      GuestProgress(c, cr, th, v, x);
    } else {
      PatchProgress(c, cr, th, v, x);
    }
  }

  /** What a call that makes a reconcile wait has seen: an unprovisioned DataVolume or a listed volume; it waits five seconds. */
  predicate Blocked(c: Name, v: View, x: Outcome, why: Wait) {
    match why
    case Provisioning => v.dv.Some? && !v.dv.value.DvSucceeded?
    case Detaching => x.SawVmi? && Lists(x.vmi, VolumeName(c))
    case _ => false
  }

  lemma WaitsAreBlocked(c: Name, cr: Cr, th: Thread, v: View, x: Outcome)
    ensures var e := Move(c, cr, th, v, x); e.ret.Waiting? ==> Blocked(c, v, x, e.ret.why) && e.ret.after == Some(5_000_000_000)
  {
    hide MoveInit, MoveHot, MoveWait, MoveSsh, MoveRestore, MoveDone, MoveClean, VolumeName, Lists, Blocked;
    HotBlocked(c, cr, th, v, x);
    DoneBlocked(c, cr, th, v, x);
    ChecksNeverWait(c, cr, th, v, x);
    OthersNeverWait(c, cr, th, v, x);
  }

  lemma ChecksNeverWait(c: Name, cr: Cr, th: Thread, v: View, x: Outcome)
    ensures !MoveWait(c, cr, th, v, x).ret.Waiting? && !MoveSsh(cr, th, v, x).ret.Waiting?
  {
    hide VolumeName, CheckAttachment;
  }

  lemma OthersNeverWait(c: Name, cr: Cr, th: Thread, v: View, x: Outcome)
    ensures !MoveInit(c, cr, th, v, x).ret.Waiting? && !MoveRestore(cr, th, x).ret.Waiting? && !MoveClean(c, cr, th, v, x).ret.Waiting?
  {
    hide VolumeName, Unplug, MountPath, DetectGuestOs, FileCount.ReportedCount;
  }

  lemma HotBlocked(c: Name, cr: Cr, th: Thread, v: View, x: Outcome)
    ensures var e := MoveHot(c, cr, th, v, x); e.ret.Waiting? ==> Blocked(c, v, x, e.ret.why) && e.ret.after == Some(5_000_000_000)
  {
    hide VolumeName, Plug, PlugVerdict;
  }

  lemma DoneBlocked(c: Name, cr: Cr, th: Thread, v: View, x: Outcome)
    ensures var e := MoveDone(c, cr, th, v, x); e.ret.Waiting? ==> Blocked(c, v, x, e.ret.why) && e.ret.after == Some(5_000_000_000)
  {
    hide VolumeName, Unplug, Lists;
  }
}
