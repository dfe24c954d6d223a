/**
 The restore protocol as a state machine (phases.go, hotplug.go and
 virtualmachinefilerestore_controller.go).

 One step is one API or SSH call of one reconcile, or one move of the surroundings.  Any
 number of restores run side by side, one reconcile in flight for each.  A call can succeed,
 fail without effect, take effect although an error comes back (Lost), and the operator can
 crash before any call.  Calls that touch nothing modelled here and only choose a branch
 (address lookup, key lookup, dialling) are part of the neighbouring call's outcome.
 */
module RestoreModel {
  import opened Text
  import opened VmSpec
  import opened GuestOs
  import Backoff
  import FileCount

  type Name = s: string | s != "" witness "restore"

  // ---------------------------------------------------------------------------
  // Objects
  // ---------------------------------------------------------------------------

  datatype ObjectRef = ObjectRef(name: string, namespace: string)
  datatype Source = Source(pvc: Option<ObjectRef>, snapshot: Option<ObjectRef>, remote: bool)
  datatype Spec = Spec(target: string, source: Source, sourcePath: string)

  datatype Phase =
    | Unset | New | Init | Hotplugging | WaitingForAttachment | SshConnecting
    | Restoring | VolumeReady | Cleanup | Succeeded | Failed | Unknown(text: string)

  predicate Terminal(p: Phase) { p.Succeeded? || p.Failed? }
  predicate Fresh0(p: Phase) { p.Unset? || p.New? }

  /** Times are whole seconds, as metav1.Time persists them. */
  datatype Status = Status(
    phase: Phase, startTime: Option<nat>, completionTime: Option<nat>, count: Option<int>, mountPath: string,
    attachmentRetries: int, sshRetries: int, lastAttachment: Option<nat>, lastSsh: Option<nat>)

  /**
   What has happened to this restore so far: a guest command succeeded, Succeeded was written
   with the VM missing, the first recorded check times, and when the last finished reconcile
   asked to be called again (in nanoseconds).
   */
  datatype History = History(guestOk: bool, vmGone: bool, firstAttachment: Option<nat>, firstSsh: Option<nat>, wake: Option<nat>)

  datatype Cr = Cr(spec: Spec, finalizer: bool, deleting: bool, status: Status, hist: History)

  function NewCr(spec: Spec): Cr {
    Cr(spec, false, false, Status(Unset, None, None, None, "", 0, 0, None, None), History(false, false, None, None, None))
  }

  datatype DvPhase = DvPending | DvRunning | DvSucceeded | DvFailed

  const SECOND: nat := 1_000_000_000
  const MAX_ATTACHMENT_RETRIES := 60
  const MAX_SSH_RETRIES := 24
  const FINALIZER_ATTEMPTS: nat := 3

  function Seconds(clock: nat): nat { clock / SECOND }

  predicate RateLimited(last: Option<nat>, clock: nat) {
    last.Some? && clock as int - last.value * SECOND < 5 * SECOND
  }

  function SourceCount(s: Source): nat {
    (if s.pvc.Some? then 1 else 0) + (if s.snapshot.Some? then 1 else 0) + (if s.remote then 1 else 0)
  }

  /** getSourceName */
  function SourceName(c: Name, s: Source): string {
    if s.pvc.Some? then s.pvc.value.name else if s.snapshot.Some? then s.snapshot.value.name else c
  }

  predicate CrossNamespace(namespace: string, pvc: ObjectRef) {
    pvc.namespace != "" && pvc.namespace != namespace
  }

  /** The claim the hotplugged volume points at. */
  function ClaimName(c: Name, s: Source): string {
    if s.pvc.Some? then s.pvc.value.name else VolumeName(c)
  }

  datatype AttachCheck = NotYet | NotHotplugged | Attached

  function FindStatus(vs: seq<VolumeStatus>, name: string): Option<VolumeStatus> {
    if vs == [] then None else if vs[0].name == name then Some(vs[0]) else FindStatus(vs[1..], name)
  }

  function CheckAttachment(vmi: Vmi, name: string): AttachCheck {
    var found := FindStatus(vmi.volumeStatus, name);
    if found.None? || !found.value.ready || found.value.target == "" then NotYet
    else if !found.value.hotplug then NotHotplugged
    else Attached
  }

  predicate Lists(vmi: Vmi, name: string) {
    exists i :: 0 <= i < |vmi.volumeStatus| && vmi.volumeStatus[i].name == name
  }

  // ---------------------------------------------------------------------------
  // A reconcile in flight
  // ---------------------------------------------------------------------------

  /** The call a reconcile is about to make, with what it remembers from earlier ones. */
  datatype Pc =
    | AddFinalizer
    | InitRead | InitMount(path: string)
    | Advance(to: Phase)
    | FailPatch
    | CleanGuest | CleanGet | CleanPatch(base: Vm) | CleanDv
    | Finalize(attempt: nat)
    | HotGet | HotDv(base: Vm) | HotCreate(base: Vm) | HotReget(base: Vm) | HotPatch(base: Vm)
    | WaitVmi | WaitStamp(check: AttachCheck) | WaitRetry | WaitReset
    | SshStamp | SshConnect | SshRetry | SshReset
    | RestoreRun | RestorePatch(stdout: string)
    | DoneGet | DonePatch(base: Vm) | DoneDv | DoneVmi

  /**
   `entry` is the object the reconcile started from.  `clean` stays true while every call of a
   deletion-time cleanup succeeds; `busy` marks a failure because another restore holds the VM.
   */
  datatype Thread = Thread(pc: Pc, entry: Cr, deletion: bool, clean: bool, busy: bool, vmGone: bool)

  datatype Outcome =
    | Crash | Err | Lost | Ok | NotFound | Refused
    | SawVm(vm: Vm) | SawVmi(vmi: Vmi) | Ran(stdout: string)

  /** A write took effect. */
  predicate Applied(x: Outcome) { x.Ok? || x.Lost? }

  datatype Wait = RateLimit | Provisioning | ManualHold | Detaching

  /** How a reconcile ended; delays are in nanoseconds. */
  datatype Ret = Running | Finished | Requeue | RequeueAfter(delay: nat) | Waiting(why: Wait, after: Option<nat>) | Error

  datatype VmPatch = VmPatch(base: Vm, edited: Vm)
  datatype DvWrite = DvKeep | DvCreate | DvDelete

  /** Everything one call changes. */
  datatype Effect = Effect(cr: Cr, gone: bool, thread: Option<Thread>, patch: Option<VmPatch>, dv: DvWrite, ret: Ret)

  /** What a call can see of the cluster besides its own object. */
  datatype View = View(namespace: string, clock: nat, vmThere: bool, dv: Option<DvPhase>)

  function Goto(cr: Cr, th: Thread, pc: Pc): Effect {
    Effect(cr, false, Some(th.(pc := pc)), None, DvKeep, Running)
  }

  function Return(cr: Cr, ret: Ret): Effect {
    Effect(cr, false, None, None, DvKeep, ret)
  }

  function Begin(cr: Cr, pc: Pc): Effect {
    Effect(cr, false, Some(Thread(pc, cr, cr.deleting, true, false, false)), None, DvKeep, Running)
  }

  /** The read of the object and the dispatch on its persisted phase. */
  function Dispatch(cr: Cr, v: View): Effect {
    var st := cr.status;
    if cr.deleting then
      if cr.finalizer then Begin(cr, CleanGuest) else Return(cr, Finished)
    else if !cr.finalizer then Begin(cr, AddFinalizer)
    else match st.phase
      case Succeeded => Return(cr, Finished)
      case Failed => Return(cr, Finished)
      case Unset => Begin(cr, if SourceCount(cr.spec.source) == 1 then InitRead else FailPatch)
      case New => Begin(cr, if SourceCount(cr.spec.source) == 1 then InitRead else FailPatch)
      case Init => Begin(cr, if SourceCount(cr.spec.source) == 1 then InitRead else FailPatch)
      case Hotplugging => Begin(cr, HotGet)
      case WaitingForAttachment =>
        if st.attachmentRetries >= MAX_ATTACHMENT_RETRIES then Begin(cr, FailPatch)
        else if RateLimited(st.lastAttachment, v.clock) then Return(cr, Waiting(RateLimit, Remaining(st.lastAttachment.value, v.clock)))
        else Begin(cr, WaitVmi)
      case SshConnecting =>
        if st.sshRetries >= MAX_SSH_RETRIES then Begin(cr, FailPatch)
        else if RateLimited(st.lastSsh, v.clock) then Return(cr, Waiting(RateLimit, Remaining(st.lastSsh.value, v.clock)))
        else Begin(cr, SshStamp)
      case Restoring => Begin(cr, RestoreRun)
      case VolumeReady => Return(cr, Waiting(ManualHold, None))
      case Cleanup => Begin(cr, DoneGet)
      case Unknown(_) => Begin(cr, FailPatch)
  }

  function Remaining(last: nat, clock: nat): Option<nat>
    requires RateLimited(Some(last), clock)
  {
    Some(5 * SECOND - (clock - last * SECOND))
  }

  /** The next call of the reconcile `th` of restore `c` has outcome `x`. */
  function Move(c: Name, cr: Cr, th: Thread, v: View, x: Outcome): Effect {
    match th.pc
    case AddFinalizer =>
      if Applied(x) then Return(cr.(finalizer := true), if x.Ok? then Requeue else Error) else Return(cr, Error)
    case InitRead => MoveInit(c, cr, th, v, x)
    case InitMount(_) => MoveInit(c, cr, th, v, x)
    case Advance(to) =>
      if Applied(x) then Return(Advanced(cr, to, th.vmGone, v.clock), if x.Ok? then Requeue else Error) else Return(cr, Error)
    case FailPatch =>
      if x.Ok? then Goto(FailedCr(cr, v.clock), th, CleanGuest)
      else Return(if x.Lost? then FailedCr(cr, v.clock) else cr, Error)
    case CleanGuest => MoveClean(c, cr, th, v, x)
    case CleanGet => MoveClean(c, cr, th, v, x)
    case CleanPatch(_) => MoveClean(c, cr, th, v, x)
    case CleanDv => MoveClean(c, cr, th, v, x)
    case Finalize(_) => MoveFinalize(cr, th, x)
    case HotGet => MoveHot(c, cr, th, v, x)
    case HotDv(_) => MoveHot(c, cr, th, v, x)
    case HotCreate(_) => MoveHot(c, cr, th, v, x)
    case HotReget(_) => MoveHot(c, cr, th, v, x)
    case HotPatch(_) => MoveHot(c, cr, th, v, x)
    case WaitVmi => MoveWait(c, cr, th, v, x)
    case WaitStamp(_) => MoveWait(c, cr, th, v, x)
    case WaitRetry => MoveWait(c, cr, th, v, x)
    case WaitReset => MoveWait(c, cr, th, v, x)
    case SshStamp => MoveSsh(cr, th, v, x)
    case SshConnect => MoveSsh(cr, th, v, x)
    case SshRetry => MoveSsh(cr, th, v, x)
    case SshReset => MoveSsh(cr, th, v, x)
    case RestoreRun => MoveRestore(cr, th, x)
    case RestorePatch(_) => MoveRestore(cr, th, x)
    case DoneGet => MoveDone(c, cr, th, v, x)
    case DonePatch(_) => MoveDone(c, cr, th, v, x)
    case DoneDv => MoveDone(c, cr, th, v, x)
    case DoneVmi => MoveDone(c, cr, th, v, x)
  }

  /** transitionPhase */
  function Advanced(cr: Cr, to: Phase, vmGone: bool, clock: nat): Cr {
    var st := cr.status;
    var start := if Fresh0(st.phase) then Some(Seconds(clock)) else st.startTime;
    var done := if Terminal(to) then Some(Seconds(clock)) else st.completionTime;
    cr.(status := st.(phase := to, startTime := start, completionTime := done),
        hist := cr.hist.(vmGone := vmGone))
  }

  /** The patch of failRestore. */
  function FailedCr(cr: Cr, clock: nat): Cr {
    cr.(status := cr.status.(phase := Failed, completionTime := Some(Seconds(clock))))
  }

  function MoveInit(c: Name, cr: Cr, th: Thread, v: View, x: Outcome): Effect {
    match th.pc
    case InitRead =>
      if x.SawVmi? && (cr.spec.source.pvc.Some? || cr.spec.source.snapshot.Some?)
      then Goto(cr, th, InitMount(MountPath(DetectGuestOs(x.vmi), SourceName(c, cr.spec.source))))
      else Goto(cr, th, FailPatch)
    case InitMount(path) =>
      var mounted := cr.(status := cr.status.(mountPath := path));
      if x.Ok? then Goto(mounted, th, Advance(Hotplugging))
      else Return(if x.Lost? then mounted else cr, Error)
    case _ => Return(cr, Error)
  }

  /** handleHotpluggingPhase and HotplugVolume. */
  function MoveHot(c: Name, cr: Cr, th: Thread, v: View, x: Outcome): Effect {
    var name := VolumeName(c);
    var source := cr.spec.source;
    match th.pc
    case HotGet =>
      if x.SawVm? then AfterScan(c, cr, th, v, x.vm) else Goto(cr, th, FailPatch)
    case HotDv(base) =>
      if !x.Ok? then Goto(cr, th, FailPatch)
      else if v.dv.None? then Goto(cr, th, HotCreate(base))
      else ProvisionedOrWait(cr, th, base, v.dv.value)
    case HotCreate(base) =>
      var next := Goto(cr, th, if x.Ok? then HotReget(base) else FailPatch);
      if Applied(x) && v.dv.None? then next.(dv := DvCreate) else next
    case HotReget(base) =>
      if !x.Ok? || v.dv.None? then Goto(cr, th, FailPatch)
      else ProvisionedOrWait(cr, th, base, v.dv.value)
    case HotPatch(base) =>
      if !v.vmThere then Goto(cr, th, FailPatch) else
      var next := Goto(cr, th, if x.Ok? then Advance(WaitingForAttachment) else FailPatch);
      if Applied(x) then next.(patch := Some(VmPatch(base, Plug(base, name, ClaimName(c, source))))) else next
    case _ => Return(cr, Error)
  }

  function AfterScan(c: Name, cr: Cr, th: Thread, v: View, vm: Vm): Effect {
    var source := cr.spec.source;
    match PlugVerdict(vm, VolumeName(c))
    case Busy => Goto(cr, th.(busy := true), FailPatch)
    case Present => Goto(cr, th, Advance(WaitingForAttachment))
    case Partial => Goto(cr, th, FailPatch)
    case Absent =>
      if source.pvc.Some? then
        Goto(cr, th, if CrossNamespace(v.namespace, source.pvc.value) then FailPatch else HotPatch(vm))
      else Goto(cr, th, if source.snapshot.Some? then HotDv(vm) else FailPatch)
  }

  function ProvisionedOrWait(cr: Cr, th: Thread, base: Vm, dv: DvPhase): Effect {
    if dv.DvSucceeded? then Goto(cr, th, HotPatch(base)) else Return(cr, Waiting(Provisioning, Some(5 * SECOND)))
  }

  /** handleWaitingForAttachmentPhase, behind its timeout and rate checks. */
  function MoveWait(c: Name, cr: Cr, th: Thread, v: View, x: Outcome): Effect {
    var st := cr.status;
    match th.pc
    case WaitVmi =>
      if x.SawVmi? then Goto(cr, th, WaitStamp(CheckAttachment(x.vmi, VolumeName(c)))) else Goto(cr, th, FailPatch)
    case WaitStamp(check) =>
      var now := Seconds(v.clock);
      var first := if cr.hist.firstAttachment.None? then Some(now) else cr.hist.firstAttachment;
      var stamped := cr.(status := st.(lastAttachment := Some(now)), hist := cr.hist.(firstAttachment := first, wake := None));
      if !x.Ok? then Return(if x.Lost? then stamped else cr, Error)
      else Goto(stamped, th,
                match check
                case NotYet => WaitRetry
                case NotHotplugged => FailPatch
                case Attached => if st.attachmentRetries > 0 then WaitReset else Advance(SshConnecting))
    case WaitRetry =>
      var retried := cr.(status := st.(attachmentRetries := st.attachmentRetries + 1));
      if x.Ok? then Return(retried, RequeueAfter(Backoff.Delay(Backoff.BASE_DELAY, st.attachmentRetries + 1) * SECOND))
      else Return(if x.Lost? then retried else cr, Error)
    case WaitReset =>
      Goto(if Applied(x) then cr.(status := st.(attachmentRetries := 0)) else cr, th, Advance(SshConnecting))
    case _ => Return(cr, Error)
  }

  /** handleSSHConnectingPhase, behind its timeout and rate checks. */
  function MoveSsh(cr: Cr, th: Thread, v: View, x: Outcome): Effect {
    var st := cr.status;
    match th.pc
    case SshStamp =>
      var now := Seconds(v.clock);
      var first := if cr.hist.firstSsh.None? then Some(now) else cr.hist.firstSsh;
      var stamped := cr.(status := st.(lastSsh := Some(now)), hist := cr.hist.(firstSsh := first, wake := None));
      if !x.Ok? then Return(if x.Lost? then stamped else cr, Error) else Goto(stamped, th, SshConnect)
    case SshConnect =>
      Goto(cr, th, if x.Refused? then SshRetry else if !x.Ok? then FailPatch
                   else if st.sshRetries > 0 then SshReset else Advance(Restoring))
    case SshRetry =>
      var retried := cr.(status := st.(sshRetries := st.sshRetries + 1));
      if x.Ok? then Return(retried, RequeueAfter(Backoff.Delay(Backoff.BASE_DELAY, st.sshRetries + 1) * SECOND))
      else Return(if x.Lost? then retried else cr, Error)
    case SshReset =>
      Goto(if Applied(x) then cr.(status := st.(sshRetries := 0)) else cr, th, Advance(Restoring))
    case _ => Return(cr, Error)
  }

  /** handleRestoringPhase: the guest command, then count and phase in one patch. */
  function MoveRestore(cr: Cr, th: Thread, x: Outcome): Effect {
    match th.pc
    case RestoreRun =>
      if x.Ran? then Goto(cr.(hist := cr.hist.(guestOk := true)), th, RestorePatch(x.stdout)) else Goto(cr, th, FailPatch)
    case RestorePatch(stdout) =>
      var restored := RestoredCr(cr, stdout);
      if x.Ok? then Return(restored, Requeue) else Return(if x.Lost? then restored else cr, Error)
    case _ => Return(cr, Error)
  }

  function RestoredCr(cr: Cr, stdout: string): Cr {
    if cr.spec.sourcePath == "" then cr.(status := cr.status.(phase := VolumeReady))
    else cr.(status := cr.status.(phase := Cleanup, count := Some(FileCount.ReportedCount(stdout))))
  }

  /** handleCleanupPhase and UnplugVolume. */
  function MoveDone(c: Name, cr: Cr, th: Thread, v: View, x: Outcome): Effect {
    var name := VolumeName(c);
    match th.pc
    case DoneGet =>
      if x.SawVm? then Goto(cr, th, DonePatch(x.vm))
      else if x.NotFound? && cr.status.count.Some? then Goto(cr, th.(vmGone := true), Advance(Succeeded))
      else Goto(cr, th, FailPatch)
    case DonePatch(base) =>
      if !v.vmThere then Goto(cr, th, FailPatch) else
      var next := Goto(cr, th, if !x.Ok? then FailPatch else if cr.spec.source.snapshot.Some? then DoneDv else DoneVmi);
      if Applied(x) then next.(patch := Some(VmPatch(base, Unplug(base, name)))) else next
    case DoneDv =>
      var next := Goto(cr, th, if x.Ok? then DoneVmi else FailPatch);
      if Applied(x) then next.(dv := DvDelete) else next
    case DoneVmi =>
      if x.SawVmi? && Lists(x.vmi, name) then Return(cr, Waiting(Detaching, Some(5 * SECOND)))
      else if x.SawVmi? || x.NotFound? then Goto(cr, th, Advance(Succeeded))
      else Goto(cr, th, FailPatch)
    case _ => Return(cr, Error)
  }

  /** cleanup: best effort, after a failure or on deletion. */
  function MoveClean(c: Name, cr: Cr, th: Thread, v: View, x: Outcome): Effect {
    match th.pc
    case CleanGuest => Goto(cr, th, CleanGet)
    case CleanGet =>
      if x.SawVm? then Goto(cr, th, CleanPatch(x.vm)) else AfterCleanup(cr, th.(clean := false))
    case CleanPatch(base) =>
      if !v.vmThere then AfterCleanup(cr, th.(clean := false)) else
      var next := if !x.Ok? then AfterCleanup(cr, th.(clean := false))
                  else if cr.spec.source.snapshot.Some? then Goto(cr, th, CleanDv)
                  else AfterCleanup(cr, th);
      if Applied(x) then next.(patch := Some(VmPatch(base, Unplug(base, VolumeName(c))))) else next
    case CleanDv =>
      var next := AfterCleanup(cr, if x.Ok? then th else th.(clean := false));
      if Applied(x) then next.(dv := DvDelete) else next
    case _ => Return(cr, Error)
  }

  function AfterCleanup(cr: Cr, th: Thread): Effect {
    if th.deletion then Goto(cr, th, Finalize(0)) else Return(cr, Finished)
  }

  /** One attempt of the finalizer loop: refetch (after the first), remove, update. */
  function MoveFinalize(cr: Cr, th: Thread, x: Outcome): Effect
    requires th.pc.Finalize?
  {
    var next := if x.Ok? then Return(cr, Finished)
                else if th.pc.attempt + 1 >= FINALIZER_ATTEMPTS then Return(cr, Error)
                else Goto(cr, th, Finalize(th.pc.attempt + 1));
    if Applied(x) then next.(cr := cr.(finalizer := false), gone := cr.deleting) else next
  }

  // ---------------------------------------------------------------------------
  // The cluster
  // ---------------------------------------------------------------------------

  /**
   `past` holds every version any VM ever had, keyed by name.  `excused` holds name and target
   of restores whose object went away although the last cleanup was not clean; `provisioned` the
   names whose current DataVolume has reached Succeeded at some time.
   */
  datatype World = World(
    namespace: string, clock: nat, crs: map<Name, Cr>, threads: map<Name, Thread>,
    vms: map<string, Vm>, past: set<(string, Vm)>, vmis: map<string, Vmi>, dvs: map<string, DvPhase>,
    excused: set<(Name, string)>, provisioned: set<string>)

  datatype Event =
    | Tick(elapsed: nat)
    | CreateCr(c: Name, spec: Spec)
    | DeleteCr(c: Name)
    | SetVm(target: string, vm: Vm)
    | DeleteVm(target: string)
    | SetVmi(target: string, vmi: Vmi)
    | DeleteVmi(target: string)
    | SetDv(name: string, phase: DvPhase)
    | Start(c: Name)
    | Act(c: Name, x: Outcome)

  function ViewOf(w: World, c: Name): View
    requires c in w.crs
  {
    View(w.namespace, w.clock, w.crs[c].spec.target in w.vms,
         if VolumeName(c) in w.dvs then Some(w.dvs[VolumeName(c)]) else None)
  }

  predicate ReadsVm(pc: Pc) { pc.HotGet? || pc.DoneGet? || pc.CleanGet? }

  /** A VM read returns some version that the VM had at some time. */
  predicate Possible(w: World, c: Name, x: Outcome)
    requires c in w.crs
  {
    x.SawVm? ==> (w.crs[c].spec.target, x.vm) in w.past
  }

  /** The requeue a finished reconcile asks for. */
  function Woken(cr: Cr, ret: Ret, clock: nat): Cr {
    match ret
    case Running => cr
    case RequeueAfter(delay) => cr.(hist := cr.hist.(wake := Some(clock + delay)))
    case Waiting(_, after) => cr.(hist := cr.hist.(wake := if after.Some? then Some(clock + after.value) else None))
    case _ => cr.(hist := cr.hist.(wake := None))
  }

  function Commit(w: World, c: Name, e: Effect, clean: bool): World
    requires c in w.crs
  {
    var target, name := w.crs[c].spec.target, VolumeName(c);
    var patched := e.patch.Some? && target in w.vms;
    var vm := if patched then MergePatch(w.vms[target], e.patch.value.base, e.patch.value.edited) else Vm([], []);
    World(
      w.namespace, w.clock,
      if e.gone then w.crs - {c} else w.crs[c := Woken(e.cr, e.ret, w.clock)],
      if e.thread.Some? then w.threads[c := e.thread.value] else w.threads - {c},
      if patched then w.vms[target := vm] else w.vms,
      if patched then w.past + {(target, vm)} else w.past,
      w.vmis,
      match e.dv case DvKeep => w.dvs case DvCreate => w.dvs[name := DvPending] case DvDelete => w.dvs - {name},
      if e.gone && !clean then w.excused + {(c, target)} else w.excused,
      if e.dv.DvCreate? then w.provisioned - {name} else w.provisioned)
  }

  /** The effect of the next call of c's reconcile, when there is one and its object exists. */
  function EffectOf(w: World, c: Name, x: Outcome): Effect
    requires c in w.crs && c in w.threads
  {
    Move(c, w.crs[c], w.threads[c], ViewOf(w, c), x)
  }

  function StepAct(w: World, c: Name, x: Outcome): World {
    if c !in w.threads then w
    else if x.Crash? then w.(threads := w.threads - {c})
    else if c !in w.crs then
      // The object vanished: the update of AddFinalizer or the refetch of the finalizer loop fails.
      var pc := w.threads[c].pc;
      if pc.Finalize? && pc.attempt + 1 < FINALIZER_ATTEMPTS
      then w.(threads := w.threads[c := w.threads[c].(pc := Finalize(pc.attempt + 1))])
      else w.(threads := w.threads - {c})
    else if !Possible(w, c, x) then w
    else Commit(w, c, EffectOf(w, c, x), w.threads[c].clean)
  }

  /** Others may edit a VM, as long as they leave the names reserved for restores alone. */
  predicate AllowedVm(w: World, target: string, vm: Vm) {
    if target in w.vms then
      && Restores(vm.volumes) == Restores(w.vms[target].volumes)
      && Restores(vm.disks) == Restores(w.vms[target].disks)
    else NoRestores(vm)
  }

  /** A VMI reports a restore volume only if it did before or the VM spec has it. */
  predicate AllowedVmi(w: World, target: string, vmi: Vmi) {
    forall i :: 0 <= i < |vmi.volumeStatus| && IsRestoreName(vmi.volumeStatus[i].name) ==>
      var name := vmi.volumeStatus[i].name;
      || (target in w.vmis && Lists(w.vmis[target], name))
      || (target in w.vms && Has(w.vms[target].volumes, name))
  }

  function Step(w: World, e: Event): World {
    match e
    case Tick(elapsed) => w.(clock := w.clock + elapsed)
    case CreateCr(c, spec) => if c in w.crs then w else w.(crs := w.crs[c := NewCr(spec)])
    case DeleteCr(c) =>
      if c !in w.crs then w
      else if w.crs[c].finalizer then w.(crs := w.crs[c := w.crs[c].(deleting := true)])
      else w.(crs := w.crs - {c})
    case SetVm(target, vm) =>
      if AllowedVm(w, target, vm) then w.(vms := w.vms[target := vm], past := w.past + {(target, vm)}) else w
    case DeleteVm(target) => w.(vms := w.vms - {target})
    case SetVmi(target, vmi) => if AllowedVmi(w, target, vmi) then w.(vmis := w.vmis[target := vmi]) else w
    case DeleteVmi(target) => w.(vmis := w.vmis - {target})
    case SetDv(name, phase) =>
      if name !in w.dvs then w
      else w.(dvs := w.dvs[name := phase], provisioned := if phase.DvSucceeded? then w.provisioned + {name} else w.provisioned)
    case Start(c) =>
      if c in w.threads || c !in w.crs then w else Commit(w, c, Dispatch(w.crs[c], ViewOf(w, c)), true)
    case Act(c, x) => StepAct(w, c, x)
  }

  // ---------------------------------------------------------------------------
  // Runs
  // ---------------------------------------------------------------------------

  function Exec(w: World, events: seq<Event>): World {
    if events == [] then w else Step(Exec(w, events[..|events| - 1]), events[|events| - 1])
  }

  lemma ExecSnoc(w: World, events: seq<Event>, e: Event)
    ensures Exec(w, events + [e]) == Step(Exec(w, events), e)
  {
  }

  /** No restores yet, and no VM uses a reserved name. */
  ghost predicate Initial(w: World) {
    && w.crs == map[] && w.threads == map[] && w.dvs == map[] && w.excused == {} && w.provisioned == {}
    && w.past == (set t | t in w.vms :: (t, w.vms[t]))
    && (forall t :: t in w.vms ==> NoRestores(w.vms[t]))
    && (forall t :: t in w.vmis ==> AllowedVmi(w.(vmis := map[]), t, w.vmis[t]))
  }

  /** Every step of the run satisfies the rule in the state it is taken in. */
  predicate Obeys(w: World, events: seq<Event>, rule: (World, Event) -> bool) {
    events == [] || (Obeys(w, events[..|events| - 1], rule) && rule(Exec(w, events[..|events| - 1]), events[|events| - 1]))
  }

  /** Reads return the state of the moment: VM and VMI reads are not stale. */
  predicate FreshRead(w: World, e: Event) {
    e.Act? && e.c in w.threads && e.c in w.crs ==>
      var pc, target := w.threads[e.c].pc, w.crs[e.c].spec.target;
      && (e.x.SawVm? ==> target in w.vms && w.vms[target] == e.x.vm)
      && (e.x.NotFound? && ReadsVm(pc) ==> target !in w.vms)
      && (pc.DoneVmi? && e.x.SawVmi? ==> target in w.vmis && w.vmis[target] == e.x.vmi)
      && (pc.DoneVmi? && e.x.NotFound? ==> target !in w.vmis)
  }

  /** No VM write slips in between a restore's VM read and the patch computed from it. */
  predicate AtomicPatch(w: World, e: Event) {
    e.Act? && e.c in w.threads && e.c in w.crs && Applied(e.x) ==>
      var pc, target := w.threads[e.c].pc, w.crs[e.c].spec.target;
      (pc.HotPatch? || pc.CleanPatch? || pc.DonePatch?) ==> target in w.vms && w.vms[target] == pc.base
  }

  /** A restore of that name went away without a clean cleanup, whatever its target. */
  predicate Leaked(w: World, c: Name) { exists p :: p in w.excused && p.0 == c }

  /** Nobody deletes a VM. */
  predicate KeepsVms(w: World, e: Event) { !e.DeleteVm? }
}
