/** What each call of a reconcile asks for, and that its effect is what was asked for. */
module RestoreRequests {
  import opened Text
  import opened VmSpec
  import opened GuestOs
  import opened RestoreModel
  import FileCount

  datatype Request =
    | SetFinalizer(present: bool)
    | SetStatus(status: Status)
    | ReadVm | ReadVmi | ReadDv(name: string)
    | EditVm(base: Vm, edited: Vm)
    | CreateDv(name: string) | DeleteDv(name: string)
    | DialGuest
    | GuestRestore(volumeName: string, mountPath: string, sourcePath: string)
    | GuestCleanup(mountPath: string)

  /** The request of the call a reconcile is about to make. */
  function RequestAt(c: Name, cr: Cr, th: Thread, clock: nat): Request {
    var st, name := cr.status, VolumeName(c);
    match th.pc
    case AddFinalizer => SetFinalizer(true)
    case InitRead => ReadVmi
    case InitMount(path) => SetStatus(st.(mountPath := path))
    case Advance(to) => SetStatus(Advanced(cr, to, th.vmGone, clock).status)
    case FailPatch => SetStatus(FailedCr(cr, clock).status)
    case CleanGuest => GuestCleanup(st.mountPath)
    case CleanGet => ReadVm
    case CleanPatch(base) => EditVm(base, Unplug(base, name))
    case CleanDv => DeleteDv(name)
    case Finalize(_) => SetFinalizer(false)
    case HotGet => ReadVm
    case HotDv(_) => ReadDv(name)
    case HotCreate(_) => CreateDv(name)
    case HotReget(_) => ReadDv(name)
    case HotPatch(base) => EditVm(base, Plug(base, name, ClaimName(c, cr.spec.source)))
    case WaitVmi => ReadVmi
    case WaitStamp(_) => SetStatus(st.(lastAttachment := Some(Seconds(clock))))
    case WaitRetry => SetStatus(st.(attachmentRetries := st.attachmentRetries + 1))
    case WaitReset => SetStatus(st.(attachmentRetries := 0))
    case SshStamp => SetStatus(st.(lastSsh := Some(Seconds(clock))))
    case SshConnect => DialGuest
    case SshRetry => SetStatus(st.(sshRetries := st.sshRetries + 1))
    case SshReset => SetStatus(st.(sshRetries := 0))
    case RestoreRun => GuestRestore(name, st.mountPath, cr.spec.sourcePath)
    case RestorePatch(stdout) => SetStatus(RestoredCr(cr, stdout).status)
    case DoneGet => ReadVm
    case DonePatch(base) => EditVm(base, Unplug(base, name))
    case DoneDv => DeleteDv(name)
    case DoneVmi => ReadVmi
  }

  /** A call changes what its request names, when it takes effect, and nothing else. */
  predicate Honours(cr: Cr, v: View, q: Request, x: Outcome, e: Effect) {
    && e.cr.spec == cr.spec && e.cr.deleting == cr.deleting
    && e.cr.status == (if q.SetStatus? && Applied(x) then q.status else cr.status)
    && e.cr.finalizer == (if q.SetFinalizer? && Applied(x) then q.present else cr.finalizer)
    && e.patch == (if q.EditVm? && Applied(x) && v.vmThere then Some(VmPatch(q.base, q.edited)) else None)
    && e.dv == (if q.CreateDv? && Applied(x) && v.dv.None? then DvCreate
                else if q.DeleteDv? && Applied(x) then DvDelete else DvKeep)
  }

  lemma EarlyHonours(c: Name, cr: Cr, th: Thread, v: View, x: Outcome)
    requires th.pc.AddFinalizer? || th.pc.InitRead? || th.pc.InitMount? || th.pc.Advance? || th.pc.FailPatch? || th.pc.Finalize?
    ensures Honours(cr, v, RequestAt(c, cr, th, v.clock), x, Move(c, cr, th, v, x))
  {
    hide VolumeName, MountPath, DetectGuestOs, MoveHot, MoveWait, MoveSsh, MoveRestore, MoveDone, MoveClean;
  }

  lemma HotHonours(c: Name, cr: Cr, th: Thread, v: View, x: Outcome)
    requires th.pc.HotGet? || th.pc.HotDv? || th.pc.HotCreate? || th.pc.HotReget? || th.pc.HotPatch?
    ensures Honours(cr, v, RequestAt(c, cr, th, v.clock), x, Move(c, cr, th, v, x))
  {
    hide VolumeName, PlugVerdict, Plug, ClaimName, MoveInit, MoveWait, MoveSsh, MoveRestore, MoveDone, MoveClean;
  }

  lemma ChecksHonour(c: Name, cr: Cr, th: Thread, v: View, x: Outcome)
    requires th.pc.WaitVmi? || th.pc.WaitStamp? || th.pc.WaitRetry? || th.pc.WaitReset?
             || th.pc.SshStamp? || th.pc.SshConnect? || th.pc.SshRetry? || th.pc.SshReset?
    ensures Honours(cr, v, RequestAt(c, cr, th, v.clock), x, Move(c, cr, th, v, x))
  {
    hide VolumeName, CheckAttachment, MoveInit, MoveHot, MoveRestore, MoveDone, MoveClean;
  }

  lemma LateHonours(c: Name, cr: Cr, th: Thread, v: View, x: Outcome)
    requires th.pc.RestoreRun? || th.pc.RestorePatch? || th.pc.DoneGet? || th.pc.DonePatch? || th.pc.DoneDv? || th.pc.DoneVmi?
             || th.pc.CleanGuest? || th.pc.CleanGet? || th.pc.CleanPatch? || th.pc.CleanDv?
    ensures Honours(cr, v, RequestAt(c, cr, th, v.clock), x, Move(c, cr, th, v, x))
  {
    hide VolumeName, Unplug, Lists, FileCount.ReportedCount, MoveInit, MoveHot, MoveWait, MoveSsh;
  }

  /** Every call of every reconcile does what it asks for, when it takes effect, and nothing else. */
  lemma RequestsAreHonoured(c: Name, cr: Cr, th: Thread, v: View, x: Outcome)
    ensures Honours(cr, v, RequestAt(c, cr, th, v.clock), x, Move(c, cr, th, v, x))
  {
    hide Honours, RequestAt, Move;
    match th.pc
    case AddFinalizer => EarlyHonours(c, cr, th, v, x);
    case InitRead => EarlyHonours(c, cr, th, v, x);
    case InitMount(_) => EarlyHonours(c, cr, th, v, x);
    case Advance(_) => EarlyHonours(c, cr, th, v, x);
    case FailPatch => EarlyHonours(c, cr, th, v, x);
    case Finalize(_) => EarlyHonours(c, cr, th, v, x);
    case HotGet => HotHonours(c, cr, th, v, x);
    case HotDv(_) => HotHonours(c, cr, th, v, x);
    case HotCreate(_) => HotHonours(c, cr, th, v, x);
    case HotReget(_) => HotHonours(c, cr, th, v, x);
    case HotPatch(_) => HotHonours(c, cr, th, v, x);
    case RestoreRun => LateHonours(c, cr, th, v, x);
    case RestorePatch(_) => LateHonours(c, cr, th, v, x);
    case DoneGet => LateHonours(c, cr, th, v, x);
    case DonePatch(_) => LateHonours(c, cr, th, v, x);
    case DoneDv => LateHonours(c, cr, th, v, x);
    case DoneVmi => LateHonours(c, cr, th, v, x);
    case CleanGuest => LateHonours(c, cr, th, v, x);
    case CleanGet => LateHonours(c, cr, th, v, x);
    case CleanPatch(_) => LateHonours(c, cr, th, v, x);
    case CleanDv => LateHonours(c, cr, th, v, x);
    case _ => ChecksHonour(c, cr, th, v, x);
  }
}
