/**
 Why a restore is where it is: in every reachable state the persisted status follows from what its
 own calls were told since the object was created.  Facts are read off the run, not off the machine's
 own records.
 */
module RestoreDecisions {
  import opened Text
  import opened VmSpec
  import opened GuestOs
  import opened RestoreModel
  import opened RestoreStatus
  import opened RestoreProgress
  import opened RestoreRuns
  import opened RestoreVms
  import opened RestoreRequests
  import Backoff
  import FileCount

  // ---------------------------------------------------------------------------
  // What answers mean
  // ---------------------------------------------------------------------------

  ghost predicate FirstNamed(vmi: Vmi, name: string, i: nat) {
    && i < |vmi.volumeStatus| && vmi.volumeStatus[i].name == name
    && forall j :: 0 <= j < i ==> vmi.volumeStatus[j].name != name
  }

  /** The first status of that name is ready and has a target. */
  ghost predicate BoundAt(vmi: Vmi, name: string, i: nat) {
    FirstNamed(vmi, name, i) && vmi.volumeStatus[i].ready && vmi.volumeStatus[i].target != ""
  }
  ghost predicate AttachedIn(vmi: Vmi, name: string) { exists i: nat :: BoundAt(vmi, name, i) && vmi.volumeStatus[i].hotplug }
  ghost predicate NotHotpluggedIn(vmi: Vmi, name: string) { exists i: nat :: BoundAt(vmi, name, i) && !vmi.volumeStatus[i].hotplug }

  lemma {:induction false} FindMeans(vs: seq<VolumeStatus>, name: string)
    ensures var f := FindStatus(vs, name);
            && (f.None? ==> forall i :: 0 <= i < |vs| ==> vs[i].name != name)
            && (f.Some? ==> exists i: nat :: i < |vs| && vs[i] == f.value && vs[i].name == name && forall j :: 0 <= j < i ==> vs[j].name != name)
  {
    if vs != [] && vs[0].name != name {
      FindMeans(vs[1..], name);
      if FindStatus(vs, name).Some? {
        var i: nat :| i < |vs| - 1 && vs[1..][i] == FindStatus(vs, name).value && vs[1..][i].name == name && forall j :: 0 <= j < i ==> vs[1..][j].name != name;
        assert vs[i + 1] == vs[1..][i];
        forall j | 0 <= j < i + 1 ensures vs[j].name != name { if j > 0 { assert vs[j] == vs[1..][j - 1]; } }
      } else {
        forall i | 0 <= i < |vs| ensures vs[i].name != name { if i > 0 { assert vs[i] == vs[1..][i - 1]; } }
      }
    }
  }

  lemma OneFirst(vmi: Vmi, name: string, i: nat, k: nat)
    requires FirstNamed(vmi, name, i) && FirstNamed(vmi, name, k)
    ensures i == k
  {
    assert !(i < k) && !(k < i);
  }

  /** The attachment check in terms of the list it reads. */
  lemma CheckMeans(vmi: Vmi, name: string)
    ensures CheckAttachment(vmi, name).Attached? <==> AttachedIn(vmi, name)
    ensures CheckAttachment(vmi, name).NotHotplugged? <==> NotHotpluggedIn(vmi, name)
  {
    hide FindStatus;
    FindMeans(vmi.volumeStatus, name);
    var f := FindStatus(vmi.volumeStatus, name);
    if f.Some? {
      var i: nat :| i < |vmi.volumeStatus| && vmi.volumeStatus[i] == f.value && FirstNamed(vmi, name, i);
      forall k: nat | FirstNamed(vmi, name, k) ensures k == i { OneFirst(vmi, name, i, k); }
      if f.value.ready && f.value.target != "" { assert BoundAt(vmi, name, i); }
    }
  }

  /** n is what the first counting line of the output says, 0 for a negative number or no such line. */
  ghost predicate CountOf(stdout: string, n: int) {
    var ls := FileCount.Lines(stdout);
    || (n == 0 && forall i :: 0 <= i < |ls| ==> FileCount.LineCount(ls[i]).None?)
    || exists i :: FirstCounting(ls, i) && n == Backoff.Max(0, FileCount.LineCount(ls[i]).value)
  }

  ghost predicate FirstCounting(ls: seq<string>, i: int) {
    && 0 <= i < |ls| && FileCount.LineCount(ls[i]).Some?
    && forall j :: 0 <= j < i ==> FileCount.LineCount(ls[j]).None?
  }

  lemma {:induction false} FirstCountMeans(ls: seq<string>)
    ensures (forall i :: 0 <= i < |ls| ==> FileCount.LineCount(ls[i]).None?) || exists i :: FirstCounting(ls, i)
  {
    hide FileCount.LineCount;
    if ls != [] {
      var n := |ls| - 1;
      FirstCountMeans(ls[..n]);
      if i :| FirstCounting(ls[..n], i) {
        assert FirstCounting(ls, i) by { forall j | 0 <= j < i ensures FileCount.LineCount(ls[j]).None? { assert ls[..n][j] == ls[j]; } }
      } else {
        forall j | 0 <= j < n ensures FileCount.LineCount(ls[j]).None? { assert ls[..n][j] == ls[j]; }
        if FileCount.LineCount(ls[n]).Some? { assert FirstCounting(ls, n); }
      }
    }
  }

  lemma ReportedIsCountOf(stdout: string)
    ensures CountOf(stdout, FileCount.ReportedCount(stdout))
  {
    hide FileCount.LineCount, FileCount.Lines;
    var ls := FileCount.Lines(stdout);
    FirstCountMeans(ls);
    if i :| FirstCounting(ls, i) {
      FileCount.FirstCountIsFirst(ls, i);
    } else {
      FileCount.NoCountAtAll(ls);
    }
  }

  lemma CountIsOne(stdout: string, n: int, m: int)
    requires CountOf(stdout, n) && CountOf(stdout, m)
    ensures n == m
  {
    hide FileCount.LineCount, FileCount.Lines;
  }

  /** A source that can be restored: one PVC or one snapshot. */
  ghost predicate Usable(s: Source) { (s.pvc.Some? <==> s.snapshot.None?) && !s.remote }

  /** The mount path of a usable source on the guest the VMI describes. */
  ghost predicate PathFor(path: string, vmi: Vmi, s: Source) {
    path == (if WindowsGuest(vmi) then "C:\\backup-" else "/backup-")
            + (if s.pvc.Some? then s.pvc.value.name else if s.snapshot.Some? then s.snapshot.value.name else "")
  }

  lemma PathIsFor(c: Name, vmi: Vmi, s: Source)
    requires Usable(s)
    ensures PathFor(MountPath(DetectGuestOs(vmi), SourceName(c, s)), vmi, s)
  {
    hide DetectGuestOs, WindowsGuest;
    DetectMeans(vmi);
    assert "C:\\backup" + "-" == "C:\\backup-" && "/backup" + "-" == "/backup-";
  }

  // ---------------------------------------------------------------------------
  // Facts of a run
  // ---------------------------------------------------------------------------

  /** The delays, in nanoseconds, that retries asked for since the counter was 0, and that no answer to a retry was lost. */
  datatype Waits = Waits(total: int, whole: bool)

  /**
   What restore c was told since it was created: the last VMI read before the hotplug, the last one
   read by an attachment check, the last dial, the output of the last guest command; whether one of
   the reasons to fail has occurred; and what it has asked to wait for.
   */
  datatype Facts = Facts(init: Option<Vmi>, attach: Option<Vmi>, dial: Option<Outcome>, stdout: Option<string>,
                         failure: bool, attachWaits: Waits, sshWaits: Waits)

  const NoFacts: Facts := Facts(None, None, None, None, false, Waits(0, true), Waits(0, true))

  ghost function Heard(phase: Phase, q: Request, x: Outcome, f: Facts): Facts {
    if q.ReadVmi? && phase.Unset? && x.SawVmi? then f.(init := Some(x.vmi))
    else if q.ReadVmi? && phase.WaitingForAttachment? then f.(attach := if x.SawVmi? then Some(x.vmi) else None)
    else if q.DialGuest? then f.(dial := Some(x))
    else if q.GuestRestore? then f.(stdout := if x.Ran? then Some(x.stdout) else None)
    else f
  }

  /** The reasons to fail before the first call of a reconcile. */
  ghost predicate FailsAtOnce(cr: Cr) {
    || (cr.status.phase.Unset? && !(SourceCount(cr.spec.source) == 1))
    || (cr.status.phase.WaitingForAttachment? && cr.status.attachmentRetries >= 60)
    || (cr.status.phase.SshConnecting? && cr.status.sshRetries >= 24)
  }

  ghost predicate OtherRestoreIn(vm: Vm, name: string) {
    exists i :: 0 <= i < |vm.volumes| && IsRestoreName(vm.volumes[i].name) && vm.volumes[i].name != name
  }

  /** The reasons to fail behind a call: what was asked for in which phase, and what came back. */
  ghost predicate FailsBehind(c: Name, cr: Cr, q: Request, again: bool, v: View, x: Outcome) {
    match cr.status.phase
    case Unset => q.ReadVmi? && (!x.SawVmi? || cr.spec.source.remote)
    case Hotplugging =>
      || (q.ReadVm? && (!x.SawVm? || OtherRestoreIn(x.vm, VolumeName(c))
                        || (cr.spec.source.pvc.Some? && CrossNamespace(v.namespace, cr.spec.source.pvc.value))))
      || (q.ReadDv? && (!x.Ok? || (again && v.dv.None?)))
      || (q.CreateDv? && !x.Ok?)
      || (q.EditVm? && (!x.Ok? || !v.vmThere))
    case WaitingForAttachment => q.ReadVmi? && (!x.SawVmi? || NotHotpluggedIn(x.vmi, VolumeName(c)))
    case SshConnecting => q.DialGuest? && !x.Ok? && !x.Refused?
    case Restoring => q.GuestRestore? && !x.Ran?
    case Cleanup =>
      || (q.ReadVm? && !x.SawVm? && !x.NotFound?)
      || (q.EditVm? && (!x.Ok? || !v.vmThere))
      || (q.DeleteDv? && !x.Ok?)
      || (q.ReadVmi? && !x.SawVmi? && !x.NotFound?)
    case _ => false
  }

  ghost function Waited(ws: Waits, before: int, after: int, wake: Option<nat>, clock: nat): Waits {
    if after == before then ws
    else if after == 0 then Waits(0, true)
    else if wake.Some? then Waits(ws.total + wake.value - clock, ws.whole)
    else ws.(whole := false)
  }

  /** What a call of c's reconcile adds; `after` is the object behind it. */
  ghost function LearnCall(c: Name, cr: Cr, th: Thread, v: View, x: Outcome, after: Cr, f: Facts): Facts {
    var q := RequestAt(c, cr, th, v.clock);
    var g := if th.deletion then f else Heard(cr.status.phase, q, x, f);
    var fails := !th.deletion && FailsBehind(c, cr, q, th.pc.HotReget?, v, x);
    g.(failure := f.failure || fails,
       attachWaits := Waited(f.attachWaits, cr.status.attachmentRetries, after.status.attachmentRetries, after.hist.wake, v.clock),
       sshWaits := Waited(f.sshWaits, cr.status.sshRetries, after.status.sshRetries, after.hist.wake, v.clock))
  }

  ghost function Learn(w: World, e: Event, c: Name, f: Facts): Facts {
    var w' := Step(w, e);
    if c !in w'.crs || c !in w.crs then NoFacts
    else if e == Start(c) && c !in w.threads then
      f.(failure := f.failure || (w.crs[c].finalizer && !w.crs[c].deleting && FailsAtOnce(w.crs[c])))
    else if e.Act? && e.c == c && c in w.threads && !e.x.Crash? && Possible(w, c, e.x) then
      LearnCall(c, w.crs[c], w.threads[c], ViewOf(w, c), e.x, w'.crs[c], f)
    else f
  }

  ghost function Known(w: World, events: seq<Event>, c: Name): Facts {
    if events == [] then NoFacts
    else
      var before := events[..|events| - 1];
      Learn(Exec(w, before), events[|events| - 1], c, Known(w, before, c))
  }

  // ---------------------------------------------------------------------------
  // The status and the next call follow from the facts
  // ---------------------------------------------------------------------------

  ghost predicate PastInit(p: Phase) { Started(p) }
  ghost predicate PastAttachment(p: Phase) { p.SshConnecting? || p.Restoring? || p.VolumeReady? || p.Cleanup? || p.Succeeded? }
  ghost predicate PastDial(p: Phase) { p.Restoring? || p.VolumeReady? || p.Cleanup? || p.Succeeded? }
  ghost predicate PastGuest(p: Phase) { p.VolumeReady? || p.Cleanup? || p.Succeeded? }

  ghost predicate Attached(c: Name, seen: Option<Vmi>) { seen.Some? && AttachedIn(seen.value, VolumeName(c)) }
  ghost predicate Pending(c: Name, seen: Option<Vmi>) {
    seen.Some? && !AttachedIn(seen.value, VolumeName(c)) && !NotHotpluggedIn(seen.value, VolumeName(c))
  }
  ghost predicate Mounted(s: Source, path: string, seen: Option<Vmi>) {
    Usable(s) && seen.Some? && PathFor(path, seen.value, s)
  }

  /** What n retries waited for, unless an answer was lost. */
  ghost predicate WaitsFor(ws: Waits, n: int) {
    && n >= 0 && 0 <= ws.total <= Backoff.Schedule(n) * SECOND
    && (ws.whole ==> ws.total == Backoff.Schedule(n) * SECOND)
  }

  ghost predicate StatusDecided(c: Name, s: Source, st: Status, f: Facts) {
    && (Started(st.phase) ==> Mounted(s, st.mountPath, f.init))
    && (PastAttachment(st.phase) ==> Attached(c, f.attach))
    && (PastDial(st.phase) ==> f.dial == Some(Ok))
    && (PastGuest(st.phase) ==> f.stdout.Some?)
    && (st.phase.Cleanup? || st.phase.Succeeded? ==> st.count.Some? && CountOf(f.stdout.value, st.count.value))
    && (st.phase.Failed? ==> f.failure)
    && WaitsFor(f.attachWaits, st.attachmentRetries) && WaitsFor(f.sshWaits, st.sshRetries)
  }

  ghost predicate PcDecided(c: Name, namespace: string, s: Source, path: string, pc: Pc, f: Facts) {
    match pc
    case InitRead => SourceCount(s) == 1
    case InitMount(to) => Mounted(s, to, f.init)
    case Advance(to) => (to.Hotplugging? ==> Mounted(s, path, f.init)) && (to.SshConnecting? ==> Attached(c, f.attach)) && (to.Restoring? ==> f.dial == Some(Ok))
    case FailPatch => f.failure
    case CleanGuest => f.failure
    case CleanGet => f.failure
    case CleanPatch(_) => f.failure
    case CleanDv => f.failure
    case HotPatch(_) => s.pvc.Some? ==> !CrossNamespace(namespace, s.pvc.value)
    case WaitStamp(check) => f.attach.Some? && (check.Attached? <==> Attached(c, f.attach)) && (check.NotYet? <==> Pending(c, f.attach)) && (check.NotHotplugged? ==> f.failure)
    case WaitRetry => Pending(c, f.attach)
    case WaitReset => Attached(c, f.attach)
    case SshRetry => f.dial == Some(Refused)
    case SshReset => f.dial == Some(Ok)
    case RestorePatch(stdout) => f.stdout == Some(stdout)
    case _ => true
  }

  ghost predicate Decided(w: World, c: Name, f: Facts) {
    c in w.crs ==>
      && StatusDecided(c, w.crs[c].spec.source, w.crs[c].status, f)
      && (c in w.threads && !w.threads[c].deletion ==> PcDecided(c, w.namespace, w.crs[c].spec.source, w.crs[c].status.mountPath, w.threads[c].pc, f))
  }

  // ---------------------------------------------------------------------------
  // Every call keeps that
  // ---------------------------------------------------------------------------

  ghost predicate EffectDecided(c: Name, cr: Cr, th: Thread, v: View, x: Outcome, f: Facts, e: Effect) {
    var g := LearnCall(c, cr, th, v, x, Woken(e.cr, e.ret, v.clock), f);
    && StatusDecided(c, cr.spec.source, e.cr.status, g)
    && (e.thread.Some? && !e.thread.value.deletion ==> PcDecided(c, v.namespace, cr.spec.source, e.cr.status.mountPath, e.thread.value.pc, g))
  }

  /** What a call starts from. */
  ghost predicate CallDecided(c: Name, cr: Cr, th: Thread, v: View, f: Facts) {
    && StatusOk(cr, v.clock) && ThreadOk(cr, th, v.clock) && StatusDecided(c, cr.spec.source, cr.status, f)
    && (!th.deletion ==> PcDecided(c, v.namespace, cr.spec.source, cr.status.mountPath, th.pc, f))
  }

  /** A call that tells nothing new and writes nothing adds at most a reason to fail. */
  lemma QuietLearns(c: Name, cr: Cr, th: Thread, v: View, x: Outcome, after: Cr, f: Facts)
    requires after.status == cr.status
    requires th.deletion || Heard(cr.status.phase, RequestAt(c, cr, th, v.clock), x, f) == f
    requires StatusDecided(c, cr.spec.source, cr.status, f)
    ensures var fails := !th.deletion && FailsBehind(c, cr, RequestAt(c, cr, th, v.clock), th.pc.HotReget?, v, x);
            var g := LearnCall(c, cr, th, v, x, after, f);
            g == f.(failure := f.failure || fails) && StatusDecided(c, cr.spec.source, cr.status, g)
  {
    hide RequestAt, FailsBehind, Mounted, CountOf, AttachedIn, NotHotpluggedIn, Heard, WaitsFor;
  }

  lemma DeletionDecides(c: Name, cr: Cr, th: Thread, v: View, x: Outcome, f: Facts)
    requires CallDecided(c, cr, th, v, f) && th.deletion
    ensures EffectDecided(c, cr, th, v, x, f, Move(c, cr, th, v, x))
  {
    hide Move, StatusDecided, LearnCall, StatusOk, ThreadOk;
    var e := Move(c, cr, th, v, x);
    assert Cleaning(th.pc) || th.pc.Finalize? by { DeletionCalls(cr, th, v.clock); }
    DeletionMoves(c, cr, th, v, x);
    QuietLearns(c, cr, th, v, x, Woken(e.cr, e.ret, v.clock), f);
  }

  lemma DeletionCalls(cr: Cr, th: Thread, clock: nat)
    requires ThreadOk(cr, th, clock) && th.deletion
    ensures Cleaning(th.pc) || th.pc.Finalize?
  {
  }

  lemma DeletionMoves(c: Name, cr: Cr, th: Thread, v: View, x: Outcome)
    requires (Cleaning(th.pc) || th.pc.Finalize?) && th.deletion
    ensures var e := Move(c, cr, th, v, x); e.cr.status == cr.status && (e.thread.Some? ==> e.thread.value.deletion)
  {
    hide VolumeName, Unplug, MoveInit, MoveHot, MoveWait, MoveSsh, MoveRestore, MoveDone;
  }

  lemma InitDecides(c: Name, cr: Cr, th: Thread, v: View, x: Outcome, f: Facts)
    requires CallDecided(c, cr, th, v, f) && !th.deletion && (th.pc.InitRead? || th.pc.InitMount? || th.pc.AddFinalizer?)
    ensures EffectDecided(c, cr, th, v, x, f, Move(c, cr, th, v, x))
  {
    hide VolumeName, MountPath, DetectGuestOs, PathFor, SourceName, ClockOk, WaitsFor, Attached, CountOf, MoveHot, MoveWait, MoveSsh, MoveRestore, MoveDone, MoveClean;
    if th.pc.InitRead? && x.SawVmi? && Usable(cr.spec.source) { PathIsFor(c, x.vmi, cr.spec.source); }
  }

  lemma PatchDecides(c: Name, cr: Cr, th: Thread, v: View, x: Outcome, f: Facts)
    requires CallDecided(c, cr, th, v, f) && !th.deletion && (th.pc.Advance? || th.pc.FailPatch?)
    ensures EffectDecided(c, cr, th, v, x, f, Move(c, cr, th, v, x))
  {
    hide VolumeName, Mounted, ClockOk, WaitsFor, Attached, CountOf, MoveInit, MoveHot, MoveWait, MoveSsh, MoveRestore, MoveDone, MoveClean;
  }

  lemma CleanDecides(c: Name, cr: Cr, th: Thread, v: View, x: Outcome, f: Facts)
    requires CallDecided(c, cr, th, v, f) && !th.deletion && Cleaning(th.pc)
    ensures EffectDecided(c, cr, th, v, x, f, Move(c, cr, th, v, x))
  {
    hide Move, StatusDecided, LearnCall, StatusOk, ThreadOk, FailsBehind;
    var e := Move(c, cr, th, v, x);
    CleanMoves(c, cr, th, v, x);
    QuietLearns(c, cr, th, v, x, Woken(e.cr, e.ret, v.clock), f);
  }

  lemma CleanMoves(c: Name, cr: Cr, th: Thread, v: View, x: Outcome)
    requires Cleaning(th.pc) && !th.deletion
    ensures var e := Move(c, cr, th, v, x); e.cr.status == cr.status && (e.thread.Some? ==> Cleaning(e.thread.value.pc))
  {
    hide VolumeName, Unplug, MoveInit, MoveHot, MoveWait, MoveSsh, MoveRestore, MoveDone;
  }

  /** A call that writes no status and tells nothing new leads to a call in line with the facts. */
  ghost predicate LeadsOn(c: Name, cr: Cr, th: Thread, v: View, x: Outcome, f: Facts, e: Effect) {
    && e.cr.status == cr.status && Heard(cr.status.phase, RequestAt(c, cr, th, v.clock), x, f) == f
    && (e.thread.Some? ==>
          PcDecided(c, v.namespace, cr.spec.source, cr.status.mountPath, e.thread.value.pc,
                    f.(failure := f.failure || FailsBehind(c, cr, RequestAt(c, cr, th, v.clock), th.pc.HotReget?, v, x))))
  }

  /** What a scan or a provisioning call leads to. */
  lemma HotDecides(c: Name, cr: Cr, th: Thread, v: View, x: Outcome, f: Facts)
    requires CallDecided(c, cr, th, v, f) && !th.deletion && (th.pc.HotGet? || Hot(th.pc))
    requires th.pc.HotGet? && x.SawVm? ==> PlugVerdict(x.vm, VolumeName(c)) != Partial
    ensures EffectDecided(c, cr, th, v, x, f, Move(c, cr, th, v, x))
  {
    hide Move, StatusDecided, LearnCall, StatusOk, VolumeName, PlugVerdict, FailsBehind;
    var e := Move(c, cr, th, v, x);
    if th.pc.HotGet? { ScanMoves(c, cr, th, v, x, f); } else { HotMoves(c, cr, th, v, x, f); }
    QuietLearns(c, cr, th, v, x, Woken(e.cr, e.ret, v.clock), f);
  }

  lemma ScanMoves(c: Name, cr: Cr, th: Thread, v: View, x: Outcome, f: Facts)
    requires th.pc.HotGet? && cr.status.phase.Hotplugging? && StatusDecided(c, cr.spec.source, cr.status, f)
    requires x.SawVm? ==> PlugVerdict(x.vm, VolumeName(c)) != Partial
    ensures LeadsOn(c, cr, th, v, x, f, Move(c, cr, th, v, x))
  {
    hide VolumeName, Plug, PathFor, WaitsFor, AttachedIn, CountOf, MoveInit, MoveWait, MoveSsh, MoveRestore, MoveDone, MoveClean;
  }

  lemma HotMoves(c: Name, cr: Cr, th: Thread, v: View, x: Outcome, f: Facts)
    requires Hot(th.pc) && cr.status.phase.Hotplugging? && StatusDecided(c, cr.spec.source, cr.status, f)
    requires PcDecided(c, v.namespace, cr.spec.source, cr.status.mountPath, th.pc, f)
    requires th.pc.HotPatch? || cr.spec.source.snapshot.Some?
    ensures LeadsOn(c, cr, th, v, x, f, Move(c, cr, th, v, x))
  {
    hide LeadsOn, Move, StatusDecided, PcDecided;
    if th.pc.HotPatch? { HotPatchMoves(c, cr, th, v, x, f); } else { assert cr.spec.source.pvc.None? by { OneOfTwo(c, cr, f); } DvMoves(c, cr, th, v, x, f); }
  }

  lemma OneOfTwo(c: Name, cr: Cr, f: Facts)
    requires cr.status.phase.Hotplugging? && StatusDecided(c, cr.spec.source, cr.status, f) && cr.spec.source.snapshot.Some?
    ensures cr.spec.source.pvc.None?
  {
  }

  lemma HotPatchMoves(c: Name, cr: Cr, th: Thread, v: View, x: Outcome, f: Facts)
    requires th.pc.HotPatch? && cr.status.phase.Hotplugging?
    ensures LeadsOn(c, cr, th, v, x, f, Move(c, cr, th, v, x))
  {
    hide VolumeName, Plug, ClaimName, Mounted, Attached, MoveInit, MoveWait, MoveSsh, MoveRestore, MoveDone, MoveClean;
  }

  lemma DvMoves(c: Name, cr: Cr, th: Thread, v: View, x: Outcome, f: Facts)
    requires (th.pc.HotDv? || th.pc.HotCreate? || th.pc.HotReget?) && cr.status.phase.Hotplugging? && cr.spec.source.pvc.None?
    ensures LeadsOn(c, cr, th, v, x, f, Move(c, cr, th, v, x))
  {
    hide VolumeName, Plug, ClaimName, Mounted, Attached, MoveInit, MoveWait, MoveSsh, MoveRestore, MoveDone, MoveClean;
  }

  lemma WaitVmiDecides(c: Name, cr: Cr, th: Thread, v: View, x: Outcome, f: Facts)
    requires CallDecided(c, cr, th, v, f) && !th.deletion && th.pc.WaitVmi?
    ensures EffectDecided(c, cr, th, v, x, f, Move(c, cr, th, v, x))
  {
    hide VolumeName, PathFor, AttachedIn, NotHotpluggedIn, CheckAttachment, CountOf, WaitsFor, ClockOk, MoveInit, MoveHot, MoveSsh, MoveRestore, MoveDone, MoveClean;
    if x.SawVmi? { CheckMeans(x.vmi, VolumeName(c)); }
  }

  lemma WaitStampDecides(c: Name, cr: Cr, th: Thread, v: View, x: Outcome, f: Facts)
    requires CallDecided(c, cr, th, v, f) && !th.deletion && (th.pc.WaitStamp? || th.pc.WaitReset?)
    ensures EffectDecided(c, cr, th, v, x, f, Move(c, cr, th, v, x))
  {
    hide VolumeName, Mounted, Attached, Pending, CountOf, ClockOk, PhaseOk, MoveInit, MoveHot, MoveSsh, MoveRestore, MoveDone, MoveClean;
  }

  lemma LivePhase(cr: Cr, th: Thread, clock: nat)
    requires ThreadOk(cr, th, clock) && (th.pc.WaitRetry? || th.pc.SshRetry?)
    ensures !Terminal(cr.status.phase)
  {
    hide Checked;
  }

  lemma DelayIsShare(n: int)
    requires n >= 0
    ensures Backoff.Delay(Backoff.BASE_DELAY, n + 1) == Backoff.Schedule(n + 1) - Backoff.Schedule(n)
  {
  }

  /** An answered retry waits for its share of the schedule. */
  lemma RetryWaits(ws: Waits, n: int, wake: Option<nat>, clock: nat)
    requires WaitsFor(ws, n) && (wake.Some? ==> wake.value == clock + Backoff.Delay(Backoff.BASE_DELAY, n + 1) * SECOND)
    ensures WaitsFor(Waited(ws, n, n + 1, wake, clock), n + 1)
  {
    hide Backoff.Delay, Backoff.Schedule;
    DelayIsShare(n);
    assert (Backoff.Schedule(n + 1) - Backoff.Schedule(n)) * SECOND == Backoff.Schedule(n + 1) * SECOND - Backoff.Schedule(n) * SECOND;
  }

  lemma WaitRetryDecides(c: Name, cr: Cr, th: Thread, v: View, x: Outcome, f: Facts)
    requires CallDecided(c, cr, th, v, f) && !th.deletion && th.pc.WaitRetry?
    ensures EffectDecided(c, cr, th, v, x, f, Move(c, cr, th, v, x))
  {
    hide VolumeName, Mounted, Attached, Pending, CountOf, StatusOk, ThreadOk, WaitsFor, FailsBehind, Move, Backoff.Delay;
    assert !Terminal(cr.status.phase) by { LivePhase(cr, th, v.clock); }
    WaitRetryMoves(c, cr, th, v, x);
    var e := Move(c, cr, th, v, x);
    RetryWaits(f.attachWaits, cr.status.attachmentRetries, Woken(e.cr, e.ret, v.clock).hist.wake, v.clock);
  }

  lemma WaitRetryMoves(c: Name, cr: Cr, th: Thread, v: View, x: Outcome)
    requires th.pc.WaitRetry?
    ensures var e := Move(c, cr, th, v, x); var n := cr.status.attachmentRetries;
            && e.thread.None?
            && e.cr == (if Applied(x) then cr.(status := cr.status.(attachmentRetries := n + 1)) else cr)
            && Woken(e.cr, e.ret, v.clock).hist.wake == if x.Ok? then Some(v.clock + Backoff.Delay(Backoff.BASE_DELAY, n + 1) * SECOND) else None
  {
    hide Backoff.Delay, MoveInit, MoveHot, MoveSsh, MoveRestore, MoveDone, MoveClean;
  }

  lemma SshTryDecides(c: Name, cr: Cr, th: Thread, v: View, x: Outcome, f: Facts)
    requires CallDecided(c, cr, th, v, f) && !th.deletion && (th.pc.SshStamp? || th.pc.SshConnect?)
    ensures EffectDecided(c, cr, th, v, x, f, Move(c, cr, th, v, x))
  {
    hide VolumeName, Mounted, AttachedIn, NotHotpluggedIn, CountOf, ClockOk, PhaseOk, WaitsFor, MoveInit, MoveHot, MoveWait, MoveRestore, MoveDone, MoveClean;
  }

  lemma SshResetDecides(c: Name, cr: Cr, th: Thread, v: View, x: Outcome, f: Facts)
    requires CallDecided(c, cr, th, v, f) && !th.deletion && th.pc.SshReset?
    ensures EffectDecided(c, cr, th, v, x, f, Move(c, cr, th, v, x))
  {
    hide VolumeName, Mounted, AttachedIn, NotHotpluggedIn, CountOf, ClockOk, PhaseOk, MoveInit, MoveHot, MoveWait, MoveRestore, MoveDone, MoveClean;
  }

  lemma SshRetryDecides(c: Name, cr: Cr, th: Thread, v: View, x: Outcome, f: Facts)
    requires CallDecided(c, cr, th, v, f) && !th.deletion && th.pc.SshRetry?
    ensures EffectDecided(c, cr, th, v, x, f, Move(c, cr, th, v, x))
  {
    hide VolumeName, Mounted, Attached, Pending, CountOf, StatusOk, ThreadOk, WaitsFor, FailsBehind, Move, Backoff.Delay;
    assert !Terminal(cr.status.phase) by { LivePhase(cr, th, v.clock); }
    SshRetryMoves(c, cr, th, v, x);
    var e := Move(c, cr, th, v, x);
    RetryWaits(f.sshWaits, cr.status.sshRetries, Woken(e.cr, e.ret, v.clock).hist.wake, v.clock);
  }

  lemma SshRetryMoves(c: Name, cr: Cr, th: Thread, v: View, x: Outcome)
    requires th.pc.SshRetry?
    ensures var e := Move(c, cr, th, v, x); var n := cr.status.sshRetries;
            && e.thread.None?
            && e.cr == (if Applied(x) then cr.(status := cr.status.(sshRetries := n + 1)) else cr)
            && Woken(e.cr, e.ret, v.clock).hist.wake == if x.Ok? then Some(v.clock + Backoff.Delay(Backoff.BASE_DELAY, n + 1) * SECOND) else None
  {
    hide Backoff.Delay, MoveInit, MoveHot, MoveWait, MoveRestore, MoveDone, MoveClean;
  }

  lemma RestoreDecides(c: Name, cr: Cr, th: Thread, v: View, x: Outcome, f: Facts)
    requires CallDecided(c, cr, th, v, f) && !th.deletion && InRestore(th.pc)
    ensures EffectDecided(c, cr, th, v, x, f, Move(c, cr, th, v, x))
  {
    hide VolumeName, Mounted, AttachedIn, NotHotpluggedIn, CountOf, FileCount.ReportedCount, WaitsFor, ClockOk, PhaseOk, MoveInit, MoveHot, MoveWait, MoveSsh, MoveDone, MoveClean;
    if th.pc.RestorePatch? { ReportedIsCountOf(th.pc.stdout); }
  }

  lemma DoneDecides(c: Name, cr: Cr, th: Thread, v: View, x: Outcome, f: Facts)
    requires CallDecided(c, cr, th, v, f) && !th.deletion && (th.pc.DoneGet? || th.pc.DonePatch? || th.pc.DoneDv? || th.pc.DoneVmi?)
    ensures EffectDecided(c, cr, th, v, x, f, Move(c, cr, th, v, x))
  {
    hide Move, StatusDecided, LearnCall, ClockOk, VolumeName, FailsBehind, Heard;
    var e := Move(c, cr, th, v, x);
    DoneMoves(c, cr, th, v, x, f);
    QuietLearns(c, cr, th, v, x, Woken(e.cr, e.ret, v.clock), f);
  }

  lemma DoneMoves(c: Name, cr: Cr, th: Thread, v: View, x: Outcome, f: Facts)
    requires (th.pc.DoneGet? || th.pc.DonePatch? || th.pc.DoneDv? || th.pc.DoneVmi?) && cr.status.phase.Cleanup? && cr.status.count.Some?
    ensures LeadsOn(c, cr, th, v, x, f, Move(c, cr, th, v, x))
  {
    hide LeadsOn, Move;
    if th.pc.DoneGet? || th.pc.DoneVmi? { DoneReadMoves(c, cr, th, v, x, f); } else { DoneWriteMoves(c, cr, th, v, x, f); }
  }

  lemma DoneReadMoves(c: Name, cr: Cr, th: Thread, v: View, x: Outcome, f: Facts)
    requires (th.pc.DoneGet? || th.pc.DoneVmi?) && cr.status.phase.Cleanup? && cr.status.count.Some?
    ensures LeadsOn(c, cr, th, v, x, f, Move(c, cr, th, v, x))
  {
    hide VolumeName, Unplug, Lists, Mounted, Attached, MoveInit, MoveHot, MoveWait, MoveSsh, MoveRestore, MoveClean;
  }

  lemma DoneWriteMoves(c: Name, cr: Cr, th: Thread, v: View, x: Outcome, f: Facts)
    requires (th.pc.DonePatch? || th.pc.DoneDv?) && cr.status.phase.Cleanup?
    ensures LeadsOn(c, cr, th, v, x, f, Move(c, cr, th, v, x))
  {
    hide LeadsOn, Move;
    if th.pc.DoneDv? { DoneDvMoves(c, cr, th, v, x, f); } else { DonePatchMoves(c, cr, th, v, x, f); }
  }

  lemma DoneDvMoves(c: Name, cr: Cr, th: Thread, v: View, x: Outcome, f: Facts)
    requires th.pc.DoneDv? && cr.status.phase.Cleanup?
    ensures LeadsOn(c, cr, th, v, x, f, Move(c, cr, th, v, x))
  {
    hide VolumeName, Unplug, Lists, Mounted, Attached, MoveInit, MoveHot, MoveWait, MoveSsh, MoveRestore, MoveClean;
  }

  lemma DonePatchMoves(c: Name, cr: Cr, th: Thread, v: View, x: Outcome, f: Facts)
    requires th.pc.DonePatch? && cr.status.phase.Cleanup?
    ensures LeadsOn(c, cr, th, v, x, f, Move(c, cr, th, v, x))
  {
    hide VolumeName, Unplug, Lists, Mounted, Attached, MoveInit, MoveHot, MoveWait, MoveSsh, MoveRestore, MoveClean;
  }

  /** Every call of every reconcile keeps status and next call in line with what was heard. */
  lemma MoveDecides(c: Name, cr: Cr, th: Thread, v: View, x: Outcome, f: Facts)
    requires CallDecided(c, cr, th, v, f)
    requires th.pc.HotGet? && x.SawVm? ==> PlugVerdict(x.vm, VolumeName(c)) != Partial
    ensures EffectDecided(c, cr, th, v, x, f, Move(c, cr, th, v, x))
  {
    hide CallDecided, EffectDecided, Move, PlugVerdict;
    if th.deletion {
      DeletionDecides(c, cr, th, v, x, f);
    } else if th.pc.HotGet? || Hot(th.pc) {
      HotDecides(c, cr, th, v, x, f);
    } else if Cleaning(th.pc) {
      CleanDecides(c, cr, th, v, x, f);
    } else {
      match th.pc
      case AddFinalizer => InitDecides(c, cr, th, v, x, f);
      case InitRead => InitDecides(c, cr, th, v, x, f);
      case InitMount(_) => InitDecides(c, cr, th, v, x, f);
      case Advance(_) => PatchDecides(c, cr, th, v, x, f);
      case FailPatch => PatchDecides(c, cr, th, v, x, f);
      case WaitVmi => WaitVmiDecides(c, cr, th, v, x, f);
      case WaitStamp(_) => WaitStampDecides(c, cr, th, v, x, f);
      case WaitRetry => WaitRetryDecides(c, cr, th, v, x, f);
      case WaitReset => WaitStampDecides(c, cr, th, v, x, f);
      case SshStamp => SshTryDecides(c, cr, th, v, x, f);
      case SshConnect => SshTryDecides(c, cr, th, v, x, f);
      case SshRetry => SshRetryDecides(c, cr, th, v, x, f);
      case SshReset => SshResetDecides(c, cr, th, v, x, f);
      case RestoreRun => RestoreDecides(c, cr, th, v, x, f);
      case RestorePatch(_) => RestoreDecides(c, cr, th, v, x, f);
      case Finalize(_) => NoFinalize(c, cr, th, v, f);
      case _ => DoneDecides(c, cr, th, v, x, f);
    }
  }

  lemma NoFinalize(c: Name, cr: Cr, th: Thread, v: View, f: Facts)
    requires th.pc.Finalize? && !th.deletion
    ensures !CallDecided(c, cr, th, v, f)
  {
  }

  // ---------------------------------------------------------------------------
  // Every step keeps that
  // ---------------------------------------------------------------------------

  /** The event is a call or the start of c's reconcile that comes about. */
  ghost predicate OwnEvent(w: World, e: Event, c: Name) {
    c in w.crs && ((e == Start(c) && c !in w.threads) || (e.Act? && e.c == c && c in w.threads && !e.x.Crash? && Possible(w, c, e.x)))
  }

  /** Whatever else happens leaves the object alone but for its deletion mark, and the reconcile but for a crash. */
  lemma Untouched(w: World, e: Event, c: Name)
    requires c in w.crs && c in Step(w, e).crs && !OwnEvent(w, e, c)
    ensures var w' := Step(w, e);
            && SameCr(w'.crs[c], w.crs[c]) && w'.namespace == w.namespace
            && (c in w'.threads ==> c in w.threads && w'.threads[c] == w.threads[c])
  {
    hide Step;
    if e.Act? { UntouchedByCall(w, e.c, e.x, c); }
    else if e.Start? { UntouchedByStart(w, e.c, c); }
    else { UntouchedByOthers(w, e, c); }
  }

  ghost predicate Spared(w: World, w': World, c: Name)
    requires c in w.crs && c in w'.crs
  {
    && SameCr(w'.crs[c], w.crs[c]) && w'.namespace == w.namespace
    && (c in w'.threads ==> c in w.threads && w'.threads[c] == w.threads[c])
  }

  lemma UntouchedByCall(w: World, d: Name, x: Outcome, c: Name)
    requires c in w.crs && c in Step(w, Act(d, x)).crs && !OwnEvent(w, Act(d, x), c)
    ensures Spared(w, Step(w, Act(d, x)), c)
  {
    hide Commit, EffectOf;
    if d != c && d in w.crs && d in w.threads { CommitSpares(w, d, EffectOf(w, d, x), w.threads[d].clean, c); }
  }

  lemma UntouchedByStart(w: World, d: Name, c: Name)
    requires c in w.crs && c in Step(w, Start(d)).crs && !OwnEvent(w, Start(d), c)
    ensures Spared(w, Step(w, Start(d)), c)
  {
    hide Commit, Dispatch, VolumeName;
    if d != c && d in w.crs { CommitSpares(w, d, Dispatch(w.crs[d], ViewOf(w, d)), true, c); }
  }

  lemma UntouchedByOthers(w: World, e: Event, c: Name)
    requires c in w.crs && c in Step(w, e).crs && !e.Act? && !e.Start?
    ensures Spared(w, Step(w, e), c)
  {
    hide AllowedVm, AllowedVmi, Commit, StepAct, Dispatch, VolumeName;
  }

  lemma CommitSpares(w: World, d: Name, e: Effect, clean: bool, c: Name)
    requires d in w.crs && c in w.crs && c != d
    ensures var w' := Commit(w, d, e, clean);
            && c in w'.crs && w'.crs[c] == w.crs[c] && w'.namespace == w.namespace
            && (c in w'.threads <==> c in w.threads) && (c in w.threads ==> w'.threads[c] == w.threads[c])
  {
    hide MergePatch, VolumeName, Woken;
  }

  lemma CommitOwn(w: World, c: Name, e: Effect, clean: bool)
    requires c in w.crs
    ensures var w' := Commit(w, c, e, clean);
            && w'.namespace == w.namespace
            && (c in w'.crs <==> !e.gone) && (!e.gone ==> w'.crs[c] == Woken(e.cr, e.ret, w.clock))
            && (c in w'.threads <==> e.thread.Some?) && (e.thread.Some? ==> w'.threads[c] == e.thread.value)
  {
    hide MergePatch, VolumeName, Woken;
  }

  lemma WokenKeeps(cr: Cr, ret: Ret, clock: nat)
    ensures Woken(cr, ret, clock).status == cr.status && Woken(cr, ret, clock).spec == cr.spec
  {
  }

  lemma ActDecides(w: World, c: Name, x: Outcome, f: Facts)
    requires VmInv(w) && Decided(w, c, f) && OwnEvent(w, Act(c, x), c)
    ensures Decided(Step(w, Act(c, x)), c, Learn(w, Act(c, x), c, f))
  {
    hide Inv, VersionsOk, Move, Commit, StatusDecided, PcDecided, PlugVerdict, StatusOk, ThreadOk, LearnCall, VolumeName;
    var cr, th, v := w.crs[c], w.threads[c], ViewOf(w, c);
    assert StatusOk(cr, w.clock) && ThreadOk(cr, th, w.clock) by { OwnThread(w, c); }
    if th.pc.HotGet? && x.SawVm? { SeenNotPartial(w, c, x.vm); }
    MoveDecides(c, cr, th, v, x, f);
    var e := Move(c, cr, th, v, x);
    CommitOwn(w, c, e, th.clean);
    WokenKeeps(e.cr, e.ret, w.clock);
    SpecKept(c, cr, th, v, x);
    assert Step(w, Act(c, x)) == Commit(w, c, e, th.clean);
  }

  lemma OwnThread(w: World, c: Name)
    requires VmInv(w) && c in w.crs && c in w.threads
    ensures StatusOk(w.crs[c], w.clock) && ThreadOk(w.crs[c], w.threads[c], w.clock)
  {
    hide StatusOk, ThreadOk, VersionsOk, BaseOk;
    assert OwnOk(w, c);
  }

  lemma OwnStatus(w: World, c: Name)
    requires VmInv(w) && c in w.crs
    ensures StatusOk(w.crs[c], w.clock)
  {
    hide StatusOk, ThreadOk, VersionsOk, BaseOk;
    assert OwnOk(w, c);
  }

  lemma SeenNotPartial(w: World, c: Name, vm: Vm)
    requires VmInv(w) && c in w.crs && (w.crs[c].spec.target, vm) in w.past
    ensures PlugVerdict(vm, VolumeName(c)) != Partial
  {
    hide Inv;
    NeverPartial(vm, VolumeName(c));
  }

  lemma StartDecides(w: World, c: Name, f: Facts)
    requires VmInv(w) && Decided(w, c, f) && OwnEvent(w, Start(c), c)
    ensures Decided(Step(w, Start(c)), c, Learn(w, Start(c), c, f))
  {
    hide Inv, VersionsOk, Commit, StatusDecided, StatusOk, VolumeName, Dispatch;
    var cr, v := w.crs[c], ViewOf(w, c);
    assert StatusOk(cr, w.clock) by { OwnStatus(w, c); }
    var e := Dispatch(cr, v);
    DispatchDecides(c, cr, v, f);
    CommitOwn(w, c, e, true);
    WokenKeeps(e.cr, e.ret, w.clock);
    assert Step(w, Start(c)) == Commit(w, c, e, true);
  }

  lemma DispatchDecides(c: Name, cr: Cr, v: View, f: Facts)
    requires StatusOk(cr, v.clock) && StatusDecided(c, cr.spec.source, cr.status, f)
    ensures var e := Dispatch(cr, v); var fails := cr.finalizer && !cr.deleting && FailsAtOnce(cr);
            && e.cr == cr && !e.gone && StatusDecided(c, cr.spec.source, cr.status, f.(failure := f.failure || fails))
            && (e.thread.Some? && !e.thread.value.deletion ==>
                  PcDecided(c, v.namespace, cr.spec.source, cr.status.mountPath, e.thread.value.pc, f.(failure := f.failure || fails)))
  {
    hide Mounted, Attached, CountOf, WaitsFor, ClockOk, RateLimited;
  }

  lemma OtherDecides(w: World, e: Event, c: Name, f: Facts)
    requires Inv(w) && Decided(w, c, f) && !OwnEvent(w, e, c)
    ensures Decided(Step(w, e), c, Learn(w, e, c, f))
  {
    hide StatusDecided, PcDecided, Step;
    if c in Step(w, e).crs {
      if c in w.crs {
        Untouched(w, e, c);
      } else {
        CreatedDecided(w, e, c);
      }
    }
  }

  lemma CreatedDecided(w: World, e: Event, c: Name)
    requires Inv(w) && c !in w.crs && c in Step(w, e).crs
    ensures Decided(Step(w, e), c, NoFacts)
  {
    hide Step, StatusDecided;
    assert OwnOk(w, c);
    OnlyCreation(w, e, c);
    NewDecided(c, e.spec);
  }

  lemma OnlyCreation(w: World, e: Event, c: Name)
    requires c !in w.crs && c in Step(w, e).crs
    ensures e.CreateCr? && e.c == c && Step(w, e).crs[c] == NewCr(e.spec) && Step(w, e).threads == w.threads
  {
    hide Commit, EffectOf, Dispatch, AllowedVm, AllowedVmi;
    if e.Act? && e.c in w.crs && e.c in w.threads { CommitCreatesNothing(w, e.c, EffectOf(w, e.c, e.x), w.threads[e.c].clean, c); }
    else if e.Start? && e.c in w.crs { CommitCreatesNothing(w, e.c, Dispatch(w.crs[e.c], ViewOf(w, e.c)), true, c); }
  }

  lemma NewDecided(c: Name, spec: Spec)
    ensures StatusDecided(c, spec.source, NewCr(spec).status, NoFacts)
  {
    NoWaitYet();
  }

  lemma NoWaitYet()
    ensures Backoff.Schedule(0) == 0
  {
  }

  lemma CommitCreatesNothing(w: World, d: Name, e: Effect, clean: bool, c: Name)
    requires d in w.crs && c !in w.crs
    ensures c !in Commit(w, d, e, clean).crs
  {
    hide MergePatch, VolumeName, Woken;
  }

  /** In every reachable state status and next call of every restore follow from what its calls were told. */
  lemma {:induction false} ReachableDecided(w: World, events: seq<Event>, c: Name)
    requires Initial(w)
    ensures Decided(Exec(w, events), c, Known(w, events, c))
  {
    hide Step, Decided, Learn, VmInv;
    if events == [] {
      assert Decided(w, c, NoFacts) by { NothingDecided(w, c); }
    } else {
      var before, e := events[..|events| - 1], events[|events| - 1];
      ReachableDecided(w, before, c);
      ReachableVms(w, before);
      StepDecides(Exec(w, before), e, c, Known(w, before, c));
    }
  }

  lemma NothingDecided(w: World, c: Name)
    requires Initial(w)
    ensures Decided(w, c, NoFacts)
  {
  }

  lemma StepDecides(w: World, e: Event, c: Name, f: Facts)
    requires VmInv(w) && Decided(w, c, f)
    ensures Decided(Step(w, e), c, Learn(w, e, c, f))
  {
    hide Step, Decided, Learn, VersionsOk;
    if OwnEvent(w, e, c) {
      if e.Act? { ActDecides(w, c, e.x, f); } else { StartDecides(w, c, f); }
    } else {
      OtherDecides(w, e, c, f);
    }
  }

  // ---------------------------------------------------------------------------
  // Main results
  // ---------------------------------------------------------------------------

  /** In every reachable state: the facts about c, which exists. */
  ghost predicate Explained(now: World, c: Name, f: Facts)
    requires c in now.crs
  {
    StatusDecided(c, now.crs[c].spec.source, now.crs[c].status, f)
  }

  lemma IsExplained(w: World, events: seq<Event>, c: Name)
    requires Initial(w) && c in Exec(w, events).crs
    ensures Explained(Exec(w, events), c, Known(w, events, c))
  {
    hide StatusDecided, PcDecided;
    ReachableDecided(w, events, c);
  }

  /**
   A restore that has left New has exactly one source, a PVC or a snapshot, and its mount path is the
   base path of the guest system that the VMI it read last describes, and the name of that source.
   */
  lemma MountPathIsRight(w: World, events: seq<Event>, c: Name)
    requires Initial(w) && c in Exec(w, events).crs && Started(Exec(w, events).crs[c].status.phase)
    ensures var cr, seen := Exec(w, events).crs[c], Known(w, events, c).init; var s := cr.spec.source;
            && !s.remote && (s.pvc.Some? <==> s.snapshot.None?) && seen.Some?
            && cr.status.mountPath == (if WindowsGuest(seen.value) then "C:\\backup-" else "/backup-")
                                      + (if s.pvc.Some? then s.pvc.value.name else s.snapshot.value.name)
  {
    hide Exec, Known;
    IsExplained(w, events, c);
  }

  /**
   SSHConnecting and all later phases but Failed are reached only behind an attachment check whose
   VMI, the last one checked, has a first status of the volume's name that is ready, has a target and
   is hotplugged; Restoring and later ones only behind a dial that succeeded, the last one made.
   */
  lemma AttachedBeforeSsh(w: World, events: seq<Event>, c: Name)
    requires Initial(w) && c in Exec(w, events).crs
    ensures var p, f := Exec(w, events).crs[c].status.phase, Known(w, events, c);
            && (p.SshConnecting? || p.Restoring? || p.VolumeReady? || p.Cleanup? || p.Succeeded? ==>
                  f.attach.Some? && AttachedIn(f.attach.value, VolumeName(c)))
            && (p.Restoring? || p.VolumeReady? || p.Cleanup? || p.Succeeded? ==> f.dial == Some(Ok))
  {
    hide Exec, Known;
    IsExplained(w, events, c);
  }

  /** In Cleanup and Succeeded the persisted count is the one in the output of the last guest command. */
  lemma CountIsPrinted(w: World, events: seq<Event>, c: Name)
    requires Initial(w) && c in Exec(w, events).crs
    requires var p := Exec(w, events).crs[c].status.phase; p.Cleanup? || p.Succeeded?
    ensures var st, out := Exec(w, events).crs[c].status, Known(w, events, c).stdout;
            out.Some? && st.count.Some? && CountOf(out.value, st.count.value)
  {
    hide Exec, Known, CountOf;
    IsExplained(w, events, c);
  }

  /** So a helper that prints n, among lines that carry no count before and anything after, gets n persisted. */
  lemma PrintedCountIsPersisted(w: World, events: seq<Event>, c: Name, before: seq<string>, n: nat, after: seq<string>)
    requires Initial(w) && c in Exec(w, events).crs
    requires var p := Exec(w, events).crs[c].status.phase; p.Cleanup? || p.Succeeded?
    requires forall i :: 0 <= i < |before| ==> All(before[i], c => c != '\n') && FileCount.LineCount(before[i]).None?
    requires forall i :: 0 <= i < |after| ==> All(after[i], c => c != '\n')
    requires n <= FileCount.MAX_INT32 && Known(w, events, c).stdout == Some(FileCount.Unlines(before + [FileCount.CountLine(n)] + after))
    ensures Exec(w, events).crs[c].status.count == Some(n)
  {
    hide Exec, Known, CountOf, FileCount.LineCount, FileCount.Unlines, FileCount.RestoredFileCount;
    var stdout := FileCount.Unlines(before + [FileCount.CountLine(n)] + after);
    CountIsPrinted(w, events, c);
    FileCount.CountRoundTrip(before, n, after);
    ReportedIsCountOf(stdout);
    CountIsOne(stdout, n, Exec(w, events).crs[c].status.count.value);
  }

  /** Step e gives restore c a reason to fail. */
  ghost predicate ReasonAt(w: World, e: Event, c: Name) {
    && OwnEvent(w, e, c)
    && (if e.Start? then w.crs[c].finalizer && !w.crs[c].deleting && FailsAtOnce(w.crs[c])
        else var th := w.threads[c];
             !th.deletion && FailsBehind(c, w.crs[c], RequestAt(c, w.crs[c], th, w.clock), th.pc.HotReget?, ViewOf(w, c), e.x))
  }

  lemma {:induction false} ReasonOccurred(w: World, events: seq<Event>, c: Name)
    requires Known(w, events, c).failure
    ensures exists k :: 0 <= k < |events| && ReasonAt(Exec(w, events[..k]), events[k], c)
  {
    hide Step, FailsBehind, FailsAtOnce, RequestAt, Heard;
    var n := |events| - 1;
    var before := Exec(w, events[..n]);
    if Known(w, events[..n], c).failure {
      ReasonOccurred(w, events[..n], c);
      var k :| 0 <= k < n && ReasonAt(Exec(w, events[..n][..k]), events[..n][k], c);
      assert events[..n][..k] == events[..k] && events[..n][k] == events[k];
    } else {
      assert ReasonAt(before, events[n], c);
    }
  }

  /**
   A restore fails only for a reason: a wrong number of sources; 60 attachment or 24 SSH retries;
   an unanswered read; another restore's volume on the VM; a PVC of another namespace; a failed VM or
   DataVolume write; a volume that is attached but not hotplugged; an SSH error other than a refused
   connection; a failed guest command.  A VM that is missing in Cleanup is no reason.
   */
  lemma FailuresHaveReasons(w: World, events: seq<Event>, c: Name)
    requires Initial(w) && c in Exec(w, events).crs && Exec(w, events).crs[c].status.phase.Failed?
    ensures exists k :: 0 <= k < |events| && ReasonAt(Exec(w, events[..k]), events[k], c)
  {
    hide Exec, Known, ReasonAt;
    IsExplained(w, events, c);
    ReasonOccurred(w, events, c);
  }

  /**
   The delays asked for by the n retries on record add up to the schedule, unless the answer to one of
   them was lost; so the attachment timeout stands behind 1090 s of them and the SSH timeout behind 370 s.
   */
  lemma RetriesWaitTheSchedule(w: World, events: seq<Event>, c: Name)
    requires Initial(w) && c in Exec(w, events).crs
    ensures var st, f := Exec(w, events).crs[c].status, Known(w, events, c);
            && WaitsFor(f.attachWaits, st.attachmentRetries) && WaitsFor(f.sshWaits, st.sshRetries)
            && (st.attachmentRetries == 60 && f.attachWaits.whole ==> f.attachWaits.total == 1090 * 1_000_000_000)
            && (st.sshRetries == 24 && f.sshWaits.whole ==> f.sshWaits.total == 370 * 1_000_000_000)
  {
    hide Exec, Known;
    IsExplained(w, events, c);
  }

  /** A retry counter changes in one step: one more behind a check that was pending or refused, or back to 0 behind one that was not. */
  ghost predicate Retried(before: int, after: int, pending: bool, ready: bool) {
    after == before || (after == before + 1 && pending) || (after == 0 && ready)
  }

  /** An answered retry asks to be called again after its share of the schedule, and no sooner or later. */
  ghost predicate Scheduled(n: int, e: Event, wake: Option<nat>, clock: nat) {
    n >= 0 && e.Act? && (e.x.Ok? ==> wake == Some(clock + (Backoff.Schedule(n + 1) - Backoff.Schedule(n)) * SECOND))
  }

  /**
   Over all runs: a counter rises only by one, only behind a check that found the volume not attached
   yet, or a dial that was refused; and the requeue it asks for is exactly the next share of the schedule.
   */
  lemma RetriesAreEarned(w: World, events: seq<Event>, e: Event, c: Name)
    requires Initial(w)
    requires c in Exec(w, events).crs && c in Step(Exec(w, events), e).crs
    ensures var now, f := Exec(w, events), Known(w, events, c);
            var a, b := now.crs[c].status, Step(now, e).crs[c].status; var wake := Step(now, e).crs[c].hist.wake;
            && Retried(a.attachmentRetries, b.attachmentRetries, Pending(c, f.attach), Attached(c, f.attach))
            && Retried(a.sshRetries, b.sshRetries, f.dial == Some(Refused), f.dial == Some(Ok))
            && (b.attachmentRetries == a.attachmentRetries + 1 ==> Scheduled(a.attachmentRetries, e, wake, now.clock))
            && (b.sshRetries == a.sshRetries + 1 ==> Scheduled(a.sshRetries, e, wake, now.clock))
  {
    hide Exec, Known, Step, Attached, Pending, StatusDecided;
    var now, f := Exec(w, events), Known(w, events, c);
    ReachableDecided(w, events, c);
    ReachableVms(w, events);
    OnlyOwnCallsWrite(now, e, c);
    if Step(now, e).crs[c].status != now.crs[c].status { CallRetries(now, c, e.x, f); }
  }

  lemma CallRetries(w: World, c: Name, x: Outcome, f: Facts)
    requires VmInv(w) && Decided(w, c, f) && c in w.crs && c in w.threads && c in Step(w, Act(c, x)).crs
    requires Step(w, Act(c, x)).crs[c].status != w.crs[c].status
    ensures var a, b := w.crs[c].status, Step(w, Act(c, x)).crs[c].status; var wake := Step(w, Act(c, x)).crs[c].hist.wake;
            && Retried(a.attachmentRetries, b.attachmentRetries, Pending(c, f.attach), Attached(c, f.attach))
            && Retried(a.sshRetries, b.sshRetries, f.dial == Some(Refused), f.dial == Some(Ok))
            && (b.attachmentRetries == a.attachmentRetries + 1 ==> Scheduled(a.attachmentRetries, Act(c, x), wake, w.clock))
            && (b.sshRetries == a.sshRetries + 1 ==> Scheduled(a.sshRetries, Act(c, x), wake, w.clock))
  {
    hide VmInv, Move, Commit, StatusDecided, Attached, Pending, StatusOk, ThreadOk, VolumeName, Backoff.Schedule;
    var cr, th, v := w.crs[c], w.threads[c], ViewOf(w, c);
    assert StatusOk(cr, w.clock) && ThreadOk(cr, th, w.clock) by { OwnThread(w, c); }
    var e := Move(c, cr, th, v, x);
    CommitOwn(w, c, e, th.clean);
    WokenKeeps(e.cr, e.ret, w.clock);
    MoveRetries(c, cr, th, v, x);
    DelayIsShare(if cr.status.attachmentRetries >= 0 then cr.status.attachmentRetries else 0);
    DelayIsShare(if cr.status.sshRetries >= 0 then cr.status.sshRetries else 0);
  }

  /** Which calls touch the counters, and the requeue behind a retry. */
  lemma MoveRetries(c: Name, cr: Cr, th: Thread, v: View, x: Outcome)
    requires StatusOk(cr, v.clock) && ThreadOk(cr, th, v.clock)
    ensures var e := Move(c, cr, th, v, x); var a, b := cr.status, e.cr.status; var wake := Woken(e.cr, e.ret, v.clock).hist.wake;
            && a.attachmentRetries >= 0 && a.sshRetries >= 0
            && (b.attachmentRetries != a.attachmentRetries ==>
                  !th.deletion && (th.pc.WaitReset? || th.pc.WaitRetry?)
                  && b.attachmentRetries == if th.pc.WaitReset? then 0 else a.attachmentRetries + 1)
            && (b.sshRetries != a.sshRetries ==>
                  !th.deletion && (th.pc.SshReset? || th.pc.SshRetry?)
                  && b.sshRetries == if th.pc.SshReset? then 0 else a.sshRetries + 1)
            && (th.pc.WaitRetry? && x.Ok? ==> wake == Some(v.clock + Backoff.Delay(Backoff.BASE_DELAY, a.attachmentRetries + 1) * SECOND))
            && (th.pc.SshRetry? && x.Ok? ==> wake == Some(v.clock + Backoff.Delay(Backoff.BASE_DELAY, a.sshRetries + 1) * SECOND))
  {
    hide Move, Backoff.Delay;
    if th.pc.WaitRetry? { WaitRetryMoves(c, cr, th, v, x); }
    else if th.pc.SshRetry? { SshRetryMoves(c, cr, th, v, x); }
    else if Quiet(th.pc) || Cleaning(th.pc) || th.pc.Finalize? { QuietEvolves(c, cr, th, v, x); }
    else { OthersDoNotCount(c, cr, th, v, x); }
  }

  lemma OthersDoNotCount(c: Name, cr: Cr, th: Thread, v: View, x: Outcome)
    requires !th.pc.WaitRetry? && !th.pc.SshRetry? && !Quiet(th.pc) && !Cleaning(th.pc) && !th.pc.Finalize?
    ensures var a, b := cr.status, Move(c, cr, th, v, x).cr.status;
            && (b.attachmentRetries != a.attachmentRetries ==> th.pc.WaitReset? && b.attachmentRetries == 0)
            && (b.sshRetries != a.sshRetries ==> th.pc.SshReset? && b.sshRetries == 0)
  {
    hide VolumeName, MountPath, DetectGuestOs, CheckAttachment, FileCount.ReportedCount, MoveHot, MoveDone, MoveClean, MoveFinalize;
  }

  /**
   A reconcile of an attachment or SSH phase short of its timeout is held up if and only if fewer than
   five seconds have passed since the last check, and then asks to be called when they have, to the nanosecond.
   */
  lemma HeldUpExactly(w: World, c: Name)
    requires c in w.crs && c !in w.threads && w.crs[c].finalizer && !w.crs[c].deleting
    requires var st := w.crs[c].status;
             (st.phase.WaitingForAttachment? && st.attachmentRetries < 60) || (st.phase.SshConnecting? && st.sshRetries < 24)
    ensures var st, w' := w.crs[c].status, Step(w, Start(c));
            var last := if st.phase.WaitingForAttachment? then st.lastAttachment else st.lastSsh;
            && (c !in w'.threads <==> last.Some? && w.clock < (last.value + 5) * 1_000_000_000)
            && (c !in w'.threads ==> c in w'.crs && w'.crs[c] == w.crs[c].(hist := w.crs[c].hist.(wake := Some((last.value + 5) * 1_000_000_000))))
  {
    hide MergePatch, VolumeName;
  }
}
