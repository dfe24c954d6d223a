/**
 Runs from an empty cluster in which stale reads, racing patches or lost answers do damage.  Each
 is given for every name, every VM and every VMI, as a list of events of the machine.
 */
module RestoreWitnesses {
  import opened Text
  import opened VmSpec
  import opened GuestOs
  import opened RestoreModel
  import opened RestoreStatus
  import opened RestoreRuns
  import opened RestoreVms
  import opened RestoreCleanup
  import opened RestoreHolding
  import opened RestoreRaces
  import FileCount

  // ---------------------------------------------------------------------------
  // Unrolling runs
  // ---------------------------------------------------------------------------

  lemma Two(w: World, a: Event, b: Event)
    ensures Exec(w, [a, b]) == Step(Step(w, a), b)
  {
    hide Step;
    assert [a, b][..1] == [a];
    assert Exec(w, [a]) == Step(w, a);
  }

  lemma Three(w: World, a: Event, b: Event, d: Event)
    ensures Exec(w, [a, b, d]) == Step(Step(Step(w, a), b), d)
  {
    hide Step;
    assert [a, b, d][..2] == [a, b];
    Two(w, a, b);
  }

  lemma Nine(w: World, a: Event, b: Event, d: Event, e: Event, f: Event, g: Event, h: Event, i: Event, j: Event)
    ensures Exec(w, [a, b, d, e, f, g, h, i, j])
         == Step(Step(Step(Step(Step(Step(Step(Step(Step(w, a), b), d), e), f), g), h), i), j)
  {
    hide Step, Exec;
    Three(w, a, b, d);
    var w3 := Step(Step(Step(w, a), b), d);
    Three(w3, e, f, g);
    Three(Step(Step(Step(w3, e), f), g), h, i, j);
    ExecAppend(w, [a, b, d], [e, f, g] + [h, i, j]);
    ExecAppend(w3, [e, f, g], [h, i, j]);
    assert [a, b, d, e, f, g, h, i, j] == [a, b, d] + ([e, f, g] + [h, i, j]);
  }

  /** The event is a step of c's reconcile, or c's creation or deletion. */
  predicate Concerns(e: Event, c: Name) { (e.Act? || e.Start? || e.CreateCr? || e.DeleteCr?) && e.c == c }

  /** Object and reconcile of d are the same. */
  predicate SameRestore(a: World, b: World, d: Name) {
    && (d in a.crs <==> d in b.crs) && (d in a.crs && d in b.crs ==> a.crs[d] == b.crs[d])
    && (d in a.threads <==> d in b.threads) && (d in a.threads && d in b.threads ==> a.threads[d] == b.threads[d])
  }

  lemma StepSparesOthers(w: World, e: Event, c: Name, d: Name)
    requires Concerns(e, c) && c != d
    ensures SameRestore(w, Step(w, e), d)
  {
    hide Commit, EffectOf, Dispatch, VolumeName;
    if e.Act? && c in w.crs && c in w.threads {
      CommitSparesOthers(w, c, EffectOf(w, c, e.x), w.threads[c].clean, d);
    } else if e.Start? && c in w.crs {
      CommitSparesOthers(w, c, Dispatch(w.crs[c], ViewOf(w, c)), true, d);
    }
  }

  lemma CommitSparesOthers(w: World, c: Name, e: Effect, clean: bool, d: Name)
    requires c in w.crs && c != d
    ensures SameRestore(w, Commit(w, c, e, clean), d)
  {
    hide MergePatch, VolumeName, Woken;
  }

  lemma {:induction false} RunSparesOthers(w: World, events: seq<Event>, c: Name, d: Name)
    requires c != d && forall i :: 0 <= i < |events| ==> Concerns(events[i], c)
    ensures SameRestore(w, Exec(w, events), d)
  {
    hide Step;
    if events != [] {
      RunSparesOthers(w, events[..|events| - 1], c, d);
      StepSparesOthers(Exec(w, events[..|events| - 1]), events[|events| - 1], c, d);
    }
  }

  // ---------------------------------------------------------------------------
  // The way to the hotplug patch
  // ---------------------------------------------------------------------------

  /** No check has been made or counted: none at all up to level 1, none of SSH up to level 2. */
  predicate Calm(st: Status, level: nat) {
    && st.attachmentRetries == 0 && st.sshRetries == 0
    && (level <= 1 ==> st.lastAttachment.None?) && (level <= 2 ==> st.lastSsh.None?)
  }

  /** Restore c exists in this phase and the cluster is as in `from`. */
  predicate Snap(from: World, w: World, c: Name, spec: Spec, phase: Phase, finalizer: bool) {
    && c in w.crs && w.crs[c].spec == spec && w.crs[c].status.phase == phase && w.crs[c].finalizer == finalizer && !w.crs[c].deleting
    && Calm(w.crs[c].status, 1)
    && w.namespace == from.namespace && w.vms == from.vms && w.past == from.past && w.dvs == from.dvs && w.excused == from.excused
  }

  /** A live reconcile at pc that has seen nothing unusual. */
  predicate Working(w: World, c: Name, pc: Pc) {
    c in w.threads && w.threads[c].pc == pc && !w.threads[c].deletion && !w.threads[c].busy && !w.threads[c].vmGone && w.threads[c].clean
  }

  /** A live reconcile that has just found the VM taken. */
  predicate Losing(w: World, c: Name) {
    c in w.threads && w.threads[c].pc == FailPatch && !w.threads[c].deletion && w.threads[c].busy
  }

  /** A restore of one PVC of its own namespace. */
  predicate OnePvc(w: World, spec: Spec) {
    && spec.source.pvc.Some? && spec.source.snapshot.None? && !spec.source.remote
    && !CrossNamespace(w.namespace, spec.source.pvc.value)
  }

  /** A restore of one snapshot. */
  predicate OneSnapshot(spec: Spec) { spec.source.pvc.None? && spec.source.snapshot.Some? && !spec.source.remote }

  lemma CreateSnap(w: World, c: Name, spec: Spec)
    requires c !in w.crs && c !in w.threads
    ensures var w1 := Step(w, CreateCr(c, spec)); Snap(w, w1, c, spec, Unset, false) && c !in w1.threads
  {
  }

  lemma StartSnap(from: World, w: World, c: Name, spec: Spec, phase: Phase, finalizer: bool)
    requires Snap(from, w, c, spec, phase, finalizer) && c !in w.threads && (OnePvc(from, spec) || OneSnapshot(spec))
    requires phase.Unset? || (phase.Hotplugging? && finalizer)
    ensures var w' := Step(w, Start(c));
            && Snap(from, w', c, spec, phase, finalizer)
            && Working(w', c, if !finalizer then AddFinalizer else if phase.Unset? then InitRead else HotGet)
  {
    hide VolumeName, MergePatch;
  }

  lemma AddFinalizerSnap(from: World, w: World, c: Name, spec: Spec)
    requires Snap(from, w, c, spec, Unset, false) && Working(w, c, AddFinalizer)
    ensures var w' := Step(w, Act(c, Ok)); Snap(from, w', c, spec, Unset, true) && c !in w'.threads
  {
    hide VolumeName, MergePatch, MoveInit, MoveHot, MoveWait, MoveSsh, MoveRestore, MoveDone, MoveClean;
  }

  lemma InitReadSnap(from: World, w: World, c: Name, spec: Spec, vmi: Vmi)
    requires Snap(from, w, c, spec, Unset, true) && Working(w, c, InitRead) && (OnePvc(from, spec) || OneSnapshot(spec))
    ensures var w' := Step(w, Act(c, SawVmi(vmi)));
            && Snap(from, w', c, spec, Unset, true)
            && Working(w', c, InitMount(MountPath(DetectGuestOs(vmi), SourceName(c, spec.source))))
  {
    hide VolumeName, MergePatch, MountPath, DetectGuestOs, MoveHot, MoveWait, MoveSsh, MoveRestore, MoveDone, MoveClean;
  }

  lemma InitMountSnap(from: World, w: World, c: Name, spec: Spec, path: string)
    requires Snap(from, w, c, spec, Unset, true) && Working(w, c, InitMount(path))
    ensures var w' := Step(w, Act(c, Ok)); Snap(from, w', c, spec, Unset, true) && Working(w', c, Advance(Hotplugging))
  {
    hide VolumeName, MergePatch, MountPath, DetectGuestOs, MoveHot, MoveWait, MoveSsh, MoveRestore, MoveDone, MoveClean;
  }

  lemma AdvanceSnap(from: World, w: World, c: Name, spec: Spec)
    requires Snap(from, w, c, spec, Unset, true) && Working(w, c, Advance(Hotplugging))
    ensures var w' := Step(w, Act(c, Ok)); Snap(from, w', c, spec, Hotplugging, true) && c !in w'.threads
  {
    hide VolumeName, MergePatch, MoveInit, MoveHot, MoveWait, MoveSsh, MoveRestore, MoveDone, MoveClean;
  }

  /** The scan of a version of the VM, which may be an old one. */
  lemma ScanSnap(from: World, w: World, c: Name, spec: Spec, vm: Vm)
    requires Snap(from, w, c, spec, Hotplugging, true) && Working(w, c, HotGet) && (OnePvc(from, spec) || OneSnapshot(spec))
    requires (spec.target, vm) in from.past
    ensures var w' := Step(w, Act(c, SawVm(vm)));
            && Snap(from, w', c, spec, Hotplugging, true)
            && (OnePvc(from, spec) && PlugVerdict(vm, VolumeName(c)) == Absent ==> Working(w', c, HotPatch(vm)))
            && (OneSnapshot(spec) && PlugVerdict(vm, VolumeName(c)) == Absent ==> Working(w', c, HotDv(vm)))
            && (PlugVerdict(vm, VolumeName(c)) == Busy ==> Losing(w', c))
            && (PlugVerdict(vm, VolumeName(c)) == Present ==> Working(w', c, Advance(WaitingForAttachment)))
  {
    hide PlugVerdict, VolumeName, MergePatch, MoveInit, MoveWait, MoveSsh, MoveRestore, MoveDone, MoveClean;
  }

  lemma NoRestoresIsAbsent(vm: Vm, c: Name)
    requires NoRestores(vm)
    ensures PlugVerdict(vm, VolumeName(c)) == Absent && !Mentions(vm, VolumeName(c))
  {
    KeepMembers(vm.volumes, IsRestoreName);
    KeepMembers(vm.disks, IsRestoreName);
  }

  /** A new restore makes its way to the scan of the VM. */
  function Approach(c: Name, spec: Spec, vmi: Vmi, vm: Vm): seq<Event> {
    [CreateCr(c, spec), Start(c), Act(c, Ok), Start(c), Act(c, SawVmi(vmi)), Act(c, Ok), Act(c, Ok), Start(c), Act(c, SawVm(vm))]
  }

  lemma Approaches(w: World, c: Name, spec: Spec, vmi: Vmi, vm: Vm)
    requires c !in w.crs && c !in w.threads && (OnePvc(w, spec) || OneSnapshot(spec)) && (spec.target, vm) in w.past
    ensures var now := Exec(w, Approach(c, spec, vmi, vm));
            && Snap(w, now, c, spec, Hotplugging, true)
            && (OnePvc(w, spec) && PlugVerdict(vm, VolumeName(c)) == Absent ==> Working(now, c, HotPatch(vm)))
            && (OneSnapshot(spec) && PlugVerdict(vm, VolumeName(c)) == Absent ==> Working(now, c, HotDv(vm)))
            && (PlugVerdict(vm, VolumeName(c)) == Busy ==> Losing(now, c))
            && (PlugVerdict(vm, VolumeName(c)) == Present ==> Working(now, c, Advance(WaitingForAttachment)))
  {
    hide Step, Snap, Working, Losing, OnePvc, OneSnapshot, PlugVerdict, MountPath, DetectGuestOs;
    var w1 := Step(w, CreateCr(c, spec));
    assert Snap(w, w1, c, spec, Unset, false) && c !in w1.threads by { CreateSnap(w, c, spec); }
    StartSnap(w, w1, c, spec, Unset, false);
    var w2 := Step(w1, Start(c));
    AddFinalizerSnap(w, w2, c, spec);
    var w3 := Step(w2, Act(c, Ok));
    StartSnap(w, w3, c, spec, Unset, true);
    var w4 := Step(w3, Start(c));
    InitReadSnap(w, w4, c, spec, vmi);
    var w5 := Step(w4, Act(c, SawVmi(vmi)));
    InitMountSnap(w, w5, c, spec, MountPath(DetectGuestOs(vmi), SourceName(c, spec.source)));
    var w6 := Step(w5, Act(c, Ok));
    AdvanceSnap(w, w6, c, spec);
    var w7 := Step(w6, Act(c, Ok));
    StartSnap(w, w7, c, spec, Hotplugging, true);
    ScanSnap(w, Step(w7, Start(c)), c, spec, vm);
    Nine(w, CreateCr(c, spec), Start(c), Act(c, Ok), Start(c), Act(c, SawVmi(vmi)), Act(c, Ok), Act(c, Ok), Start(c), Act(c, SawVm(vm)));
  }

  /** The spec of the target is vm with the volume of c, and nothing else has changed since `from`. */
  predicate Plugged(from: World, w: World, c: Name, spec: Spec, vm: Vm) {
    && c in w.crs && w.crs[c].spec == spec && w.crs[c].finalizer
    && spec.target in from.vms && w.namespace == from.namespace
    && w.vms == from.vms[spec.target := Plug(vm, VolumeName(c), ClaimName(c, spec.source))]
    && from.past <= w.past && (spec.target, w.vms[spec.target]) in w.past && w.dvs == from.dvs && w.excused == from.excused
  }

  /** Plugged, live, in this phase. */
  predicate Holding(from: World, w: World, c: Name, spec: Spec, vm: Vm, phase: Phase, level: nat) {
    Plugged(from, w, c, spec, vm) && !w.crs[c].deleting && w.crs[c].status.phase == phase && Calm(w.crs[c].status, level)
  }

  /** A call that patches nothing and leaves the DataVolume alone keeps what is plugged. */
  lemma QuietCall(from: World, w: World, c: Name, spec: Spec, vm: Vm, x: Outcome)
    requires Plugged(from, w, c, spec, vm) && c in w.threads && !x.Crash? && Possible(w, c, x)
    requires var e := EffectOf(w, c, x); e.patch.None? && e.dv.DvKeep? && !e.gone && e.cr.spec == w.crs[c].spec && e.cr.finalizer
    ensures var e, w' := EffectOf(w, c, x), Step(w, Act(c, x));
            && Plugged(from, w', c, spec, vm) && w'.past == w.past && c in w'.crs
            && w'.crs[c].status == e.cr.status && w'.crs[c].deleting == e.cr.deleting
            && (c in w'.threads <==> e.thread.Some?) && (e.thread.Some? ==> w'.threads[c] == e.thread.value)
  {
    hide Move, VolumeName, MergePatch, Plug;
  }

  /** The hotplug patch takes effect, whatever the VM has become meanwhile; its answer may be lost. */
  lemma PlugCall(from: World, w: World, c: Name, spec: Spec, vm: Vm, x: Outcome)
    requires spec.target in from.vms && Snap(from, w, c, spec, Hotplugging, true) && Applied(x) && Working(w, c, HotPatch(vm))
    ensures var w' := Step(w, Act(c, x));
            && Holding(from, w', c, spec, vm, Hotplugging, 1)
            && Working(w', c, if x.Ok? then Advance(WaitingForAttachment) else FailPatch)
  {
    hide VolumeName, MergePatch, Plug, MoveInit, MoveWait, MoveSsh, MoveRestore, MoveDone, MoveClean;
    PlugPatch(from.vms[spec.target], vm, VolumeName(c), ClaimName(c, spec.source));
  }

  /** An initial cluster, a restore of one PVC, and a VM it can use. */
  ghost predicate Start0(w: World, spec: Spec) { Initial(w) && OnePvc(w, spec) && spec.target in w.vms }

  lemma StartFacts(w: World, c: Name, spec: Spec)
    requires Start0(w, spec)
    ensures c !in w.crs && c !in w.threads && w.dvs == map[] && w.excused == {}
    ensures var vm := w.vms[spec.target];
            (spec.target, vm) in w.past && PlugVerdict(vm, VolumeName(c)) == Absent && !Mentions(vm, VolumeName(c))
  {
    NoRestoresIsAbsent(w.vms[spec.target], c);
  }

  /** From an initial cluster up to the hotplug patch and through it. */
  lemma PlugsFirst(w: World, c: Name, spec: Spec, vmi: Vmi, x: Outcome)
    requires Start0(w, spec) && Applied(x)
    ensures var vm := w.vms[spec.target]; var now := Step(Exec(w, Approach(c, spec, vmi, vm)), Act(c, x));
            && Holding(w, now, c, spec, vm, Hotplugging, 1)
            && Working(now, c, if x.Ok? then Advance(WaitingForAttachment) else FailPatch)
  {
    hide Step, Exec, Initial, PlugVerdict, VolumeName, Snap, Working, Holding, Losing;
    var vm := w.vms[spec.target];
    StartFacts(w, c, spec);
    Approaches(w, c, spec, vmi, vm);
    PlugCall(w, Exec(w, Approach(c, spec, vmi, vm)), c, spec, vm, x);
  }

  lemma WorkingIsThere(w: World, c: Name, pc: Pc)
    requires Working(w, c, pc)
    ensures c in w.threads && w.threads[c].pc == pc && !w.threads[c].deletion && !w.threads[c].vmGone
  {
  }

  lemma HoldingIsPlugged(from: World, w: World, c: Name, spec: Spec, vm: Vm, phase: Phase, level: nat)
    requires Holding(from, w, c, spec, vm, phase, level)
    ensures Plugged(from, w, c, spec, vm) && c in w.crs && w.crs[c].spec == spec && w.crs[c].finalizer && !w.crs[c].deleting
    ensures w.crs[c].status.phase == phase && spec.target in w.vms
  {
  }

  /** In a cluster that started clean, the plugged volume is the only trace of the restore, and it is covered. */
  lemma PluggedIsCovered(from: World, w: World, c: Name, spec: Spec)
    requires Initial(from) && spec.target in from.vms && Plugged(from, w, c, spec, from.vms[spec.target])
    ensures Covered(w, c) && !Leaked(w, c) && spec.target in w.vms && Holds(w.vms[spec.target], VolumeName(c)) && Mentions(w.vms[spec.target], VolumeName(c))
  {
    forall t | t in from.vms ensures !Mentions(from.vms[t], VolumeName(c)) { NoRestoresIsAbsent(from.vms[t], c); }
    PlugHolds(from.vms[spec.target], VolumeName(c), ClaimName(c, spec.source));
  }

  lemma PlugHolds(vm: Vm, name: string, claim: string)
    ensures Holds(Plug(vm, name, claim), name) && Mentions(Plug(vm, name, claim), name)
  {
    var p := Plug(vm, name, claim);
    assert Entry(name, claim) in p.volumes && Entry(name, name) in p.disks;
  }

  // ---------------------------------------------------------------------------
  // Deletions
  // ---------------------------------------------------------------------------

  lemma CrashPlugged(from: World, w: World, c: Name, spec: Spec, vm: Vm)
    requires Plugged(from, w, c, spec, vm) && c in w.threads
    ensures var w' := Step(w, Act(c, Crash)); Plugged(from, w', c, spec, vm) && c !in w'.threads && w'.crs == w.crs
  {
    hide VolumeName, Plug;
  }

  /** A deletion's cleanup of a plugged restore is at pc. */
  predicate Deleting(from: World, w: World, c: Name, spec: Spec, vm: Vm, pc: Pc) {
    && Plugged(from, w, c, spec, vm) && w.crs[c].deleting
    && c in w.threads && w.threads[c].pc == pc && w.threads[c].deletion && w.threads[c].clean
  }

  lemma DeletionStarts(from: World, w: World, c: Name, spec: Spec, vm: Vm)
    requires Plugged(from, w, c, spec, vm) && c !in w.threads
    ensures Deleting(from, Step(Step(w, DeleteCr(c)), Start(c)), c, spec, vm, CleanGuest)
  {
    hide VolumeName, MergePatch, Plug;
    var w1 := Step(w, DeleteCr(c));
    assert Plugged(from, w1, c, spec, vm) && w1.crs[c].deleting && c !in w1.threads;
  }

  lemma DeletionCleans(from: World, w: World, c: Name, spec: Spec, vm: Vm)
    requires Deleting(from, w, c, spec, vm, CleanGuest)
    ensures var w' := Step(w, Act(c, Ok)); Deleting(from, w', c, spec, vm, CleanGet) && w'.past == w.past
  {
    DeletingIsPlugged(from, w, c, spec, vm, CleanGuest);
    hide Step, Plugged, VolumeName, Plug, MoveInit, MoveHot, MoveWait, MoveSsh, MoveRestore, MoveDone;
    QuietCall(from, w, c, spec, vm, Ok);
  }

  lemma DeletionLooks(from: World, w: World, c: Name, spec: Spec, vm: Vm, seen: Vm)
    requires Deleting(from, w, c, spec, vm, CleanGet) && (spec.target, seen) in w.past
    ensures Deleting(from, Step(w, Act(c, SawVm(seen))), c, spec, vm, CleanPatch(seen))
  {
    DeletingIsPlugged(from, w, c, spec, vm, CleanGet);
    hide Step, Plugged, VolumeName, Plug, MoveInit, MoveHot, MoveWait, MoveSsh, MoveRestore, MoveDone;
    QuietCall(from, w, c, spec, vm, SawVm(seen));
  }

  /** Plugged, crashed, deleted, and the deletion's cleanup reads the version `seen`. */
  function Deletion(c: Name, spec: Spec, vmi: Vmi, vm: Vm, seen: Vm): seq<Event> {
    Approach(c, spec, vmi, vm)
    + [Act(c, Ok), Act(c, Crash), DeleteCr(c)] + [Start(c), Act(c, Ok), Act(c, SawVm(seen))]
  }

  /** Which may be the version before the hotplug or the one behind it. */
  lemma DeletionReads(w: World, c: Name, spec: Spec, vmi: Vmi, seen: Vm)
    requires Start0(w, spec)
    requires var vm := w.vms[spec.target]; seen == vm || seen == Plug(vm, VolumeName(c), ClaimName(c, spec.source))
    ensures var vm := w.vms[spec.target];
            Deleting(w, Exec(w, Deletion(c, spec, vmi, vm, seen)), c, spec, vm, CleanPatch(seen))
  {
    hide Step, Exec, Initial, Plug, Deleting, Working, Holding, VolumeName, OnePvc;
    var vm := w.vms[spec.target];
    var w0 := Exec(w, Approach(c, spec, vmi, vm));
    PlugsFirst(w, c, spec, vmi, Ok);
    var w1 := Step(w0, Act(c, Ok));
    WorkingIsThere(w1, c, Advance(WaitingForAttachment));
    HoldingIsPlugged(w, w1, c, spec, vm, Hotplugging, 1);
    CrashPlugged(w, w1, c, spec, vm);
    var w2 := Step(w1, Act(c, Crash));
    DeletionStarts(w, w2, c, spec, vm);
    var w3 := Step(Step(w2, DeleteCr(c)), Start(c));
    DeletionCleans(w, w3, c, spec, vm);
    var w4 := Step(w3, Act(c, Ok));
    assert (spec.target, seen) in w4.past by {
      StartFacts(w, c, spec);
      DeletingIsPlugged(w, w4, c, spec, vm, CleanGet);
    }
    DeletionLooks(w, w4, c, spec, vm, seen);
    ExecAppend(w0, [Act(c, Ok), Act(c, Crash), DeleteCr(c)], [Start(c), Act(c, Ok), Act(c, SawVm(seen))]);
    Three(w0, Act(c, Ok), Act(c, Crash), DeleteCr(c));
    Three(Step(w2, DeleteCr(c)), Start(c), Act(c, Ok), Act(c, SawVm(seen)));
    ExecAppend(w, Approach(c, spec, vmi, vm), [Act(c, Ok), Act(c, Crash), DeleteCr(c)] + [Start(c), Act(c, Ok), Act(c, SawVm(seen))]);
    assert Deletion(c, spec, vmi, vm, seen)
        == Approach(c, spec, vmi, vm) + ([Act(c, Ok), Act(c, Crash), DeleteCr(c)] + [Start(c), Act(c, Ok), Act(c, SawVm(seen))]);
  }

  lemma DeletingIsPlugged(from: World, w: World, c: Name, spec: Spec, vm: Vm, pc: Pc)
    requires Deleting(from, w, c, spec, vm, pc)
    ensures Plugged(from, w, c, spec, vm) && c in w.crs && w.crs[c].spec == spec
    ensures from.past <= w.past && spec.target in from.vms && (spec.target, Plug(vm, VolumeName(c), ClaimName(c, spec.source))) in w.past
    ensures c in w.threads && w.threads[c].pc == pc && w.threads[c].deletion && w.threads[c].clean
  {
  }

  /**
   A stale read in the deletion's cleanup: every call is answered, the finalizer goes, the deletion
   counts as clean, and the volume stays in the spec with nobody to answer for it.
   */
  lemma StaleDeletionLeaks(w: World, c: Name, spec: Spec, vmi: Vmi)
    requires Start0(w, spec)
    ensures var vm := w.vms[spec.target]; var now := Exec(w, Deletion(c, spec, vmi, vm, vm) + Acts(c, [Ok, Ok]));
            && c !in now.crs && c !in now.threads && !Leaked(now, c)
            && spec.target in now.vms && Mentions(now.vms[spec.target], VolumeName(c))
  {
    hide Step, Exec, Initial, Plugged, Deleting, Mentions, VolumeName, VmInv, Covered, Holds;
    var vm := w.vms[spec.target];
    var events := Deletion(c, spec, vmi, vm, vm);
    DeletionReads(w, c, spec, vmi, vm);
    var at := Exec(w, events);
    DeletingIsPlugged(w, at, c, spec, vm, CleanPatch(vm));
    ReachableVms(w, events);
    PluggedIsCovered(w, at, c, spec);
    StartFacts(w, c, spec);
    DeletionCovers(at, c);
    ExecAppend(w, events, Acts(c, [Ok, Ok]));
    OwnCallsAreARun(at, c, [Ok, Ok]);
  }

  // ---------------------------------------------------------------------------
  // A restore that comes back under its old name
  // ---------------------------------------------------------------------------

  /** Restore c is gone and has left its volume in the VM. */
  predicate LeftBy(from: World, w: World, c: Name, spec: Spec, finalizing: bool) {
    && (if finalizing then c in w.crs && w.crs[c].deleting && c in w.threads && w.threads[c].pc == Finalize(0)
        else c !in w.crs && c !in w.threads)
    && w.namespace == from.namespace && spec.target in from.vms
    && w.vms == from.vms[spec.target := Plug(from.vms[spec.target], VolumeName(c), ClaimName(c, spec.source))]
    && (spec.target, w.vms[spec.target]) in w.past
  }

  /** The deletion's patch, computed from the version before the hotplug, changes nothing. */
  lemma UnplugMisses(from: World, w: World, c: Name, spec: Spec)
    requires spec.target in from.vms && spec.source.snapshot.None? && PlugVerdict(from.vms[spec.target], VolumeName(c)) == Absent
    requires Deleting(from, w, c, spec, from.vms[spec.target], CleanPatch(from.vms[spec.target]))
    ensures LeftBy(from, Step(w, Act(c, Ok)), c, spec, true)
  {
    var vm, name, claim := from.vms[spec.target], VolumeName(c), ClaimName(c, spec.source);
    WithoutIsId(vm.volumes, name);
    WithoutIsId(vm.disks, name);
    assert MergePatch(Plug(vm, name, claim), vm, Unplug(vm, name)) == Plug(vm, name, claim);
    hide VolumeName, MergePatch, Plug, Unplug, PlugVerdict, ClaimName, Move;
    UnplugMove(c, w.crs[c], w.threads[c], ViewOf(w, c));
  }

  lemma LeavesVolume(from: World, w: World, c: Name, spec: Spec)
    requires LeftBy(from, w, c, spec, true)
    ensures LeftBy(from, Step(w, Act(c, Ok)), c, spec, false)
  {
    hide VolumeName, MergePatch, Plug, MoveInit, MoveHot, MoveWait, MoveSsh, MoveRestore, MoveDone, MoveClean;
  }

  /** The leak, and behind it a new restore of that name for the same VM. */
  function Comeback(c: Name, spec: Spec, again: Spec, vmi: Vmi, vm: Vm): seq<Event> {
    Deletion(c, spec, vmi, vm, vm) + [Act(c, Ok), Act(c, Ok)]
    + (Approach(c, again, vmi, Plug(vm, VolumeName(c), ClaimName(c, spec.source))) + [Act(c, Ok)])
  }

  /**
   A restore created again under its old name, for the same VM and another PVC, takes over the volume
   its predecessor leaked and goes on with it: the volume it waits for points at the old PVC.
   */
  lemma LeakedVolumeIsAdopted(w: World, c: Name, spec: Spec, again: Spec, vmi: Vmi)
    requires Start0(w, spec) && OnePvc(w, again) && again.target == spec.target
    ensures var now := Exec(w, Comeback(c, spec, again, vmi, w.vms[spec.target]));
            && c in now.crs && now.crs[c].spec == again && now.crs[c].status.phase.WaitingForAttachment?
            && spec.target in now.vms && Entry(VolumeName(c), spec.source.pvc.value.name) in now.vms[spec.target].volumes
  {
    hide Step, Exec, Initial, Plug, Deleting, Working, Snap, LeftBy, VolumeName, PlugVerdict, OnePvc;
    var vm := w.vms[spec.target];
    var left := Plug(vm, VolumeName(c), ClaimName(c, spec.source));
    var lost := Deletion(c, spec, vmi, vm, vm);
    assert spec.source.pvc.Some? && spec.source.snapshot.None? by { PvcOnly(w, spec); }
    DeletionReads(w, c, spec, vmi, vm);
    StartFacts(w, c, spec);
    var w1 := Exec(w, lost);
    UnplugMisses(w, w1, c, spec);
    LeavesVolume(w, Step(w1, Act(c, Ok)), c, spec);
    var w2 := Step(Step(w1, Act(c, Ok)), Act(c, Ok));
    Two(w1, Act(c, Ok), Act(c, Ok));
    LeftIsThere(w, w2, c, spec);
    SameNamespace(w, w2, again);
    Approaches(w2, c, again, vmi, left);
    ReachableVms(w, lost + [Act(c, Ok), Act(c, Ok)]);
    ExecAppend(w, lost, [Act(c, Ok), Act(c, Ok)]);
    assert PlugVerdict(left, VolumeName(c)) == Present by { PluggedIsPresent(w, vm, c, spec); }
    var w3 := Exec(w2, Approach(c, again, vmi, left));
    Adopted(w2, w3, c, again);
    ExecAppend(w2, Approach(c, again, vmi, left), [Act(c, Ok)]);
    One(w3, Act(c, Ok));
    ExecAppend(w, lost + [Act(c, Ok), Act(c, Ok)], Approach(c, again, vmi, left) + [Act(c, Ok)]);
    assert Entry(VolumeName(c), spec.source.pvc.value.name) in left.volumes by { PlugEntry(vm, c, spec); }
  }

  lemma PvcOnly(w: World, spec: Spec)
    requires OnePvc(w, spec)
    ensures spec.source.pvc.Some? && spec.source.snapshot.None?
  {
  }

  lemma LeftIsThere(from: World, w: World, c: Name, spec: Spec)
    requires LeftBy(from, w, c, spec, false)
    ensures c !in w.crs && c !in w.threads && w.namespace == from.namespace && spec.target in w.vms
    ensures var left := Plug(from.vms[spec.target], VolumeName(c), ClaimName(c, spec.source)); w.vms[spec.target] == left && (spec.target, left) in w.past
  {
  }

  lemma PluggedIsPresent(w: World, vm: Vm, c: Name, spec: Spec)
    requires Initial(w) && spec.target in w.vms && vm == w.vms[spec.target]
    ensures PlugVerdict(Plug(vm, VolumeName(c), ClaimName(c, spec.source)), VolumeName(c)) == Present
  {
    NoRestoresIsAbsent(vm, c);
    PlugHolds(vm, VolumeName(c), ClaimName(c, spec.source));
    RehotplugIsNoop(vm, VolumeName(c), ClaimName(c, spec.source));
  }

  lemma PlugEntry(vm: Vm, c: Name, spec: Spec)
    requires spec.source.pvc.Some?
    ensures Entry(VolumeName(c), spec.source.pvc.value.name) in Plug(vm, VolumeName(c), ClaimName(c, spec.source)).volumes
  {
  }

  lemma Adopted(from: World, w: World, c: Name, spec: Spec)
    requires Snap(from, w, c, spec, Hotplugging, true) && Working(w, c, Advance(WaitingForAttachment))
    ensures var w' := Step(w, Act(c, Ok));
            c in w'.crs && w'.crs[c].spec == spec && w'.crs[c].status.phase.WaitingForAttachment? && w'.vms == from.vms
  {
    hide VolumeName, MergePatch, MoveInit, MoveHot, MoveWait, MoveSsh, MoveRestore, MoveDone, MoveClean;
  }

  /** The cluster is as in `from`, but the VM has had the volume of c once. */
  predicate BackAgain(from: World, w: World, c: Name, spec: Spec) {
    && c !in w.crs && c !in w.threads && w.namespace == from.namespace && w.vms == from.vms && w.dvs == from.dvs
    && spec.target in from.vms && from.past <= w.past
    && (spec.target, Plug(from.vms[spec.target], VolumeName(c), ClaimName(c, spec.source))) in w.past
  }

  /** A deletion that reads the current version leaves no trace but history. */
  lemma DeletionRestores(from: World, w: World, c: Name, spec: Spec)
    requires spec.target in from.vms && spec.source.snapshot.None? && PlugVerdict(from.vms[spec.target], VolumeName(c)) == Absent
    requires var vm := from.vms[spec.target];
             Deleting(from, w, c, spec, vm, CleanPatch(Plug(vm, VolumeName(c), ClaimName(c, spec.source))))
    ensures BackAgain(from, Step(Step(w, Act(c, Ok)), Act(c, Ok)), c, spec)
  {
    hide Step, VolumeName, Plug, PlugVerdict, Deleting;
    UnplugsAll(from, w, c, spec);
    LeavesCluster(from, Step(w, Act(c, Ok)), c, spec);
  }

  /** The deletion's patch is through and the VM as before. */
  predicate Unloaded(from: World, w: World, c: Name, spec: Spec) {
    && c in w.crs && w.crs[c].deleting && c in w.threads && w.threads[c].pc == Finalize(0) && w.threads[c].clean
    && w.namespace == from.namespace && w.vms == from.vms && w.dvs == from.dvs && spec.target in from.vms && from.past <= w.past
    && (spec.target, Plug(from.vms[spec.target], VolumeName(c), ClaimName(c, spec.source))) in w.past
  }

  lemma UnplugsAll(from: World, w: World, c: Name, spec: Spec)
    requires spec.target in from.vms && spec.source.snapshot.None? && PlugVerdict(from.vms[spec.target], VolumeName(c)) == Absent
    requires var vm := from.vms[spec.target];
             Deleting(from, w, c, spec, vm, CleanPatch(Plug(vm, VolumeName(c), ClaimName(c, spec.source))))
    ensures Unloaded(from, Step(w, Act(c, Ok)), c, spec)
  {
    var vm, name, claim := from.vms[spec.target], VolumeName(c), ClaimName(c, spec.source);
    UnplugUndoesPlug(vm, name, claim);
    assert MergePatch(Plug(vm, name, claim), Plug(vm, name, claim), vm) == vm;
    hide VolumeName, MergePatch, Plug, Unplug, PlugVerdict, ClaimName, Move;
    UnplugMove(c, w.crs[c], w.threads[c], ViewOf(w, c));
  }

  lemma LeavesCluster(from: World, w: World, c: Name, spec: Spec)
    requires Unloaded(from, w, c, spec)
    ensures BackAgain(from, Step(w, Act(c, Ok)), c, spec)
  {
    hide VolumeName, MergePatch, Plug, MoveInit, MoveHot, MoveWait, MoveSsh, MoveRestore, MoveDone, MoveClean;
  }

  // ---------------------------------------------------------------------------
  // A loser takes the holder's volume away
  // ---------------------------------------------------------------------------

  /** Restore a was there before and left cleanly; b holds the VM; a comes again, loses, and its cleanup reads the version that shows a. */
  function LosersCleanup(a: Name, specA: Spec, b: Name, specB: Spec, vmi: Vmi, vm: Vm): seq<Event> {
    var vmA, vmB := Plug(vm, VolumeName(a), ClaimName(a, specA.source)), Plug(vm, VolumeName(b), ClaimName(b, specB.source));
    (Deletion(a, specA, vmi, vm, vmA) + [Act(a, Ok), Act(a, Ok)])
    + (Approach(b, specB, vmi, vm) + [Act(b, Ok)])
    + Approach(a, specA, vmi, vmB)
    + ([Act(a, Ok), Act(a, Ok), Act(a, SawVm(vmA))] + [Act(a, Ok)])
  }

  /** b is live behind its hotplug. */
  predicate Alive(w: World, b: Name, spec: Spec) {
    && b in w.crs && w.crs[b].spec == spec && !w.crs[b].deleting && w.crs[b].finalizer && w.crs[b].status.phase.Hotplugging?
    && Working(w, b, Advance(WaitingForAttachment))
  }

  lemma FirstVisit(w: World, a: Name, spec: Spec, vmi: Vmi)
    requires Start0(w, spec)
    ensures var vm := w.vms[spec.target]; var vmA := Plug(vm, VolumeName(a), ClaimName(a, spec.source));
            BackAgain(w, Exec(w, Deletion(a, spec, vmi, vm, vmA) + [Act(a, Ok), Act(a, Ok)]), a, spec)
  {
    hide Step, Exec, Initial, Plug, Deleting, VolumeName, PlugVerdict;
    var vm := w.vms[spec.target];
    var vmA := Plug(vm, VolumeName(a), ClaimName(a, spec.source));
    DeletionReads(w, a, spec, vmi, vmA);
    var at := Exec(w, Deletion(a, spec, vmi, vm, vmA));
    StartFacts(w, a, spec);
    DeletionRestores(w, at, a, spec);
    ExecAppend(w, Deletion(a, spec, vmi, vm, vmA), [Act(a, Ok), Act(a, Ok)]);
    Two(at, Act(a, Ok), Act(a, Ok));
  }

  lemma SecondVisit(w: World, b: Name, spec: Spec, vmi: Vmi, vm: Vm)
    requires b !in w.crs && b !in w.threads && OnePvc(w, spec) && spec.target in w.vms && w.vms[spec.target] == vm
    requires (spec.target, vm) in w.past && PlugVerdict(vm, VolumeName(b)) == Absent
    ensures var now := Exec(w, Approach(b, spec, vmi, vm) + [Act(b, Ok)]); Plugged(w, now, b, spec, vm) && Alive(now, b, spec)
  {
    hide Step, Exec, Plugged, Holding, Working, Snap, Losing, OnePvc, PlugVerdict, VolumeName;
    var at := Exec(w, Approach(b, spec, vmi, vm));
    Approaches(w, b, spec, vmi, vm);
    PlugCall(w, at, b, spec, vm, Ok);
    var now := Step(at, Act(b, Ok));
    HoldingIsPlugged(w, now, b, spec, vm, Hotplugging, 1);
    ExecAppend(w, Approach(b, spec, vmi, vm), [Act(b, Ok)]);
    assert Exec(at, [Act(b, Ok)]) == now by { One(at, Act(b, Ok)); }
  }

  lemma One(w: World, e: Event)
    ensures Exec(w, [e]) == Step(w, e)
  {
    assert [e][..0] == [];
  }

  /** The losing cleanup from the scan on: nothing of the VM changes up to its patch. */
  lemma LosersCalls(w: World, a: Name, spec: Spec, vmA: Vm)
    requires a in w.crs && w.crs[a].spec == spec && Losing(w, a) && (spec.target, vmA) in w.past
    ensures var now := Exec(w, [Act(a, Ok), Act(a, Ok), Act(a, SawVm(vmA))]); Arrived(w, now, a, CleanPatch(vmA))
  {
    hide Step, Exec;
    FailPatchCall(w, a, Ok);
    var w1 := Step(w, Act(a, Ok));
    CleanGuestCall(w, w1, a, Ok);
    CleanGetCall(w, Step(w1, Act(a, Ok)), a, SawVm(vmA));
    Three(w, Act(a, Ok), Act(a, Ok), Act(a, SawVm(vmA)));
  }

  lemma ApproachConcerns(c: Name, spec: Spec, vmi: Vmi, vm: Vm, more: seq<Event>)
    requires forall i :: 0 <= i < |more| ==> Concerns(more[i], c)
    ensures var events := Approach(c, spec, vmi, vm) + more; forall i :: 0 <= i < |events| ==> Concerns(events[i], c)
  {
  }

  lemma DeletionConcerns(c: Name, spec: Spec, vmi: Vmi, vm: Vm, seen: Vm)
    ensures var events := Deletion(c, spec, vmi, vm, seen) + [Act(c, Ok), Act(c, Ok)];
            forall i :: 0 <= i < |events| ==> Concerns(events[i], c)
  {
    hide Approach;
    ApproachConcerns(c, spec, vmi, vm, []);
    assert Approach(c, spec, vmi, vm) + [] == Approach(c, spec, vmi, vm);
  }

  lemma AliveStays(a: World, b: World, d: Name, spec: Spec)
    requires Alive(a, d, spec) && SameRestore(a, b, d)
    ensures Alive(b, d, spec)
  {
  }

  /** Up to the moment before the losing cleanup's patch. */
  lemma LosersWay(w: World, a: Name, specA: Spec, b: Name, specB: Spec, vmi: Vmi)
    requires Start0(w, specA) && Start0(w, specB) && specA.target == specB.target && a != b
    ensures var vm := w.vms[specA.target];
            var vmA, vmB := Plug(vm, VolumeName(a), ClaimName(a, specA.source)), Plug(vm, VolumeName(b), ClaimName(b, specB.source));
            var u2 := Exec(w, (Deletion(a, specA, vmi, vm, vmA) + [Act(a, Ok), Act(a, Ok)]) + (Approach(b, specB, vmi, vm) + [Act(b, Ok)]));
            && a !in u2.crs && a !in u2.threads && u2.namespace == w.namespace && Alive(u2, b, specB)
            && specA.target in u2.vms && u2.vms[specA.target] == vmB
            && (specA.target, vmA) in u2.past && (specA.target, vmB) in u2.past
  {
    hide Step, Exec, Initial, Plug, VolumeName, PlugVerdict, Approach, Deletion, Alive, OnePvc;
    var vm := w.vms[specA.target];
    var vmA := Plug(vm, VolumeName(a), ClaimName(a, specA.source));
    var first := Deletion(a, specA, vmi, vm, vmA) + [Act(a, Ok), Act(a, Ok)];
    var second := Approach(b, specB, vmi, vm) + [Act(b, Ok)];
    FirstVisit(w, a, specA, vmi);
    var u1 := Exec(w, first);
    StartFacts(w, b, specB);
    DeletionConcerns(a, specA, vmi, vm, vmA);
    RunSparesOthers(w, first, a, b);
    assert OnePvc(u1, specB) by { SameNamespace(w, u1, specB); }
    SecondVisit(u1, b, specB, vmi, vm);
    ApproachConcerns(b, specB, vmi, vm, [Act(b, Ok)]);
    RunSparesOthers(u1, second, b, a);
    ExecAppend(w, first, second);
  }

  lemma SameNamespace(a: World, b: World, spec: Spec)
    requires OnePvc(a, spec) && a.namespace == b.namespace
    ensures OnePvc(b, spec)
  {
  }

  /**
   The cleanup of a restore that lost the contest for the VM reads a version that still shows its own
   name, and its patch takes the volume of the holder, who is live, out of the spec.
   */
  lemma LoserTakesVolumeAway(w: World, a: Name, specA: Spec, b: Name, specB: Spec, vmi: Vmi)
    requires Start0(w, specA) && Start0(w, specB) && specA.target == specB.target && a != b
    ensures var now := Exec(w, LosersCleanup(a, specA, b, specB, vmi, w.vms[specA.target])); Alive(now, b, specB) && !HoldsNow(now, b)
  {
    hide Step, Exec, Initial, Plug, VolumeName, PlugVerdict, Mentions, Holds, Exclusive, Approach, Deletion, Alive, OnePvc, VmInv, Snap, Losing, Working;
    var t := specA.target;
    var vm := w.vms[t];
    var vmA, vmB := Plug(vm, VolumeName(a), ClaimName(a, specA.source)), Plug(vm, VolumeName(b), ClaimName(b, specB.source));
    var way := (Deletion(a, specA, vmi, vm, vmA) + [Act(a, Ok), Act(a, Ok)]) + (Approach(b, specB, vmi, vm) + [Act(b, Ok)]);
    LosersWay(w, a, specA, b, specB, vmi);
    var u2 := Exec(w, way);
    ReachableVms(w, way);
    LoserComesBack(u2, a, specA, b, specB, vmi, vmA, vmB) by {
      SameNamespace(w, u2, specA);
      PlugHolds(vm, VolumeName(b), ClaimName(b, specB.source));
      PlugHolds(vm, VolumeName(a), ClaimName(a, specA.source));
    }
    var again, calls := Approach(a, specA, vmi, vmB), [Act(a, Ok), Act(a, Ok), Act(a, SawVm(vmA))];
    ReachableVms(w, way + (again + calls));
    ExecAppend(w, way, again + calls);
    LoserPatches(Exec(u2, again + calls), a, specA, b, specB, vmA, vmB) by {
      PlugHolds(vm, VolumeName(b), ClaimName(b, specB.source));
      PlugHolds(vm, VolumeName(a), ClaimName(a, specA.source));
    }
    ExecAppend(w, way + (again + calls), [Act(a, Ok)]);
    One(Exec(w, way + (again + calls)), Act(a, Ok));
    assert LosersCleanup(a, specA, b, specB, vmi, vm) == way + (again + calls) + [Act(a, Ok)];
  }

  lemma LoserComesBack(w: World, a: Name, specA: Spec, b: Name, specB: Spec, vmi: Vmi, vmA: Vm, vmB: Vm)
    requires a != b && a !in w.crs && a !in w.threads && OnePvc(w, specA) && VmInv(w) && Alive(w, b, specB) && specA.target == specB.target
    requires var t := specA.target; t in w.vms && w.vms[t] == vmB && (t, vmA) in w.past && (t, vmB) in w.past && Holds(vmB, VolumeName(b))
    ensures var now := Exec(w, Approach(a, specA, vmi, vmB) + [Act(a, Ok), Act(a, Ok), Act(a, SawVm(vmA))]);
            && Alive(now, b, specB) && now.vms == w.vms
            && a in now.crs && a in now.threads && now.crs[a].spec == specA && now.threads[a].pc == CleanPatch(vmA)
  {
    hide Step, Exec, VolumeName, PlugVerdict, Mentions, Holds, Exclusive, Approach, Alive, OnePvc, Inv, Working, Losing;
    var t := specA.target;
    VersionExclusive(w, t, vmB);
    HolderIsBusy(vmB, b, a);
    Approaches(w, a, specA, vmi, vmB);
    var u := Exec(w, Approach(a, specA, vmi, vmB));
    var calls := [Act(a, Ok), Act(a, Ok), Act(a, SawVm(vmA))];
    LosersCalls(u, a, specA, vmA);
    ExecAppend(w, Approach(a, specA, vmi, vmB), calls);
    ApproachConcerns(a, specA, vmi, vmB, calls);
    RunSparesOthers(w, Approach(a, specA, vmi, vmB) + calls, a, b);
    AliveStays(w, Exec(w, Approach(a, specA, vmi, vmB) + calls), b, specB);
  }

  lemma LoserPatches(w: World, a: Name, specA: Spec, b: Name, specB: Spec, vmA: Vm, vmB: Vm)
    requires a != b && VmInv(w) && Alive(w, b, specB) && specA.target == specB.target
    requires a in w.crs && a in w.threads && w.crs[a].spec == specA && w.threads[a].pc == CleanPatch(vmA)
    requires var t := specA.target; t in w.vms && w.vms[t] == vmB && Holds(vmB, VolumeName(b)) && Mentions(vmA, VolumeName(a))
    ensures var now := Step(w, Act(a, Ok)); Alive(now, b, specB) && !HoldsNow(now, b)
  {
    hide VmInv, Holds, Mentions, VolumeName, StepAct, Working;
    HoldLostExactly(w, a, Ok, b);
    StepSparesOthers(w, Act(a, Ok), a, b);
    AliveStays(w, Step(w, Act(a, Ok)), b, specB);
  }

  // ---------------------------------------------------------------------------
  // Racing hotplugs
  // ---------------------------------------------------------------------------

  /** Two restores scan one version, then both patch. */
  function Race(a: Name, specA: Spec, b: Name, specB: Spec, vmi: Vmi, vm: Vm): seq<Event> {
    Approach(a, specA, vmi, vm) + Approach(b, specB, vmi, vm) + [Act(a, Ok), Act(b, Ok)]
  }

  /** Both are answered and live, and only the second one's volume is in the spec. */
  lemma RacingHotplugsLoseOne(w: World, a: Name, specA: Spec, b: Name, specB: Spec, vmi: Vmi)
    requires Start0(w, specA) && Start0(w, specB) && specA.target == specB.target && a != b
    ensures var now := Exec(w, Race(a, specA, b, specB, vmi, w.vms[specA.target]));
            && Alive(now, a, specA) && specA.target in now.vms && !HoldsNow(now, a) && !Mentions(now.vms[specA.target], VolumeName(a))
            && Alive(now, b, specB) && HoldsNow(now, b)
  {
    hide Step, Exec, Initial, Plug, VolumeName, PlugVerdict, Mentions, Holds, Approach, OnePvc, VmInv;
    var t := specA.target;
    var vm := w.vms[t];
    StartFacts(w, a, specA);
    StartFacts(w, b, specB);
    Approaches(w, a, specA, vmi, vm);
    var u1 := Exec(w, Approach(a, specA, vmi, vm));
    ApproachConcerns(a, specA, vmi, vm, []);
    assert Approach(a, specA, vmi, vm) + [] == Approach(a, specA, vmi, vm);
    RunSparesOthers(w, Approach(a, specA, vmi, vm), a, b);
    SameNamespace(w, u1, specB);
    Approaches(u1, b, specB, vmi, vm);
    var u2 := Exec(u1, Approach(b, specB, vmi, vm));
    ApproachConcerns(b, specB, vmi, vm, []);
    assert Approach(b, specB, vmi, vm) + [] == Approach(b, specB, vmi, vm);
    RunSparesOthers(u1, Approach(b, specB, vmi, vm), b, a);
    ExecAppend(w, Approach(a, specA, vmi, vm), Approach(b, specB, vmi, vm));
    ExecAppend(w, Approach(a, specA, vmi, vm) + Approach(b, specB, vmi, vm), [Act(a, Ok), Act(b, Ok)]);
    Two(u2, Act(a, Ok), Act(b, Ok));
    ReachableVms(w, Race(a, specA, b, specB, vmi, vm));
    BothPatch(u2, a, specA, b, specB, vm);
  }

  /** Ready to patch from that version. */
  predicate AboutToPlug(w: World, c: Name, spec: Spec, vm: Vm) { Snap(w, w, c, spec, Hotplugging, true) && Working(w, c, HotPatch(vm)) }

  lemma BothPatch(w: World, a: Name, specA: Spec, b: Name, specB: Spec, vm: Vm)
    requires a != b && specA.target == specB.target && specA.target in w.vms && AboutToPlug(w, a, specA, vm) && AboutToPlug(w, b, specB, vm)
    requires VmInv(Step(Step(w, Act(a, Ok)), Act(b, Ok)))
    ensures var now := Step(Step(w, Act(a, Ok)), Act(b, Ok));
            && Alive(now, a, specA) && specA.target in now.vms && !HoldsNow(now, a) && !Mentions(now.vms[specA.target], VolumeName(a))
            && Alive(now, b, specB) && HoldsNow(now, b)
  {
    hide Step, Plug, VolumeName, Mentions, Holds, Inv, Exclusive;
    PlugCall(w, w, a, specA, vm, Ok);
    var u := Step(w, Act(a, Ok));
    StepSparesOthers(w, Act(a, Ok), a, b);
    PlugCall(u, u, b, specB, vm, Ok);
    var now := Step(u, Act(b, Ok));
    StepSparesOthers(u, Act(b, Ok), b, a);
    PlugHolds(vm, VolumeName(b), ClaimName(b, specB.source));
    VersionExclusive(now, specA.target, now.vms[specA.target]);
    NotOther(now.vms[specA.target], b, a);
    HoldsMentions(now.vms[specA.target], VolumeName(a));
  }

  // ---------------------------------------------------------------------------
  // A failure that is never cleaned up
  // ---------------------------------------------------------------------------

  /** The hotplug's answer is lost and so is that of the status patch, or the operator crashes right behind it. */
  function LostFailure(c: Name, spec: Spec, vmi: Vmi, vm: Vm, crash: bool): seq<Event> {
    Approach(c, spec, vmi, vm) + [Act(c, Lost), Act(c, if crash then Ok else Lost), Act(c, Crash)]
  }

  /** The object is Failed and its volume still in the spec, and nothing will ever clean up but a deletion. */
  lemma LostFailureLeavesVolume(w: World, c: Name, spec: Spec, vmi: Vmi, crash: bool, more: seq<Event>)
    requires Start0(w, spec) && DeleteCr(c) !in more
    ensures var now := Exec(w, LostFailure(c, spec, vmi, w.vms[spec.target], crash));
            && Abandoned(now, c) && Abandoned(Exec(now, more), c)
            && spec.target in now.vms && Mentions(now.vms[spec.target], VolumeName(c))
  {
    hide Step, Exec, Initial, Plugged, Working, Holding, Holds, Mentions, VolumeName, Abandoned;
    var vm := w.vms[spec.target];
    var w0 := Exec(w, Approach(c, spec, vmi, vm));
    PlugsFirst(w, c, spec, vmi, Lost);
    var w1 := Step(w0, Act(c, Lost));
    HoldingIsPlugged(w, w1, c, spec, vm, Hotplugging, 1);
    FailsPlugged(w, w1, c, spec, vm, crash);
    var x := if crash then Ok else Lost;
    var now := Step(Step(w1, Act(c, x)), Act(c, Crash));
    Three(w0, Act(c, Lost), Act(c, x), Act(c, Crash));
    ExecAppend(w, Approach(c, spec, vmi, vm), [Act(c, Lost), Act(c, x), Act(c, Crash)]);
    PluggedIsCovered(w, now, c, spec);
    FailedStaysAbandoned(now, more, c);
  }

  lemma FailsPlugged(from: World, w: World, c: Name, spec: Spec, vm: Vm, crash: bool)
    requires Plugged(from, w, c, spec, vm) && Working(w, c, FailPatch) && !w.crs[c].deleting
    ensures var w' := Step(Step(w, Act(c, if crash then Ok else Lost)), Act(c, Crash)); Plugged(from, w', c, spec, vm) && Abandoned(w', c)
  {
    hide VolumeName, MergePatch, Plug, MoveInit, MoveHot, MoveWait, MoveSsh, MoveRestore, MoveDone, MoveClean;
    var w1 := Step(w, Act(c, if crash then Ok else Lost));
    assert Plugged(from, w1, c, spec, vm) && w1.crs[c].status.phase.Failed? && !w1.crs[c].deleting && (c in w1.threads <==> crash);
  }

  // ---------------------------------------------------------------------------
  // Succeeded with the volume still plugged
  // ---------------------------------------------------------------------------

  lemma AdvanceHolding(from: World, w: World, c: Name, spec: Spec, vm: Vm, phase: Phase, level: nat, to: Phase)
    requires Holding(from, w, c, spec, vm, phase, level) && Working(w, c, Advance(to))
    ensures var w' := Step(w, Act(c, Ok)); Holding(from, w', c, spec, vm, to, level) && c !in w'.threads
  {
    HoldingIsPlugged(from, w, c, spec, vm, phase, level);
    hide Step, Plugged, VolumeName, Plug, MoveInit, MoveHot, MoveWait, MoveSsh, MoveRestore, MoveDone, MoveClean;
    QuietCall(from, w, c, spec, vm, Ok);
  }

  function FirstCall(phase: Phase): Pc {
    match phase
    case WaitingForAttachment => WaitVmi
    case SshConnecting => SshStamp
    case Restoring => RestoreRun
    case _ => DoneGet
  }

  lemma StartPlugged(from: World, w: World, c: Name, spec: Spec, vm: Vm)
    requires Plugged(from, w, c, spec, vm) && c !in w.threads
    ensures var e, w' := Dispatch(w.crs[c], ViewOf(w, c)), Step(w, Start(c));
            && Plugged(from, w', c, spec, vm) && w'.past == w.past && c in w'.crs
            && w'.crs[c].status == w.crs[c].status && w'.crs[c].deleting == w.crs[c].deleting
            && (c in w'.threads <==> e.thread.Some?) && (e.thread.Some? ==> w'.threads[c] == e.thread.value)
  {
    hide Dispatch, VolumeName, MergePatch, Plug;
    FailedIsIdle(w.crs[c], ViewOf(w, c));
  }

  lemma StartHolding(from: World, w: World, c: Name, spec: Spec, vm: Vm, phase: Phase, level: nat)
    requires Holding(from, w, c, spec, vm, phase, level) && c !in w.threads
    requires (phase.WaitingForAttachment? && level == 1) || (phase.SshConnecting? && level == 2) || phase.Restoring? || phase.Cleanup?
    ensures var w' := Step(w, Start(c));
            Holding(from, w', c, spec, vm, phase, level) && Working(w', c, FirstCall(phase)) && w'.crs[c].status == w.crs[c].status
  {
    HoldingIsPlugged(from, w, c, spec, vm, phase, level);
    StartPlugged(from, w, c, spec, vm);
    hide Step, Plugged;
  }

  /** The volume is found attached at the first look, the guest answers at the first call, the copy succeeds. */
  lemma WaitVmiHolding(from: World, w: World, c: Name, spec: Spec, vm: Vm, vmi: Vmi)
    requires Holding(from, w, c, spec, vm, WaitingForAttachment, 1) && Working(w, c, WaitVmi)
    requires CheckAttachment(vmi, VolumeName(c)) == Attached
    ensures var w' := Step(w, Act(c, SawVmi(vmi)));
            Holding(from, w', c, spec, vm, WaitingForAttachment, 1) && Working(w', c, WaitStamp(Attached))
  {
    HoldingIsPlugged(from, w, c, spec, vm, WaitingForAttachment, 1);
    hide Step, Plugged, VolumeName, Plug, CheckAttachment, MoveInit, MoveHot, MoveSsh, MoveRestore, MoveDone, MoveClean;
    QuietCall(from, w, c, spec, vm, SawVmi(vmi));
  }

  lemma WaitStampHolding(from: World, w: World, c: Name, spec: Spec, vm: Vm)
    requires Holding(from, w, c, spec, vm, WaitingForAttachment, 1) && Working(w, c, WaitStamp(Attached))
    ensures var w' := Step(w, Act(c, Ok));
            Holding(from, w', c, spec, vm, WaitingForAttachment, 2) && Working(w', c, Advance(SshConnecting))
  {
    HoldingIsPlugged(from, w, c, spec, vm, WaitingForAttachment, 1);
    hide Step, Plugged, VolumeName, Plug, Move;
    StampMove(c, w.crs[c], w.threads[c], ViewOf(w, c));
    QuietCall(from, w, c, spec, vm, Ok);
  }

  lemma StampMove(c: Name, cr: Cr, th: Thread, v: View)
    requires th.pc == WaitStamp(Attached) && cr.status.attachmentRetries == 0
    ensures var e := Move(c, cr, th, v, Ok);
            && e.patch.None? && e.dv.DvKeep? && !e.gone && e.cr.spec == cr.spec && e.cr.finalizer == cr.finalizer && e.cr.deleting == cr.deleting
            && e.cr.status == cr.status.(lastAttachment := Some(Seconds(v.clock))) && e.thread == Some(th.(pc := Advance(SshConnecting)))
  {
    hide MoveInit, MoveHot, MoveSsh, MoveRestore, MoveDone, MoveClean;
  }

  lemma SshStampHolding(from: World, w: World, c: Name, spec: Spec, vm: Vm)
    requires Holding(from, w, c, spec, vm, SshConnecting, 2) && Working(w, c, SshStamp)
    ensures var w' := Step(w, Act(c, Ok)); Holding(from, w', c, spec, vm, SshConnecting, 3) && Working(w', c, SshConnect)
  {
    HoldingIsPlugged(from, w, c, spec, vm, SshConnecting, 2);
    hide Step, Plugged, VolumeName, Plug, MoveInit, MoveHot, MoveWait, MoveRestore, MoveDone, MoveClean;
    QuietCall(from, w, c, spec, vm, Ok);
  }

  lemma SshConnectHolding(from: World, w: World, c: Name, spec: Spec, vm: Vm)
    requires Holding(from, w, c, spec, vm, SshConnecting, 3) && Working(w, c, SshConnect)
    ensures var w' := Step(w, Act(c, Ok)); Holding(from, w', c, spec, vm, SshConnecting, 3) && Working(w', c, Advance(Restoring))
  {
    HoldingIsPlugged(from, w, c, spec, vm, SshConnecting, 3);
    hide Step, Plugged, VolumeName, Plug, MoveInit, MoveHot, MoveWait, MoveRestore, MoveDone, MoveClean;
    QuietCall(from, w, c, spec, vm, Ok);
  }

  lemma CopyHolding(from: World, w: World, c: Name, spec: Spec, vm: Vm, out: string)
    requires Holding(from, w, c, spec, vm, Restoring, 3) && Working(w, c, RestoreRun)
    ensures var w' := Step(w, Act(c, Ran(out))); Holding(from, w', c, spec, vm, Restoring, 3) && Working(w', c, RestorePatch(out))
  {
    HoldingIsPlugged(from, w, c, spec, vm, Restoring, 3);
    hide Step, Plugged, VolumeName, Plug, MoveInit, MoveHot, MoveWait, MoveSsh, MoveDone, MoveClean;
    QuietCall(from, w, c, spec, vm, Ran(out));
  }

  lemma CountHolding(from: World, w: World, c: Name, spec: Spec, vm: Vm, out: string)
    requires Holding(from, w, c, spec, vm, Restoring, 3) && Working(w, c, RestorePatch(out)) && spec.sourcePath != ""
    ensures var w' := Step(w, Act(c, Ok));
            Holding(from, w', c, spec, vm, Cleanup, 3) && c !in w'.threads && w'.crs[c].status.count == Some(FileCount.ReportedCount(out))
  {
    HoldingIsPlugged(from, w, c, spec, vm, Restoring, 3);
    hide Step, Plugged, VolumeName, Plug, FileCount.ReportedCount, MoveInit, MoveHot, MoveWait, MoveSsh, MoveDone, MoveClean;
    QuietCall(from, w, c, spec, vm, Ok);
  }

  /** The same for a manual restore. */
  lemma ReadyHolding(from: World, w: World, c: Name, spec: Spec, vm: Vm, out: string)
    requires Holding(from, w, c, spec, vm, Restoring, 3) && Working(w, c, RestorePatch(out)) && spec.sourcePath == ""
    ensures var w' := Step(w, Act(c, Ok)); Holding(from, w', c, spec, vm, VolumeReady, 3) && c !in w'.threads
  {
    HoldingIsPlugged(from, w, c, spec, vm, Restoring, 3);
    hide Step, Plugged, VolumeName, Plug, FileCount.ReportedCount, MoveInit, MoveHot, MoveWait, MoveSsh, MoveDone, MoveClean;
    QuietCall(from, w, c, spec, vm, Ok);
  }

  lemma DoneHolding(from: World, w: World, c: Name, spec: Spec, vm: Vm, seen: Vm)
    requires Holding(from, w, c, spec, vm, Cleanup, 3) && Working(w, c, DoneGet) && (spec.target, seen) in w.past
    ensures var w' := Step(w, Act(c, SawVm(seen)));
            Holding(from, w', c, spec, vm, Cleanup, 3) && Working(w', c, DonePatch(seen)) && w'.crs[c].status == w.crs[c].status
  {
    HoldingIsPlugged(from, w, c, spec, vm, Cleanup, 3);
    hide Step, Plugged, VolumeName, Plug, MoveInit, MoveHot, MoveWait, MoveSsh, MoveRestore, MoveClean;
    QuietCall(from, w, c, spec, vm, SawVm(seen));
  }

  function Attaching(c: Name, vmi: Vmi): seq<Event> { [Act(c, Ok), Start(c), Act(c, SawVmi(vmi))] + [Act(c, Ok), Act(c, Ok), Start(c)] }
  function Copying(c: Name, out: string): seq<Event> { [Act(c, Ok), Act(c, Ok), Act(c, Ok)] + [Start(c), Act(c, Ran(out)), Act(c, Ok)] }

  lemma Attaches(from: World, w: World, c: Name, spec: Spec, vm: Vm, vmi: Vmi)
    requires Holding(from, w, c, spec, vm, Hotplugging, 1) && Working(w, c, Advance(WaitingForAttachment))
    requires CheckAttachment(vmi, VolumeName(c)) == Attached
    ensures var now := Exec(w, Attaching(c, vmi)); Holding(from, now, c, spec, vm, SshConnecting, 2) && Working(now, c, SshStamp)
  {
    hide Step, Exec, Holding, Working, CheckAttachment, VolumeName;
    AdvanceHolding(from, w, c, spec, vm, Hotplugging, 1, WaitingForAttachment);
    var w1 := Step(w, Act(c, Ok));
    StartHolding(from, w1, c, spec, vm, WaitingForAttachment, 1);
    var w2 := Step(w1, Start(c));
    WaitVmiHolding(from, w2, c, spec, vm, vmi);
    var w3 := Step(w2, Act(c, SawVmi(vmi)));
    WaitStampHolding(from, w3, c, spec, vm);
    var w4 := Step(w3, Act(c, Ok));
    AdvanceHolding(from, w4, c, spec, vm, WaitingForAttachment, 2, SshConnecting);
    StartHolding(from, Step(w4, Act(c, Ok)), c, spec, vm, SshConnecting, 2);
    Three(w, Act(c, Ok), Start(c), Act(c, SawVmi(vmi)));
    Three(w3, Act(c, Ok), Act(c, Ok), Start(c));
    ExecAppend(w, [Act(c, Ok), Start(c), Act(c, SawVmi(vmi))], [Act(c, Ok), Act(c, Ok), Start(c)]);
  }

  lemma Copies(from: World, w: World, c: Name, spec: Spec, vm: Vm, out: string)
    requires Holding(from, w, c, spec, vm, SshConnecting, 2) && Working(w, c, SshStamp)
    ensures var now := Exec(w, Copying(c, out));
            && Holding(from, now, c, spec, vm, if spec.sourcePath == "" then VolumeReady else Cleanup, 3) && c !in now.threads
            && (spec.sourcePath != "" ==> c in now.crs && now.crs[c].status.count == Some(FileCount.ReportedCount(out)))
  {
    hide Step, Exec, Holding, Working, FileCount.ReportedCount;
    SshStampHolding(from, w, c, spec, vm);
    var w1 := Step(w, Act(c, Ok));
    SshConnectHolding(from, w1, c, spec, vm);
    var w2 := Step(w1, Act(c, Ok));
    AdvanceHolding(from, w2, c, spec, vm, SshConnecting, 3, Restoring);
    var w3 := Step(w2, Act(c, Ok));
    StartHolding(from, w3, c, spec, vm, Restoring, 3);
    var w4 := Step(w3, Start(c));
    CopyHolding(from, w4, c, spec, vm, out);
    var w5 := Step(w4, Act(c, Ran(out)));
    if spec.sourcePath == "" {
      ReadyHolding(from, w5, c, spec, vm, out);
    } else {
      CountHolding(from, w5, c, spec, vm, out);
      HoldingIsPlugged(from, Step(w5, Act(c, Ok)), c, spec, vm, Cleanup, 3);
    }
    Three(w, Act(c, Ok), Act(c, Ok), Act(c, Ok));
    Three(w3, Start(c), Act(c, Ran(out)), Act(c, Ok));
    ExecAppend(w, [Act(c, Ok), Act(c, Ok), Act(c, Ok)], [Start(c), Act(c, Ran(out)), Act(c, Ok)]);
  }

  /** From the hotplug to the unplug, every call answered; the VM read of phase Cleanup returns `seen`. */
  function Using(c: Name, vmi: Vmi, out: string, seen: Vm): seq<Event> {
    Attaching(c, vmi) + Copying(c, out) + [Start(c), Act(c, SawVm(seen))]
  }

  /** A restore whose every call is answered, up to the unplug. */
  function WholeRestore(c: Name, spec: Spec, vmi: Vmi, vm: Vm, out: string, seen: Vm): seq<Event> {
    Approach(c, spec, vmi, vm) + [Act(c, Ok)] + Using(c, vmi, out, seen)
  }

  lemma Uses(from: World, w: World, c: Name, spec: Spec, vm: Vm, vmi: Vmi, out: string, seen: Vm)
    requires Holding(from, w, c, spec, vm, Hotplugging, 1) && Working(w, c, Advance(WaitingForAttachment))
    requires spec.sourcePath != "" && CheckAttachment(vmi, VolumeName(c)) == Attached
    requires (spec.target, seen) in from.past || seen == Plug(vm, VolumeName(c), ClaimName(c, spec.source))
    ensures var now := Exec(w, Using(c, vmi, out, seen));
            && Holding(from, now, c, spec, vm, Cleanup, 3) && Working(now, c, DonePatch(seen))
            && c in now.crs && now.crs[c].status.count == Some(FileCount.ReportedCount(out))
  {
    hide Step, Exec, Holding, Working, CheckAttachment, VolumeName, Attaching, Copying, Plug, ClaimName, FileCount.ReportedCount;
    Attaches(from, w, c, spec, vm, vmi);
    var w2 := Exec(w, Attaching(c, vmi));
    Copies(from, w2, c, spec, vm, out);
    ExecAppend(w, Attaching(c, vmi), Copying(c, out));
    var w3 := Exec(w2, Copying(c, out));
    StartHolding(from, w3, c, spec, vm, Cleanup, 3);
    var w4 := Step(w3, Start(c));
    HoldingHistory(from, w4, c, spec, vm, Cleanup, 3);
    DoneHolding(from, w4, c, spec, vm, seen);
    HoldingIsPlugged(from, Step(w4, Act(c, SawVm(seen))), c, spec, vm, Cleanup, 3);
    Two(w3, Start(c), Act(c, SawVm(seen)));
    ExecAppend(w, Attaching(c, vmi) + Copying(c, out), [Start(c), Act(c, SawVm(seen))]);
  }

  lemma ReachesCleanup(w: World, c: Name, spec: Spec, vmi: Vmi, out: string, seen: Vm)
    requires Start0(w, spec) && spec.sourcePath != "" && CheckAttachment(vmi, VolumeName(c)) == Attached
    requires var vm := w.vms[spec.target]; seen == vm || seen == Plug(vm, VolumeName(c), ClaimName(c, spec.source))
    ensures var vm := w.vms[spec.target]; var now := Exec(w, WholeRestore(c, spec, vmi, vm, out, seen));
            && Holding(w, now, c, spec, vm, Cleanup, 3) && Working(now, c, DonePatch(seen))
            && c in now.crs && now.crs[c].status.count == Some(FileCount.ReportedCount(out))
  {
    hide Step, Exec, Initial, Holding, Working, CheckAttachment, VolumeName, Approach, Using, PlugVerdict, Mentions, Plug, ClaimName, FileCount.ReportedCount;
    var vm := w.vms[spec.target];
    var at := Approach(c, spec, vmi, vm);
    PlugsFirst(w, c, spec, vmi, Ok);
    var w1 := Step(Exec(w, at), Act(c, Ok));
    ExecAppend(w, at, [Act(c, Ok)]);
    One(Exec(w, at), Act(c, Ok));
    StartFacts(w, c, spec);
    Uses(w, w1, c, spec, vm, vmi, out, seen);
    ExecAppend(w, at + [Act(c, Ok)], Using(c, vmi, out, seen));
  }

  lemma HoldingHistory(from: World, w: World, c: Name, spec: Spec, vm: Vm, phase: Phase, level: nat)
    requires Holding(from, w, c, spec, vm, phase, level)
    ensures from.past <= w.past && (spec.target, Plug(vm, VolumeName(c), ClaimName(c, spec.source))) in w.past
  {
  }

  /** With the version before the hotplug, it persists Succeeded with its volume and disk still in the spec. */
  lemma StaleSuccessKeepsVolume(w: World, c: Name, spec: Spec, vmi: Vmi, out: string)
    requires Start0(w, spec) && spec.sourcePath != "" && CheckAttachment(vmi, VolumeName(c)) == Attached
    ensures var now := Exec(w, WholeRestore(c, spec, vmi, w.vms[spec.target], out, w.vms[spec.target]) + Acts(c, [Ok, NotFound, Ok]));
            && c in now.crs && now.crs[c].status.phase.Succeeded? && !now.crs[c].hist.vmGone
            && now.crs[c].spec == spec && !Unplugged(now, c)
  {
    hide Step, Exec, Initial, Holding, Plugged, Working, CheckAttachment, VolumeName, WholeRestore, VmInv, Mentions, Holds, Covered;
    var vm := w.vms[spec.target];
    var events := WholeRestore(c, spec, vmi, vm, out, vm);
    ReachesCleanup(w, c, spec, vmi, out, vm);
    var at := Exec(w, events);
    HoldingIsPlugged(w, at, c, spec, vm, Cleanup, 3);
    WorkingIsThere(at, c, DonePatch(vm));
    ReachableVms(w, events);
    PluggedIsCovered(w, at, c, spec);
    StartFacts(w, c, spec);
    assert spec.source.snapshot.None?;
    SuccessUnplugs(at, c, NotFound);
    OwnCallsAreARun(at, c, [Ok, NotFound, Ok]);
    ExecAppend(w, events, Acts(c, [Ok, NotFound, Ok]));
  }
}
