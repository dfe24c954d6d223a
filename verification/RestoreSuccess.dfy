/** A restore that nothing disturbs, from its creation to Succeeded or VolumeReady. */
module RestoreSuccess {
  import opened Text
  import opened VmSpec
  import opened GuestOs
  import opened RestoreModel
  import opened RestoreRaces
  import opened RestoreWitnesses
  import RestoreDecisions
  import FileCount

  // ---------------------------------------------------------------------------
  // Provisioning a snapshot
  // ---------------------------------------------------------------------------

  /** The cluster with the DataVolume of c in this phase. */
  function WithDv(w: World, c: Name, phase: DvPhase): World { w.(dvs := w.dvs[VolumeName(c) := phase]) }

  lemma LooksForDv(from: World, w: World, c: Name, spec: Spec, vm: Vm)
    requires Snap(from, w, c, spec, Hotplugging, true) && Working(w, c, HotDv(vm))
    requires VolumeName(c) !in from.dvs || from.dvs[VolumeName(c)].DvSucceeded?
    ensures var w' := Step(w, Act(c, Ok));
            Snap(from, w', c, spec, Hotplugging, true) && Working(w', c, if VolumeName(c) in from.dvs then HotPatch(vm) else HotCreate(vm))
  {
    hide VolumeName, MergePatch, PlugVerdict, Plug, MoveInit, MoveWait, MoveSsh, MoveRestore, MoveDone, MoveClean;
  }

  lemma CreatesDv(from: World, w: World, c: Name, spec: Spec, vm: Vm)
    requires Snap(from, w, c, spec, Hotplugging, true) && Working(w, c, HotCreate(vm)) && VolumeName(c) !in from.dvs
    ensures var w' := Step(w, Act(c, Ok)); Snap(WithDv(from, c, DvPending), w', c, spec, Hotplugging, true) && Working(w', c, HotReget(vm))
  {
    hide VolumeName, MergePatch, PlugVerdict, Plug, MoveInit, MoveWait, MoveSsh, MoveRestore, MoveDone, MoveClean;
  }

  lemma WaitsForDv(from: World, w: World, c: Name, spec: Spec, vm: Vm)
    requires Snap(WithDv(from, c, DvPending), w, c, spec, Hotplugging, true) && Working(w, c, HotReget(vm))
    ensures var w' := Step(w, Act(c, Ok)); Snap(WithDv(from, c, DvPending), w', c, spec, Hotplugging, true) && c !in w'.threads
  {
    hide VolumeName, MergePatch, PlugVerdict, Plug, MoveInit, MoveWait, MoveSsh, MoveRestore, MoveDone, MoveClean;
  }

  lemma DvGetsReady(from: World, w: World, c: Name, spec: Spec)
    requires Snap(WithDv(from, c, DvPending), w, c, spec, Hotplugging, true) && c !in w.threads
    ensures var w' := Step(w, SetDv(VolumeName(c), DvSucceeded)); Snap(WithDv(from, c, DvSucceeded), w', c, spec, Hotplugging, true) && c !in w'.threads
  {
    hide VolumeName;
  }

  /** Look, create, look again and wait; the DataVolume gets ready; scan, look, plug. */
  function Provisioning(c: Name, vm: Vm): seq<Event> {
    [Act(c, Ok), Act(c, Ok), Act(c, Ok)] + ([SetDv(VolumeName(c), DvSucceeded), Start(c), Act(c, SawVm(vm))] + [Act(c, Ok), Act(c, Ok)])
  }

  lemma Provisions(from: World, w: World, c: Name, spec: Spec, vm: Vm)
    requires Snap(from, w, c, spec, Hotplugging, true) && Working(w, c, HotDv(vm)) && OneSnapshot(spec) && VolumeName(c) !in from.dvs
    requires spec.target in from.vms && (spec.target, vm) in from.past && PlugVerdict(vm, VolumeName(c)) == Absent
    ensures var now := Exec(w, Provisioning(c, vm));
            && Holding(WithDv(from, c, DvSucceeded), now, c, spec, vm, Hotplugging, 1)
            && Working(now, c, Advance(WaitingForAttachment))
  {
    hide Step, Exec, Snap, Working, Holding, Losing, VolumeName, PlugVerdict, OnePvc, OneSnapshot;
    var ready := WithDv(from, c, DvSucceeded);
    LooksForDv(from, w, c, spec, vm);
    var w1 := Step(w, Act(c, Ok));
    CreatesDv(from, w1, c, spec, vm);
    var w2 := Step(w1, Act(c, Ok));
    WaitsForDv(from, w2, c, spec, vm);
    var w3 := Step(w2, Act(c, Ok));
    DvGetsReady(from, w3, c, spec);
    var w4 := Step(w3, SetDv(VolumeName(c), DvSucceeded));
    StartSnap(ready, w4, c, spec, Hotplugging, true);
    var w5 := Step(w4, Start(c));
    ScanSnap(ready, w5, c, spec, vm);
    var w6 := Step(w5, Act(c, SawVm(vm)));
    LooksForDv(ready, w6, c, spec, vm);
    var w7 := Step(w6, Act(c, Ok));
    PlugCall(ready, w7, c, spec, vm, Ok);
    Three(w, Act(c, Ok), Act(c, Ok), Act(c, Ok));
    Three(w3, SetDv(VolumeName(c), DvSucceeded), Start(c), Act(c, SawVm(vm)));
    Two(w6, Act(c, Ok), Act(c, Ok));
    ExecAppend(w3, [SetDv(VolumeName(c), DvSucceeded), Start(c), Act(c, SawVm(vm))], [Act(c, Ok), Act(c, Ok)]);
    ExecAppend(w, [Act(c, Ok), Act(c, Ok), Act(c, Ok)], [SetDv(VolumeName(c), DvSucceeded), Start(c), Act(c, SawVm(vm))] + [Act(c, Ok), Act(c, Ok)]);
  }

  // ---------------------------------------------------------------------------
  // Up to the hotplug
  // ---------------------------------------------------------------------------

  /** An initial cluster with the target VM, and a restore of one PVC of its own namespace or one snapshot. */
  ghost predicate Usable(w: World, spec: Spec) { Initial(w) && spec.target in w.vms && (OnePvc(w, spec) || OneSnapshot(spec)) }

  /** The cluster as it is while the volume is in use, but for the volume itself. */
  function Base(w: World, c: Name, spec: Spec): World { if spec.source.snapshot.Some? then WithDv(w, c, DvSucceeded) else w }

  function Plugging(c: Name, spec: Spec, vmi: Vmi, vm: Vm): seq<Event> {
    Approach(c, spec, vmi, vm) + if spec.source.snapshot.Some? then Provisioning(c, vm) else [Act(c, Ok)]
  }

  lemma Plugs(w: World, c: Name, spec: Spec, vmi: Vmi)
    requires Usable(w, spec)
    ensures var vm := w.vms[spec.target]; var now := Exec(w, Plugging(c, spec, vmi, vm));
            && Holding(Base(w, c, spec), now, c, spec, vm, Hotplugging, 1) && Working(now, c, Advance(WaitingForAttachment))
            && PlugVerdict(vm, VolumeName(c)) == Absent && w.dvs == map[] && (spec.target, vm) in Base(w, c, spec).past
  {
    hide Step, Exec, Snap, Working, Holding, Losing, VolumeName, PlugVerdict, Approach, Provisioning;
    var vm := w.vms[spec.target];
    var at := Exec(w, Approach(c, spec, vmi, vm));
    NoRestoresIsAbsent(vm, c);
    Approaches(w, c, spec, vmi, vm);
    if spec.source.snapshot.Some? {
      Provisions(w, at, c, spec, vm);
      ExecAppend(w, Approach(c, spec, vmi, vm), Provisioning(c, vm));
    } else {
      PlugCall(w, at, c, spec, vm, Ok);
      ExecAppend(w, Approach(c, spec, vmi, vm), [Act(c, Ok)]);
      One(at, Act(c, Ok));
    }
  }

  // ---------------------------------------------------------------------------
  // From the unplug on
  // ---------------------------------------------------------------------------

  /** The unplug is computed from the current version and answered: the VM is as before the hotplug. */
  lemma UnplugsBack(from: World, w: World, c: Name, spec: Spec)
    requires spec.target in from.vms && PlugVerdict(from.vms[spec.target], VolumeName(c)) == Absent
    requires var vm := from.vms[spec.target];
             Holding(from, w, c, spec, vm, Cleanup, 3) && Working(w, c, DonePatch(Plug(vm, VolumeName(c), ClaimName(c, spec.source))))
    ensures var w' := Step(w, Act(c, Ok));
            && w'.vms == from.vms && w'.dvs == from.dvs
            && c in w'.crs && w'.crs[c].spec == spec && w'.crs[c].status == w.crs[c].status
            && Working(w', c, if spec.source.snapshot.Some? then DoneDv else DoneVmi)
  {
    var vm, name, claim := from.vms[spec.target], VolumeName(c), ClaimName(c, spec.source);
    UnplugUndoesPlug(vm, name, claim);
    assert MergePatch(Plug(vm, name, claim), Plug(vm, name, claim), vm) == vm;
    hide VolumeName, MergePatch, Plug, Unplug, PlugVerdict, ClaimName, Calm, Move;
    UnplugMove(c, w.crs[c], w.threads[c], ViewOf(w, c));
  }

  /** The DataVolume goes. */
  lemma DropsDv(w: World, c: Name)
    requires c in w.crs && Working(w, c, DoneDv)
    ensures var w' := Step(w, Act(c, Ok));
            && w'.vms == w.vms && w'.dvs == w.dvs - {VolumeName(c)} && Working(w', c, DoneVmi)
            && c in w'.crs && w'.crs[c].spec == w.crs[c].spec && w'.crs[c].status == w.crs[c].status
  {
    hide VolumeName, MergePatch, Move;
    DvMove(c, w.crs[c], w.threads[c], ViewOf(w, c));
  }

  /** The VMI read that shows no volume any more, and the last patch. */
  lemma Finishes(w: World, c: Name, x: Outcome)
    requires c in w.crs && Working(w, c, DoneVmi) && w.crs[c].status.phase.Cleanup?
    requires x.NotFound? || (x.SawVmi? && !Lists(x.vmi, VolumeName(c)))
    ensures var w' := Step(Step(w, Act(c, x)), Act(c, Ok));
            && w'.vms == w.vms && w'.dvs == w.dvs && c in w'.crs && c !in w'.threads && w'.crs[c].spec == w.crs[c].spec
            && w'.crs[c].status == w.crs[c].status.(phase := Succeeded, completionTime := Some(Seconds(w.clock)))
  {
    hide Step, Lists, VolumeName;
    ReadGoes(w, c, x);
    AdvanceGoes(Step(w, Act(c, x)), c);
  }

  lemma ReadGoes(w: World, c: Name, x: Outcome)
    requires c in w.crs && Working(w, c, DoneVmi)
    requires x.NotFound? || (x.SawVmi? && !Lists(x.vmi, VolumeName(c)))
    ensures var w1 := Step(w, Act(c, x));
            && Working(w1, c, Advance(Succeeded)) && c in w1.crs && w1.crs[c].status == w.crs[c].status
            && w1.vms == w.vms && w1.dvs == w.dvs && w1.crs[c].spec == w.crs[c].spec && w1.clock == w.clock
  {
    hide Lists, VolumeName, MergePatch, Move;
    VmiMove(c, w.crs[c], w.threads[c], ViewOf(w, c), x);
  }

  lemma VmiMove(c: Name, cr: Cr, th: Thread, v: View, x: Outcome)
    requires th.pc.DoneVmi? && (x.NotFound? || (x.SawVmi? && !Lists(x.vmi, VolumeName(c))))
    ensures Move(c, cr, th, v, x) == Goto(cr, th, Advance(Succeeded))
  {
    hide Lists, VolumeName, MoveInit, MoveHot, MoveWait, MoveSsh, MoveRestore, MoveClean;
  }

  lemma AdvanceGoes(w: World, c: Name)
    requires c in w.crs && Working(w, c, Advance(Succeeded)) && w.crs[c].status.phase.Cleanup?
    ensures var w' := Step(w, Act(c, Ok));
            && w'.vms == w.vms && w'.dvs == w.dvs && c in w'.crs && c !in w'.threads && w'.crs[c].spec == w.crs[c].spec
            && w'.crs[c].status == w.crs[c].status.(phase := Succeeded, completionTime := Some(Seconds(w.clock)))
  {
    hide VolumeName, MergePatch, MoveInit, MoveHot, MoveWait, MoveSsh, MoveRestore, MoveDone, MoveClean;
  }

  /** The unplug, the DataVolume's deletion for a snapshot, the VMI read and the last patch. */
  function Leaving(c: Name, spec: Spec, last: Outcome): seq<Event> {
    (if spec.source.snapshot.Some? then [Act(c, Ok), Act(c, Ok)] else [Act(c, Ok)]) + [Act(c, last), Act(c, Ok)]
  }

  lemma Leaves(from: World, w: World, c: Name, spec: Spec, last: Outcome)
    requires spec.target in from.vms && PlugVerdict(from.vms[spec.target], VolumeName(c)) == Absent
    requires var vm := from.vms[spec.target];
             Holding(from, w, c, spec, vm, Cleanup, 3) && Working(w, c, DonePatch(Plug(vm, VolumeName(c), ClaimName(c, spec.source))))
    requires last.NotFound? || (last.SawVmi? && !Lists(last.vmi, VolumeName(c)))
    ensures var now := Exec(w, Leaving(c, spec, last));
            && c in w.crs && c in now.crs && c !in now.threads && now.crs[c].spec == spec && now.vms == from.vms
            && now.crs[c].status == w.crs[c].status.(phase := Succeeded, completionTime := now.crs[c].status.completionTime)
            && now.dvs == if spec.source.snapshot.Some? then from.dvs - {VolumeName(c)} else from.dvs
  {
    hide Step, Exec, Holding, Working, VolumeName, Plug, PlugVerdict, Lists, ClaimName;
    HoldingIsPlugged(from, w, c, spec, from.vms[spec.target], Cleanup, 3);
    UnplugsBack(from, w, c, spec);
    var w1 := Step(w, Act(c, Ok));
    if spec.source.snapshot.Some? {
      DropsDv(w1, c);
      var w2 := Step(w1, Act(c, Ok));
      Finishes(w2, c, last);
      Two(w, Act(c, Ok), Act(c, Ok));
      Two(w2, Act(c, last), Act(c, Ok));
      ExecAppend(w, [Act(c, Ok), Act(c, Ok)], [Act(c, last), Act(c, Ok)]);
    } else {
      Finishes(w1, c, last);
      One(w, Act(c, Ok));
      Two(w1, Act(c, last), Act(c, Ok));
      ExecAppend(w, [Act(c, Ok)], [Act(c, last), Act(c, Ok)]);
    }
  }

  // ---------------------------------------------------------------------------
  // Main results
  // ---------------------------------------------------------------------------

  /** Every call of an automatic restore, in order, with reads of the VM as it is. */
  function Undisturbed(c: Name, spec: Spec, vmi: Vmi, vm: Vm, out: string, last: Outcome): seq<Event> {
    Plugging(c, spec, vmi, vm) + Using(c, vmi, out, Plug(vm, VolumeName(c), ClaimName(c, spec.source))) + Leaving(c, spec, last)
  }

  /**
   For every restore with a source path, of a PVC or a snapshot, every VM without restores, and every VMI
   that shows the volume attached: if all calls are answered and the VMI has let go in the end, the
   restore ends in Succeeded, its count is the one the helper printed, every VM is exactly as it was,
   and no DataVolume is left.
   */
  lemma RestoreSucceeds(w: World, c: Name, spec: Spec, vmi: Vmi, out: string, last: Outcome)
    requires Usable(w, spec) && spec.sourcePath != "" && RestoreDecisions.AttachedIn(vmi, VolumeName(c))
    requires last.NotFound? || (last.SawVmi? && !Lists(last.vmi, VolumeName(c)))
    ensures var now := Exec(w, Undisturbed(c, spec, vmi, w.vms[spec.target], out, last));
            && c in now.crs && c !in now.threads && now.crs[c].spec == spec && now.crs[c].status.phase.Succeeded?
            && now.crs[c].status.count.Some? && RestoreDecisions.CountOf(out, now.crs[c].status.count.value)
            && now.vms == w.vms && now.dvs == map[]
  {
    hide Step, Exec, Initial, Holding, Working, CheckAttachment, VolumeName, Plugging, Using, Leaving, Plug, PlugVerdict, Lists, ClaimName,
         RestoreDecisions.AttachedIn, RestoreDecisions.CountOf, FileCount.ReportedCount;
    RestoreDecisions.CheckMeans(vmi, VolumeName(c));
    RestoreDecisions.ReportedIsCountOf(out);
    var vm, from := w.vms[spec.target], Base(w, c, spec);
    var seen := Plug(vm, VolumeName(c), ClaimName(c, spec.source));
    Plugs(w, c, spec, vmi);
    var w1 := Exec(w, Plugging(c, spec, vmi, vm));
    Uses(from, w1, c, spec, vm, vmi, out, seen);
    var w2 := Exec(w1, Using(c, vmi, out, seen));
    Leaves(from, w2, c, spec, last);
    ExecAppend(w, Plugging(c, spec, vmi, vm), Using(c, vmi, out, seen));
    ExecAppend(w, Plugging(c, spec, vmi, vm) + Using(c, vmi, out, seen), Leaving(c, spec, last));
  }

  /** A restore without source path gets to VolumeReady, with exactly its pair added to the VM. */
  lemma ManualRestoreIsReady(w: World, c: Name, spec: Spec, vmi: Vmi, out: string)
    requires Usable(w, spec) && spec.sourcePath == "" && RestoreDecisions.AttachedIn(vmi, VolumeName(c))
    ensures var vm := w.vms[spec.target]; var now := Exec(w, Plugging(c, spec, vmi, vm) + (Attaching(c, vmi) + Copying(c, out)));
            && c in now.crs && c !in now.threads && now.crs[c].spec == spec && now.crs[c].status.phase.VolumeReady?
            && now.vms == w.vms[spec.target := Plug(vm, VolumeName(c), ClaimName(c, spec.source))]
  {
    hide Step, Exec, Initial, Working, CheckAttachment, VolumeName, Plugging, Attaching, Copying, Plug, PlugVerdict, ClaimName,
         RestoreDecisions.AttachedIn, Calm;
    RestoreDecisions.CheckMeans(vmi, VolumeName(c));
    var vm, from := w.vms[spec.target], Base(w, c, spec);
    Plugs(w, c, spec, vmi);
    var w1 := Exec(w, Plugging(c, spec, vmi, vm));
    Attaches(from, w1, c, spec, vm, vmi);
    var w2 := Exec(w1, Attaching(c, vmi));
    Copies(from, w2, c, spec, vm, out);
    ExecAppend(w1, Attaching(c, vmi), Copying(c, out));
    ExecAppend(w, Plugging(c, spec, vmi, vm), Attaching(c, vmi) + Copying(c, out));
  }
}
