/**
 What a hotplugged volume points at: over all runs, the claim and the serial in a VM's restore
 entries are those of the restore that plugged them.
 */
module RestoreClaims {
  import opened Text
  import opened VmSpec
  import opened RestoreModel
  import opened RestoreStatus
  import opened RestoreRuns
  import opened RestoreVms
  import opened RestoreRequests
  import opened RestoreDecisions

  /** In this step a restore's edit of VM t, made in phase Hotplugging, takes effect. */
  ghost predicate PlugsAt(w: World, e: Event, t: string) {
    && e.Act? && OwnEvent(w, e, e.c) && !w.threads[e.c].deletion && Applied(e.x)
    && w.crs[e.c].status.phase.Hotplugging? && w.crs[e.c].spec.target == t && t in w.vms
    && RequestAt(e.c, w.crs[e.c], w.threads[e.c], w.clock).EditVm?
  }

  datatype Planter = Planter(c: Name, source: Source)

  /** The restore that plugged VM t last. */
  ghost function LastPlug(w: World, events: seq<Event>, t: string): Option<Planter> {
    if events == [] then None
    else
      var before, e := events[..|events| - 1], events[|events| - 1];
      var now := Exec(w, before);
      if PlugsAt(now, e, t) then Some(Planter(e.c, now.crs[e.c].spec.source)) else LastPlug(w, before, t)
  }

  /** The volume entry of restore c with that source. */
  ghost predicate PointsAt(e: Entry, c: Name, s: Source) {
    && e.name == c + "-restore"
    && (s.pvc.Some? ==> e.ref == s.pvc.value.name) && (s.pvc.None? ==> e.ref == c + "-restore")
  }

  /** Every restore entry of the VM is the planter's. */
  ghost predicate PlantedBy(vm: Vm, p: Option<Planter>) {
    && (forall i :: 0 <= i < |vm.volumes| && IsRestoreName(vm.volumes[i].name) ==> p.Some? && PointsAt(vm.volumes[i], p.value.c, p.value.source))
    && (forall i :: 0 <= i < |vm.disks| && IsRestoreName(vm.disks[i].name) ==>
          p.Some? && vm.disks[i].name == p.value.c + "-restore" && vm.disks[i].ref == p.value.c + "-restore")
  }

  /** A PVC of the restore's own namespace, or a snapshot. */
  ghost predicate Allowable(s: Source, namespace: string) {
    && !s.remote && (s.pvc.Some? <==> s.snapshot.None?)
    && (s.pvc.Some? ==> s.pvc.value.namespace == "" || s.pvc.value.namespace == namespace)
  }

  // ---------------------------------------------------------------------------
  // One VM
  // ---------------------------------------------------------------------------

  lemma NoneIsPlanted(vm: Vm, p: Option<Planter>)
    requires NoRestores(vm)
    ensures PlantedBy(vm, p)
  {
    hide PointsAt;
    KeepMembers(vm.volumes, IsRestoreName);
    KeepMembers(vm.disks, IsRestoreName);
    forall i | 0 <= i < |vm.volumes| ensures !IsRestoreName(vm.volumes[i].name) { assert vm.volumes[i] in vm.volumes && vm.volumes[i] !in Restores(vm.volumes); }
    forall i | 0 <= i < |vm.disks| ensures !IsRestoreName(vm.disks[i].name) { assert vm.disks[i] in vm.disks && vm.disks[i] !in Restores(vm.disks); }
  }

  lemma SamePlanted(vm: Vm, edited: Vm, p: Option<Planter>)
    requires PlantedBy(vm, p) && Restores(edited.volumes) == Restores(vm.volumes) && Restores(edited.disks) == Restores(vm.disks)
    ensures PlantedBy(edited, p)
  {
    hide PointsAt;
    KeepMembers(vm.volumes, IsRestoreName);
    KeepMembers(vm.disks, IsRestoreName);
    KeepMembers(edited.volumes, IsRestoreName);
    KeepMembers(edited.disks, IsRestoreName);
    forall i | 0 <= i < |edited.volumes| && IsRestoreName(edited.volumes[i].name) ensures p.Some? && PointsAt(edited.volumes[i], p.value.c, p.value.source) {
      assert edited.volumes[i] in Restores(edited.volumes);
      assert edited.volumes[i] in vm.volumes;
    }
    forall i | 0 <= i < |edited.disks| && IsRestoreName(edited.disks[i].name)
      ensures p.Some? && edited.disks[i].name == p.value.c + "-restore" && edited.disks[i].ref == p.value.c + "-restore"
    {
      assert edited.disks[i] in Restores(edited.disks);
      assert edited.disks[i] in vm.disks;
    }
  }

  /** A hotplug on a VM without restores plants exactly its own entries. */
  lemma PlugPlants(vm: Vm, c: Name, s: Source)
    requires NoRestores(vm)
    ensures PlantedBy(Plug(vm, VolumeName(c), ClaimName(c, s)), Some(Planter(c, s)))
  {
    NoneIsPlanted(vm, None);
  }

  /** Whoever scanned Absent scanned a VM without restores. */
  lemma AbsentHasNone(vm: Vm, name: string)
    requires Exclusive(vm) && IsRestoreName(name) && PlugVerdict(vm, name) == Absent
    ensures NoRestores(vm)
  {
    PlugKeepsExclusive(vm, name, "");
  }

  /** An unplug patch leaves no restore entry, or the current ones. */
  lemma UnplugPlants(current: Vm, base: Vm, c: Name, p: Option<Planter>)
    requires Exclusive(current) && Exclusive(base) && PlantedBy(current, p)
    ensures PlantedBy(MergePatch(current, base, Unplug(base, VolumeName(c))), p)
  {
    hide PlantedBy, Exclusive, PlugVerdict, MergePatch;
    var name := VolumeName(c);
    UnplugPatchKeepsExclusive(current, base, name);
    if Mentions(base, name) {
      ExclusiveNames(base, name);
      OnlyOneGone(base, name);
      NoneIsPlanted(Unplug(base, name), p);
    }
  }

  lemma OnlyOneGone(vm: Vm, name: string)
    requires Exclusive(vm) && IsRestoreName(name) && Mentions(vm, name)
    ensures NoRestores(Unplug(vm, name))
  {
    ExclusiveNames(vm, name);
    WithoutRestores(vm.volumes, name);
    WithoutRestores(vm.disks, name);
    var rv, rd := Restores(vm.volumes), Restores(vm.disks);
    assert rv == [rv[0]] && rd == [rd[0]];
    KeepOne(rv[0], OtherThan(name));
    KeepOne(rd[0], OtherThan(name));
  }

  // ---------------------------------------------------------------------------
  // Runs
  // ---------------------------------------------------------------------------

  lemma HotPatchOnly(w: World, c: Name)
    requires VmInv(w) && c in w.crs && c in w.threads && w.crs[c].status.phase.Hotplugging? && !w.threads[c].deletion
    requires RequestAt(c, w.crs[c], w.threads[c], w.clock).EditVm?
    ensures w.threads[c].pc.HotPatch?
  {
    hide Inv, VersionsOk, StatusOk, VolumeName, Plug, Unplug;
    OwnThread(w, c);
  }

  /** A call that takes effect on VM t. */
  lemma CallPlants(w: World, c: Name, x: Outcome, t: string, p: Option<Planter>)
    requires VmInv(w) && OwnEvent(w, Act(c, x), c) && (t in w.vms ==> PlantedBy(w.vms[t], p))
    ensures var w', e := Step(w, Act(c, x)), Act(c, x);
            t in w'.vms ==> PlantedBy(w'.vms[t], if PlugsAt(w, e, t) then Some(Planter(c, w.crs[c].spec.source)) else p)
  {
    hide Inv, VersionsOk, Move, Commit, PlantedBy, PlugVerdict, Exclusive, MergePatch, StatusOk, ThreadOk, Plug, Unplug, RequestAt, ClaimName, VolumeName;
    var cr, th, v := w.crs[c], w.threads[c], ViewOf(w, c);
    assert StatusOk(cr, w.clock) && ThreadOk(cr, th, w.clock) by { OwnThread(w, c); }
    var e := Move(c, cr, th, v, x);
    MoveShape(c, cr, th, v, x);
    CommitVm(w, c, e, th.clean, t);
    PatchIsAnEdit(c, cr, th, v, x);
    if PlugsAt(w, Act(c, x), t) { HotPatchOnly(w, c); }
    if e.patch.Some? && cr.spec.target == t {
      PatchPlants(w, c, x, t, p);
    }
  }

  lemma CommitVm(w: World, c: Name, e: Effect, clean: bool, t: string)
    requires c in w.crs
    ensures var w' := Commit(w, c, e, clean);
            && (t in w'.vms <==> t in w.vms)
            && (t in w.vms ==> w'.vms[t] == if e.patch.Some? && t == w.crs[c].spec.target
                                            then MergePatch(w.vms[t], e.patch.value.base, e.patch.value.edited) else w.vms[t])
  {
    hide MergePatch, VolumeName, Woken;
  }

  /** A patch is sent exactly by an edit that takes effect on a VM that exists. */
  lemma PatchIsAnEdit(c: Name, cr: Cr, th: Thread, v: View, x: Outcome)
    ensures Move(c, cr, th, v, x).patch.Some? <==> RequestAt(c, cr, th, v.clock).EditVm? && Applied(x) && v.vmThere
  {
    hide Move, RequestAt;
    RequestsAreHonoured(c, cr, th, v, x);
  }

  lemma PatchPlants(w: World, c: Name, x: Outcome, t: string, p: Option<Planter>)
    requires VmInv(w) && OwnEvent(w, Act(c, x), c) && t in w.vms && PlantedBy(w.vms[t], p)
    requires w.crs[c].spec.target == t
    requires var e := Move(c, w.crs[c], w.threads[c], ViewOf(w, c), x);
             e.patch.Some? && PatchShape(c, w.crs[c], w.threads[c], ViewOf(w, c), x, e)
    ensures var e := Move(c, w.crs[c], w.threads[c], ViewOf(w, c), x);
            var after := MergePatch(w.vms[t], e.patch.value.base, e.patch.value.edited);
            PlantedBy(after, if w.threads[c].pc.HotPatch? then Some(Planter(c, w.crs[c].spec.source)) else p)
    ensures PlugsAt(w, Act(c, x), t) <==> w.threads[c].pc.HotPatch?
  {
    hide Inv, Move, PlantedBy, PlugVerdict, Exclusive, MergePatch, StatusOk, Plug, Unplug, ClaimName, VolumeName;
    var th, current, source := w.threads[c], w.vms[t], w.crs[c].spec.source;
    assert BaseOk(w, c);
    OwnThread(w, c);
    PatchIsAnEdit(c, w.crs[c], th, ViewOf(w, c), x);
    assert (t, current) in w.past;
    if th.pc.HotPatch? {
      AbsentHasNone(th.pc.base, VolumeName(c));
      PlugPlants(th.pc.base, c, source);
      PlugPatch(current, th.pc.base, VolumeName(c), ClaimName(c, source));
    } else {
      UnplugPlants(current, th.pc.base, c, p);
    }
  }

  lemma StepPlants(w: World, e: Event, t: string, p: Option<Planter>)
    requires VmInv(w) && (t in w.vms ==> PlantedBy(w.vms[t], p))
    ensures var w' := Step(w, e);
            t in w'.vms ==> PlantedBy(w'.vms[t], if PlugsAt(w, e, t) then Some(Planter(e.c, w.crs[e.c].spec.source)) else p)
  {
    hide Step, VmInv, PlantedBy, PlugsAt, OwnEvent;
    if e.Act? && OwnEvent(w, e, e.c) {
      CallPlants(w, e.c, e.x, t, p);
    } else {
      assert !PlugsAt(w, e, t) by { OnlyCallsPlug(w, e, t); }
      if e.SetVm? && e.target == t {
        SetPlants(w, t, e.vm, p);
      } else {
        OthersKeepVm(w, e, t);
      }
    }
  }

  lemma OnlyCallsPlug(w: World, e: Event, t: string)
    requires !(e.Act? && OwnEvent(w, e, e.c))
    ensures !PlugsAt(w, e, t)
  {
  }

  lemma SetPlants(w: World, t: string, vm: Vm, p: Option<Planter>)
    requires t in w.vms ==> PlantedBy(w.vms[t], p)
    ensures var w' := Step(w, SetVm(t, vm)); t in w'.vms ==> PlantedBy(w'.vms[t], p)
  {
    hide PlantedBy;
    if AllowedVm(w, t, vm) {
      if t in w.vms { SamePlanted(w.vms[t], vm, p); } else { NoneIsPlanted(vm, p); }
    }
  }

  lemma OthersKeepVm(w: World, e: Event, t: string)
    requires !(e.Act? && OwnEvent(w, e, e.c)) && !(e.SetVm? && e.target == t)
    ensures var w' := Step(w, e); t in w'.vms ==> t in w.vms && w'.vms[t] == w.vms[t]
  {
    hide Commit, EffectOf, Dispatch, AllowedVm, AllowedVmi;
    if e.Start? { StartKeepsVmMap(w, e.c); }
  }

  lemma {:induction false} ReachablePlanted(w: World, events: seq<Event>, t: string)
    requires Initial(w)
    ensures var now := Exec(w, events); t in now.vms ==> PlantedBy(now.vms[t], LastPlug(w, events, t))
    ensures LastPlug(w, events, t).Some? ==> Allowable(LastPlug(w, events, t).value.source, w.namespace)
    ensures Exec(w, events).namespace == w.namespace
  {
    hide Step, PlantedBy, PlugsAt, VmInv, Allowable;
    if events == [] {
      if t in w.vms { NoneIsPlanted(w.vms[t], None); }
    } else {
      var before, e := events[..|events| - 1], events[|events| - 1];
      var now := Exec(w, before);
      ReachablePlanted(w, before, t);
      ReachableVms(w, before);
      StepPlants(now, e, t, LastPlug(w, before, t));
      NamespaceStays(now, e);
      if PlugsAt(now, e, t) {
        PlugIsAllowable(w, before, e, t);
      }
    }
  }

  lemma NamespaceStays(w: World, e: Event)
    ensures Step(w, e).namespace == w.namespace
  {
    hide EffectOf, Dispatch, AllowedVm, AllowedVmi, MergePatch, VolumeName;
  }

  lemma PlugIsAllowable(w: World, events: seq<Event>, e: Event, t: string)
    requires Initial(w) && PlugsAt(Exec(w, events), e, t) && Exec(w, events).namespace == w.namespace
    ensures Allowable(Exec(w, events).crs[e.c].spec.source, w.namespace)
  {
    hide Exec, Known, RequestAt, VmInv;
    ReachableVms(w, events);
    ReachableDecided(w, events, e.c);
    HotPatchOnly(Exec(w, events), e.c);
  }

  /**
   Over all runs: every restore volume of a VM belongs to the restore that hotplugged that VM last.
   It has that restore's name and points at the PVC named in its spec, which is one of its own
   namespace, or, for a snapshot, at the claim of the volume's own name, under which the DataVolume is
   created; the disk carries that name as its serial.
   */
  lemma VolumePointsAtSource(w: World, events: seq<Event>, t: string)
    requires Initial(w) && t in Exec(w, events).vms
    ensures var vm, p := Exec(w, events).vms[t], LastPlug(w, events, t);
            && (forall i :: 0 <= i < |vm.volumes| && IsRestoreName(vm.volumes[i].name) ==>
                  p.Some? && PointsAt(vm.volumes[i], p.value.c, p.value.source) && Allowable(p.value.source, w.namespace))
            && (forall i :: 0 <= i < |vm.disks| && IsRestoreName(vm.disks[i].name) ==>
                  p.Some? && vm.disks[i].name == p.value.c + "-restore" && vm.disks[i].ref == p.value.c + "-restore")
  {
    hide Exec, LastPlug, PointsAt, Allowable;
    ReachablePlanted(w, events, t);
  }

  /** Restore c has plugged its target since its object was created. */
  ghost predicate HasPlugged(w: World, events: seq<Event>, c: Name) {
    && events != [] && c in Exec(w, events).crs
    && var before, e := events[..|events| - 1], events[|events| - 1];
       var now := Exec(w, before);
       (e.Act? && e.c == c && c in now.crs && PlugsAt(now, e, now.crs[c].spec.target)) || HasPlugged(w, before, c)
  }

  lemma {:induction false} OwnPlugIsOwn(w: World, events: seq<Event>, c: Name)
    requires Initial(w) && HasPlugged(w, events, c)
    ensures var now := Exec(w, events); var p := LastPlug(w, events, now.crs[c].spec.target);
            p.Some? && p.value.c == c ==> p.value.source == now.crs[c].spec.source
  {
    hide Step, PlugsAt;
    var before, e := events[..|events| - 1], events[|events| - 1];
    var now := Exec(w, before);
    ReachableVms(w, before);
    if c in now.crs {
      SpecStays(now, e, c);
      if HasPlugged(w, before, c) { OwnPlugIsOwn(w, before, c); }
    }
  }

  lemma SpecStays(w: World, e: Event, c: Name)
    requires VmInv(w) && c in w.crs && c in Step(w, e).crs
    ensures Step(w, e).crs[c].spec == w.crs[c].spec
  {
    hide VmInv, Step, Move, Commit, Dispatch, StatusOk, ThreadOk, VolumeName;
    if OwnEvent(w, e, c) {
      if e.Act? {
        OwnThread(w, c);
        SpecKept(c, w.crs[c], w.threads[c], ViewOf(w, c), e.x);
        var f := EffectOf(w, c, e.x);
        CommitOwn(w, c, f, w.threads[c].clean);
        WokenKeeps(f.cr, f.ret, w.clock);
        assert Step(w, e) == Commit(w, c, f, w.threads[c].clean) by { CallIsCommit(w, c, e.x); }
      } else {
        var f := Dispatch(w.crs[c], ViewOf(w, c));
        DispatchShape(w.crs[c], ViewOf(w, c));
        CommitOwn(w, c, f, true);
        WokenKeeps(f.cr, f.ret, w.clock);
        assert Step(w, e) == Commit(w, c, f, true) by { StartIsCommit(w, c); }
      }
    } else {
      Untouched(w, e, c);
    }
  }

  lemma CallIsCommit(w: World, c: Name, x: Outcome)
    requires OwnEvent(w, Act(c, x), c)
    ensures Step(w, Act(c, x)) == Commit(w, c, EffectOf(w, c, x), w.threads[c].clean)
  {
    hide EffectOf, Commit;
  }

  lemma StartIsCommit(w: World, c: Name)
    requires OwnEvent(w, Start(c), c)
    ensures Step(w, Start(c)) == Commit(w, c, Dispatch(w.crs[c], ViewOf(w, c)), true)
  {
    hide Dispatch, Commit;
  }

  /**
   A live restore that has plugged its VM since it was created finds under its name the claim its own
   spec asks for, whatever an earlier restore of that name may have left behind.
   */
  lemma OwnVolumePointsAtOwnSource(w: World, events: seq<Event>, c: Name, i: nat)
    requires Initial(w) && HasPlugged(w, events, c)
    requires var now := Exec(w, events); var t := now.crs[c].spec.target;
             t in now.vms && i < |now.vms[t].volumes| && now.vms[t].volumes[i].name == VolumeName(c)
    ensures var now := Exec(w, events); var s, e := now.crs[c].spec.source, now.vms[now.crs[c].spec.target].volumes[i];
            && (s.pvc.Some? ==> e.ref == s.pvc.value.name && (s.pvc.value.namespace == "" || s.pvc.value.namespace == w.namespace))
            && (s.snapshot.Some? ==> e.ref == VolumeName(c))
  {
    var now := Exec(w, events);
    var t := now.crs[c].spec.target;
    hide Exec, LastPlug, HasPlugged;
    VolumePointsAtSource(w, events, t);
    OwnPlugIsOwn(w, events, c);
    var p := LastPlug(w, events, t).value;
    assert PointsAt(now.vms[t].volumes[i], p.c, p.source);
    VolumeNameInjective(p.c, c);
  }
}
