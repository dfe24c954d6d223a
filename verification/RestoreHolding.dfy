/**
 While a restore is using its volume, the VM spec keeps holding it; and a restore that finds
 the VM taken leaves the holder alone.
 */
module RestoreHolding {
  import opened VmSpec
  import opened RestoreModel
  import opened RestoreStatus
  import opened RestoreProgress
  import opened RestoreRuns
  import opened RestoreVms
  import opened RestoreCleanup

  predicate InUse(p: Phase) { p.WaitingForAttachment? || p.SshConnecting? || p.Restoring? || p.VolumeReady? }

  predicate SnapshotSource(s: Source) { s.pvc.None? && s.snapshot.Some? }

  predicate HoldsNow(w: World, c: Name)
    requires c in w.crs
  {
    var target := w.crs[c].spec.target;
    target in w.vms && Holds(w.vms[target], VolumeName(c))
  }

  /** Another restore's patch of c's target takes effect and replaces the lists. */
  predicate Overwrites(w: World, e: Event, c: Name)
    requires c in w.crs
  {
    && e.Act? && e.c != c && e.c in w.crs && e.c in w.threads && Applied(e.x)
    && w.crs[e.c].spec.target == w.crs[c].spec.target
    && var pc := w.threads[e.c].pc;
       pc.HotPatch? || ((pc.CleanPatch? || pc.DonePatch?) && Mentions(pc.base, VolumeName(e.c)))
  }

  /** While c holds its VM nobody else's patch replaces the lists; the VM is not deleted; c's scan does not conjure up its own entries. */
  predicate Uncontested(w: World, e: Event, c: Name) {
    c in w.crs ==>
      var target := w.crs[c].spec.target;
      && e != DeleteVm(target)
      && !(HoldsNow(w, c) && Overwrites(w, e, c))
      && (e.Act? && e.c == c && c in w.threads && w.threads[c].pc.HotGet? && e.x.SawVm? && Mentions(e.x.vm, VolumeName(c)) ==>
            target in w.vms && Mentions(w.vms[target], VolumeName(c)))
  }

  /** Trusted: c's own scan before a hotplug, and the VM read of its deletion-time cleanup. */
  const HOLD: Trust := Trust(true, true, false, false)

  predicate Undisputed(w: World, e: Event, c: Name) { Uncontested(w, e, c) && Honest(w, e, c, HOLD) }

  function UndisputedFor(c: Name): (World, Event) -> bool { (w, e) => Undisputed(w, e, c) }

  /** The DataVolume has been provisioned, unless an earlier restore of that name leaked things. */
  predicate Ready(w: World, c: Name)
    requires c in w.crs
  {
    SnapshotSource(w.crs[c].spec.source) && !Leaked(w, c) ==> VolumeName(c) in w.provisioned
  }

  predicate Held(w: World, c: Name) {
    c in w.crs ==>
      && (!w.crs[c].deleting && InUse(w.crs[c].status.phase) ==> HoldsNow(w, c) && Ready(w, c))
      && (c in w.threads && w.threads[c].pc.Advance? && w.threads[c].pc.to.WaitingForAttachment? ==> HoldsNow(w, c) && Ready(w, c))
      && (c in w.threads && w.threads[c].pc.HotPatch? ==> Ready(w, c))
      && (!Unplugged(w, c) ==> Ready(w, c))
  }

  ghost predicate ProvisionedOk(w: World) {
    forall k :: k in w.dvs && w.dvs[k].DvSucceeded? ==> k in w.provisioned
  }

  ghost predicate HoldInv(w: World, c: Name) {
    VmInv(w) && ProvisionedOk(w) && Tidy(w, c, HOLD) && Held(w, c)
  }

  // ---------------------------------------------------------------------------
  // Others
  // ---------------------------------------------------------------------------

  /** Nothing of restore c has disappeared from its VM or appeared there. */
  ghost predicate Untouched(w: World, w': World, c: Name) {
    var name := VolumeName(c);
    && (c in w.crs ==>
          var t := w.crs[c].spec.target;
          && (t in w.vms && Holds(w.vms[t], name) ==> t in w'.vms && Holds(w'.vms[t], name))
          && (t in w'.vms && Mentions(w'.vms[t], name) ==> t in w.vms && Mentions(w.vms[t], name)))
    && (name in w.provisioned ==> name in w'.provisioned)
    && w.excused <= w'.excused
  }

  lemma StaysHeld(w: World, w': World, c: Name)
    requires Held(w, c) && Untouched(w, w', c)
    requires (c in w'.crs <==> c in w.crs) && (c in w'.threads <==> c in w.threads)
    requires c in w.threads ==> w'.threads[c] == w.threads[c]
    requires c in w.crs ==> w'.crs[c] == w.crs[c] || w'.crs[c] == w.crs[c].(deleting := true)
    ensures Held(w', c)
  {
    hide Holds, Mentions, VolumeName;
  }

  /** What a patch of restore d makes of the hold of restore c on the same VM: gone if it has an effect, kept if not. */
  lemma PatchMeetsHold(w: World, d: Name, x: Outcome, c: Name)
    requires VmInv(w) && d != c && c in w.crs && HoldsNow(w, c) && d in w.crs && d in w.threads
    requires EffectOf(w, d, x).patch.Some? && w.crs[d].spec.target == w.crs[c].spec.target
    ensures var e, current := EffectOf(w, d, x).patch.value, w.vms[w.crs[c].spec.target];
            if Overwrites(w, Act(d, x), c) then !Mentions(MergePatch(current, e.base, e.edited), VolumeName(c))
            else MergePatch(current, e.base, e.edited) == current
  {
    hide Inv, VersionsOk, PlugVerdict, Move, MergePatch, StatusOk, ThreadOk, Mentions, VolumeName, Lists, Plug, Unplug, Exclusive;
    OwnThread(w, d);
    var cr, th, v, e := w.crs[d], w.threads[d], ViewOf(w, d), EffectOf(w, d, x);
    var current := w.vms[cr.spec.target];
    MoveShape(d, cr, th, v, x);
    VersionExclusive(w, cr.spec.target, current);
    VersionExclusive(w, cr.spec.target, th.pc.base);
    if th.pc.HotPatch? {
      PatchResult(d, cr, th, v, x, e, current);
      HoldsMentions(MergePatch(current, e.patch.value.base, e.patch.value.edited), VolumeName(d));
      NotOther(MergePatch(current, e.patch.value.base, e.patch.value.edited), d, c);
    } else {
      UnplugPatchKeepsExclusive(current, th.pc.base, VolumeName(d));
      if Mentions(th.pc.base, VolumeName(d)) {
        NotOther(th.pc.base, d, c);
        UnplugAddsNothing(th.pc.base, VolumeName(d), VolumeName(c));
      }
    }
  }

  lemma HoldsMentions(vm: Vm, name: string)
    ensures Holds(vm, name) ==> Mentions(vm, name)
  {
  }

  lemma UnplugAddsNothing(vm: Vm, name: string, other: string)
    ensures Mentions(Unplug(vm, name), other) ==> Mentions(vm, other)
  {
    KeepMembers(vm.volumes, OtherThan(name));
    KeepMembers(vm.disks, OtherThan(name));
  }

  lemma OtherActUntouched(w: World, d: Name, x: Outcome, c: Name)
    requires VmInv(w) && d != c && Uncontested(w, Act(d, x), c)
    ensures Untouched(w, StepAct(w, d, x), c)
  {
    hide VmInv, Move, MergePatch, Mentions, Holds, VolumeName, Lists, Overwrites;
    OthersBringNoNews(w, d, x, c);
    VolumeNamesDiffer(c, d);
    if d in w.threads && d in w.crs && !x.Crash? && Possible(w, d, x) && c in w.crs && HoldsNow(w, c) {
      var e := EffectOf(w, d, x);
      if e.patch.Some? && w.crs[d].spec.target == w.crs[c].spec.target { PatchMeetsHold(w, d, x, c); }
    }
  }

  /** The rule is exact: another restore's call takes c's pair out of the spec if and only if it overwrites. */
  lemma HoldLostExactly(w: World, d: Name, x: Outcome, c: Name)
    requires VmInv(w) && d != c && c in w.crs && HoldsNow(w, c) && (d in w.crs ==> Possible(w, d, x))
    ensures c in StepAct(w, d, x).crs && (!HoldsNow(StepAct(w, d, x), c) <==> Overwrites(w, Act(d, x), c))
  {
    hide VmInv, Move, MergePatch, Mentions, Holds, VolumeName, Lists;
    if d in w.threads && d in w.crs && !x.Crash? {
      var e := EffectOf(w, d, x);
      PatchSent(w, d, x);
      if e.patch.Some? && w.crs[d].spec.target == w.crs[c].spec.target {
        PatchMeetsHold(w, d, x, c);
        HoldsMentions(MergePatch(w.vms[w.crs[c].spec.target], e.patch.value.base, e.patch.value.edited), VolumeName(c));
      }
    }
  }

  /** A patching call sends its patch whenever it takes effect and the VM is there. */
  lemma PatchSent(w: World, d: Name, x: Outcome)
    requires VmInv(w) && d in w.crs && d in w.threads
    ensures var pc := w.threads[d].pc;
            (pc.HotPatch? || pc.CleanPatch? || pc.DonePatch?) && Applied(x) && w.crs[d].spec.target in w.vms ==> EffectOf(w, d, x).patch.Some?
  {
    hide VmInv, VolumeName, Plug, Unplug, MoveInit, MoveWait, MoveSsh, MoveRestore;
  }

  lemma HeldAmongRestores(vm: Vm, c: Name)
    ensures Holds(vm, VolumeName(c)) <==> Has(Restores(vm.volumes), VolumeName(c)) && Has(Restores(vm.disks), VolumeName(c))
  {
    KeepMembers(vm.volumes, IsRestoreName);
    KeepMembers(vm.disks, IsRestoreName);
  }

  lemma EditsUntouched(w: World, target: string, vm: Vm, c: Name)
    requires AllowedVm(w, target, vm)
    ensures Untouched(w, Step(w, SetVm(target, vm)), c)
  {
    hide Mentions, Holds, VolumeName, Lists, Restores;
    EditsBringNoNews(w, target, vm, c);
    HeldAmongRestores(vm, c);
    if target in w.vms { HeldAmongRestores(w.vms[target], c); }
  }

  lemma OtherActHeld(w: World, d: Name, x: Outcome, c: Name)
    requires HoldInv(w, c) && d != c && Uncontested(w, Act(d, x), c)
    ensures Held(StepAct(w, d, x), c)
  {
    hide VmInv, Tidy, Held, Untouched, Move, MergePatch, VolumeName;
    OtherActUntouched(w, d, x, c);
    StaysHeld(w, StepAct(w, d, x), c);
  }

  lemma EnvironmentHeld(w: World, e: Event, c: Name)
    requires HoldInv(w, c) && Uncontested(w, e, c) && !e.Act? && !e.Start? && !e.CreateCr? && !e.DeleteCr?
    ensures Held(Step(w, e), c)
  {
    hide VmInv, Tidy, Held, Mentions, Holds, VolumeName, AllowedVm, AllowedVmi;
    match e {
      case SetVm(target, vm) => if AllowedVm(w, target, vm) { EditsUntouched(w, target, vm, c); }
      case _ =>
    }
    StaysHeld(w, Step(w, e), c);
  }

  lemma StartHeld(w: World, d: Name, c: Name)
    requires HoldInv(w, c)
    ensures Held(Step(w, Start(d)), c)
  {
    hide VmInv, Tidy, Dispatch, Mentions, Holds, VolumeName, MergePatch;
    assert Held(w, c);
    if d in w.crs { DispatchShape(w.crs[d], ViewOf(w, d)); }
  }

  lemma CreateHeld(w: World, d: Name, spec: Spec, c: Name)
    requires HoldInv(w, c)
    ensures Held(Step(w, CreateCr(d, spec)), c)
  {
    hide VersionsOk, Mentions, Holds, VolumeName, StatusOk, ThreadOk;
    assert Held(w, c) && Tidy(w, c, HOLD) && OwnOk(w, c);
  }

  lemma DeleteHeld(w: World, d: Name, c: Name)
    requires HoldInv(w, c)
    ensures Held(Step(w, DeleteCr(d)), c)
  {
    hide VmInv, Tidy, Held, Mentions, Holds, VolumeName;
    assert Held(w, c);
    if d != c || (c in w.crs && w.crs[c].finalizer) {
      StaysHeld(w, Step(w, DeleteCr(d)), c);
    } else {
      NobodyHeld(Step(w, DeleteCr(d)), c);
    }
  }

  lemma NobodyHeld(w: World, c: Name)
    requires c !in w.crs
    ensures Held(w, c)
  {
  }

  // ---------------------------------------------------------------------------
  // Own calls
  // ---------------------------------------------------------------------------

  ghost predicate HoldActing(w: World, c: Name, x: Outcome) {
    HoldInv(w, c) && Acting(w, c, x, HOLD) && Uncontested(w, Act(c, x), c)
  }

  lemma PlainHeld(w: World, c: Name, x: Outcome)
    requires HoldActing(w, c, x) && Plain(w.threads[c].pc)
    ensures Held(After(w, c, x), c)
  {
    hide VmInv, Tidy, Move, Mentions, Holds, VolumeName, MergePatch, StatusOk, ThreadOk;
    assert Held(w, c);
    OwnThread(w, c);
    StatusPhase(w.crs[c], w.clock);
    PlainMove(c, w.crs[c], w.threads[c], ViewOf(w, c), x);
    MoveEvolves(c, w.crs[c], w.threads[c], ViewOf(w, c), x);
  }

  lemma AdvanceHeld(w: World, c: Name, x: Outcome)
    requires HoldActing(w, c, x) && w.threads[c].pc.Advance? && !Plain(w.threads[c].pc)
    ensures Held(After(w, c, x), c)
  {
    hide VmInv, Tidy, Move, Mentions, Holds, VolumeName, MergePatch;
    assert Held(w, c);
    AdvanceShape(c, w.crs[c], w.threads[c], ViewOf(w, c), x);
  }

  lemma HotGetHeld(w: World, c: Name, x: Outcome)
    requires HoldActing(w, c, x) && w.threads[c].pc.HotGet?
    ensures Held(After(w, c, x), c)
  {
    hide VmInv, Tidy, Move, PlugVerdict, Mentions, Holds, VolumeName, MergePatch, NoNews;
    assert Held(w, c);
    HotGetPhase(w, c);
    if x.SawVm? {
      PresentMentions(x.vm, VolumeName(c));
      if Mentions(x.vm, VolumeName(c)) { SeenHolds(w, c); }
    }
    HotGetEffect(c, w.crs[c], w.threads[c], ViewOf(w, c), x);
    HotGetSource(c, w.crs[c], w.threads[c], ViewOf(w, c), x);
    Committed(w, c, x);
    hide After, HoldInv, ProvisionedOk;
  }

  lemma HotGetPhase(w: World, c: Name)
    requires VmInv(w) && c in w.crs && c in w.threads && w.threads[c].pc.HotGet?
    ensures w.crs[c].status.phase.Hotplugging?
  {
    OwnThread(w, c);
  }

  /** Finding the own pair in a version that does not conjure it up means holding it. */
  lemma SeenHolds(w: World, c: Name)
    requires VmInv(w) && c in w.crs && w.crs[c].spec.target in w.vms && Mentions(w.vms[w.crs[c].spec.target], VolumeName(c))
    ensures HoldsNow(w, c) && !Unplugged(w, c)
  {
    VersionExclusive(w, w.crs[c].spec.target, w.vms[w.crs[c].spec.target]);
    ExclusiveNames(w.vms[w.crs[c].spec.target], VolumeName(c));
  }

  lemma PresentMentions(vm: Vm, name: string)
    ensures PlugVerdict(vm, name) == Present ==> Mentions(vm, name)
  {
  }

  lemma HotGetSource(c: Name, cr: Cr, th: Thread, v: View, x: Outcome)
    requires th.pc.HotGet?
    ensures var e := Move(c, cr, th, v, x); e.thread.Some? && e.thread.value.pc.HotPatch? ==> cr.spec.source.pvc.Some?
  {
    hide PlugVerdict, VolumeName;
  }

  lemma HotHeld(w: World, c: Name, x: Outcome)
    requires HoldActing(w, c, x) && Hot(w.threads[c].pc) && !w.threads[c].pc.HotPatch?
    ensures Held(After(w, c, x), c)
  {
    hide VmInv, Move, MoveHot, Mentions, Holds, VolumeName, MergePatch, Covered, SucceededOk;
    assert Held(w, c) && Tidy(w, c, HOLD);
    HotPhase(w, c);
    HotEffect(c, w.crs[c], w.threads[c], ViewOf(w, c), x);
  }

  lemma HotPhase(w: World, c: Name)
    requires VmInv(w) && c in w.crs && c in w.threads && Hot(w.threads[c].pc)
    ensures w.crs[c].status.phase.Hotplugging?
  {
    OwnThread(w, c);
  }

  lemma HotPatchHeld(w: World, c: Name, x: Outcome)
    requires HoldActing(w, c, x) && w.threads[c].pc.HotPatch?
    ensures Held(After(w, c, x), c)
  {
    hide Inv, VersionsOk, Tidy, Move, MoveHot, Mentions, Holds, VolumeName, MergePatch, PlugVerdict, Exclusive, Plug, StatusOk, ThreadOk;
    assert Held(w, c);
    OwnThread(w, c);
    HotPhase(w, c);
    var cr, th, v, e := w.crs[c], w.threads[c], ViewOf(w, c), EffectOf(w, c, x);
    HotEffect(c, cr, th, v, x);
    MoveShape(c, cr, th, v, x);
    Committed(w, c, x);
    hide After;
    if e.patch.Some? {
      VersionExclusive(w, cr.spec.target, w.vms[cr.spec.target]);
      VersionExclusive(w, cr.spec.target, th.pc.base);
      PatchResult(c, cr, th, v, x, e, w.vms[cr.spec.target]);
    }
  }

  /** Calls of Cleanup, of cleanup and of the finalizer loop. */
  predicate Retiring(pc: Pc) {
    || pc.DoneGet? || pc.DonePatch? || pc.DoneDv? || pc.DoneVmi?
    || pc.CleanGet? || pc.CleanPatch? || pc.CleanDv? || pc.Finalize?
  }

  /** A restore that is retiring no longer claims the VM. */
  lemma RetiringHeld(w: World, c: Name, x: Outcome)
    requires HoldActing(w, c, x)
    requires Retiring(w.threads[c].pc)
    ensures Held(After(w, c, x), c)
  {
    hide VmInv, Tidy, Move, Mentions, Holds, VolumeName, MergePatch, Lists;
    assert Held(w, c);
    RetiredPhase(w, c);
    RetiringNoNews(w, c, x);
    RetiringEffect(w, c, x);
  }

  lemma RetiredPhase(w: World, c: Name)
    requires VmInv(w) && c in w.crs && c in w.threads
    requires Retiring(w.threads[c].pc)
    ensures w.crs[c].deleting || !InUse(w.crs[c].status.phase)
  {
    hide StatusOk, ThreadOk, VersionsOk;
    OwnThread(w, c);
    RetiredStatus(w.crs[c], w.threads[c], w.clock);
  }

  lemma RetiredStatus(cr: Cr, th: Thread, clock: nat)
    requires StatusOk(cr, clock) && ThreadOk(cr, th, clock) && Retiring(th.pc)
    ensures cr.deleting || !InUse(cr.status.phase)
  {
    hide ClockOk, Due, Checked;
  }

  lemma RetiringEffect(w: World, c: Name, x: Outcome)
    requires VmInv(w) && c in w.crs && c in w.threads
    requires Retiring(w.threads[c].pc)
    ensures var e := EffectOf(w, c, x);
            && e.cr.status == w.crs[c].status && e.cr.spec == w.crs[c].spec && e.cr.deleting == w.crs[c].deleting && !e.dv.DvCreate?
            && (e.thread.Some? ==> !e.thread.value.pc.HotPatch? && !(e.thread.value.pc.Advance? && e.thread.value.pc.to.WaitingForAttachment?))
  {
    hide VmInv, Move, MoveDone, MoveClean, VolumeName, Unplug, Lists;
    if w.threads[c].pc.Finalize? { FinalizeEffect(w, c, x); }
    else if Cleaning(w.threads[c].pc) { CleanEffect(c, w.crs[c], w.threads[c], ViewOf(w, c), x); }
    else { DoneEffect(c, w.crs[c], w.threads[c], ViewOf(w, c), x); }
  }

  lemma RetiringNoNews(w: World, c: Name, x: Outcome)
    requires VmInv(w) && c in w.crs && c in w.threads
    requires Retiring(w.threads[c].pc)
    ensures NoNews(w, After(w, c, x), c)
  {
    hide Tidy, VmInv, Move, MoveDone, MoveClean, NoNews, Commit, VolumeName;
    if w.threads[c].pc.DonePatch? || w.threads[c].pc.CleanPatch? {
      UnplugTells(w, c, x);
    } else {
      if w.threads[c].pc.Finalize? { FinalizeEffect(w, c, x); }
      else if Cleaning(w.threads[c].pc) { CleanEffect(c, w.crs[c], w.threads[c], ViewOf(w, c), x); }
      else { DoneEffect(c, w.crs[c], w.threads[c], ViewOf(w, c), x); }
      NoPatchNoNews(w, c, EffectOf(w, c, x), w.threads[c].clean);
    }
  }

  lemma OwnActHeld(w: World, c: Name, x: Outcome)
    requires HoldInv(w, c) && Undisputed(w, Act(c, x), c)
    ensures Held(StepAct(w, c, x), c)
  {
    hide Held, VmInv, Tidy, ProvisionedOk, Commit, Move, Uncontested, Honest;
    if c in w.threads && c in w.crs && !x.Crash? && Possible(w, c, x) {
      var pc := w.threads[c].pc;
      if Plain(pc) { PlainHeld(w, c, x); }
      else if pc.Advance? { AdvanceHeld(w, c, x); }
      else if pc.HotGet? { HotGetHeld(w, c, x); }
      else if pc.HotPatch? { HotPatchHeld(w, c, x); }
      else if Hot(pc) { HotHeld(w, c, x); }
      else { RetiringHeld(w, c, x); }
    } else {
      NoActHeld(w, c, x);
    }
  }

  lemma NoActHeld(w: World, c: Name, x: Outcome)
    requires HoldInv(w, c) && (c !in w.threads || c !in w.crs || x.Crash? || !Possible(w, c, x))
    ensures Held(StepAct(w, c, x), c)
  {
    hide VmInv, Tidy, Mentions, Holds, VolumeName;
    assert Held(w, c);
  }

  // ---------------------------------------------------------------------------
  // Every run
  // ---------------------------------------------------------------------------

  lemma StepProvisioned(w: World, e: Event, c: Name)
    requires HoldInv(w, c)
    ensures ProvisionedOk(Step(w, e))
  {
    hide VmInv, Tidy, Held, Move, Dispatch, MergePatch, AllowedVm, AllowedVmi;
  }

  lemma StepHeld(w: World, e: Event, c: Name)
    requires HoldInv(w, c) && Undisputed(w, e, c)
    ensures HoldInv(Step(w, e), c)
  {
    hide VmInv, Tidy, Held, Honest, Uncontested, ProvisionedOk, Step;
    StepKeepsVms(w, e);
    StepProvisioned(w, e, c);
    StepTidyOne(w, e, c, HOLD);
    StepHeldOne(w, e, c);
  }

  lemma StepHeldOne(w: World, e: Event, c: Name)
    requires HoldInv(w, c) && Undisputed(w, e, c)
    ensures Held(Step(w, e), c)
  {
    hide HoldInv, Held, StepAct, Commit, Uncontested, Honest;
    match e
    case Act(d, x) => if d == c { OwnActHeld(w, c, x); } else { OtherActHeld(w, d, x, c); }
    case Start(d) => StartHeld(w, d, c);
    case CreateCr(d, spec) => CreateHeld(w, d, spec, c);
    case DeleteCr(d) => DeleteHeld(w, d, c);
    case _ => EnvironmentHeld(w, e, c);
  }

  lemma {:induction false} ReachableHeld(w: World, events: seq<Event>, c: Name)
    requires Initial(w) && Obeys(w, events, UndisputedFor(c))
    ensures HoldInv(Exec(w, events), c)
  {
    if events == [] {
      InitiallyTidy(w, c, HOLD);
    } else {
      ReachableHeld(w, events[..|events| - 1], c);
      StepHeld(Exec(w, events[..|events| - 1]), events[|events| - 1], c);
    }
  }

  /**
   While a restore is not being deleted, its VM spec holds its volume and disk in every phase
   that uses them, whatever other restores do and read, as long as nobody else's patch replaces
   the lists while it holds them; for a snapshot its DataVolume had been provisioned before the
   volume was added.
   */
  lemma VolumeHeldWhileInUse(w: World, events: seq<Event>, c: Name)
    requires Initial(w) && Obeys(w, events, UndisputedFor(c))
    requires var now := Exec(w, events); c in now.crs && !now.crs[c].deleting && InUse(now.crs[c].status.phase)
    ensures var now := Exec(w, events); var cr := now.crs[c];
            && cr.spec.target in now.vms
            && Holds(now.vms[cr.spec.target], VolumeName(c))
            && (SnapshotSource(cr.spec.source) && !Leaked(now, c) ==> VolumeName(c) in now.provisioned)
  {
    ReachableHeld(w, events, c);
  }

  /** Fresh reads, patches computed from the current version, and nobody deletes VMs. */
  predicate Orderly(w: World, e: Event) { FreshRead(w, e) && AtomicPatch(w, e) && KeepsVms(w, e) }

  lemma OrderlyIsUndisputed(w: World, e: Event, c: Name)
    requires CleanInv(w, c, ALL) && Orderly(w, e)
    ensures Undisputed(w, e, c)
  {
    hide Inv, VersionsOk, Tidy, Mentions, Exclusive, VolumeName, Honest, PlugVerdict;
    FreshIsHonest(w, e, c, HOLD);
    if c in w.crs && HoldsNow(w, c) && Overwrites(w, e, c) {
      assert BaseOk(w, e.c);
      VersionExclusive(w, w.crs[c].spec.target, w.vms[w.crs[c].spec.target]);
      HolderIsBusy(w.vms[w.crs[c].spec.target], c, e.c);
    }
  }

  /** A VM that c holds is busy for everybody else and mentions nobody else. */
  lemma HolderIsBusy(vm: Vm, c: Name, d: Name)
    requires Exclusive(vm) && Holds(vm, VolumeName(c)) && c != d
    ensures PlugVerdict(vm, VolumeName(d)) == Busy && !Mentions(vm, VolumeName(d))
  {
    NotOther(vm, c, d);
    VolumeNamesDiffer(c, d);
  }

  /** So the volume is held in every orderly run, whoever else is there. */
  lemma {:induction false} OrderlyRunsAreUndisputed(w: World, events: seq<Event>, c: Name)
    requires Initial(w) && Obeys(w, events, Orderly)
    ensures Obeys(w, events, UndisputedFor(c)) && CleanInv(Exec(w, events), c, ALL)
  {
    hide Tidy, Honest, FreshRead, AtomicPatch, Uncontested;
    if events == [] {
      InitiallyTidy(w, c, ALL);
    } else {
      OrderlyRunsAreUndisputed(w, events[..|events| - 1], c);
      var before, e := Exec(w, events[..|events| - 1]), events[|events| - 1];
      OrderlyIsUndisputed(before, e, c);
      FreshIsHonest(before, e, c, ALL);
      StepTidy(before, e, c, ALL);
    }
  }

  // ---------------------------------------------------------------------------
  // Non-interference
  // ---------------------------------------------------------------------------

  /** The VM specs, all other restores and all DataVolumes but c's own are the same. */
  ghost predicate Undisturbed(w: World, w': World, c: Name) {
    && w'.vms == w.vms
    && (forall d: Name :: d != c ==> (d in w'.crs <==> d in w.crs) && (d in w.crs ==> w'.crs[d] == w.crs[d]))
    && (forall k :: k != VolumeName(c) ==> (k in w'.dvs <==> k in w.dvs) && (k in w.dvs ==> w'.dvs[k] == w.dvs[k]))
  }

  /**
   From the moment a restore fails because another one holds the VM until its reconcile ends,
   none of its calls changes any VM spec, any other restore's object, or any DataVolume but
   the one of its own name; provided the version its cleanup reads does not show its own name.
   */
  lemma BusyRestoreTouchesNothing(w: World, events: seq<Event>, c: Name, x: Outcome)
    requires Initial(w) && Obeys(w, events, HonestReads(c, Trust(false, false, false, true)))
    requires var now := Exec(w, events); c in now.threads && now.threads[c].busy
    ensures var now := Exec(w, events); Undisturbed(now, Step(now, Act(c, x)), c)
  {
    hide Step;
    ReachableTidy(w, events, c, Trust(false, false, false, true));
    BusyStep(Exec(w, events), c, x);
  }

  /** With current reads that needs no proviso. */
  lemma FreshLoserTouchesNothing(w: World, events: seq<Event>, c: Name, x: Outcome)
    requires Initial(w) && Obeys(w, events, FreshRead)
    requires var now := Exec(w, events); c in now.threads && now.threads[c].busy
    ensures var now := Exec(w, events); Undisturbed(now, Step(now, Act(c, x)), c)
  {
    FreshRunsAreHonest(w, events, c, Trust(false, false, false, true));
    BusyRestoreTouchesNothing(w, events, c, x);
  }

  lemma BusyStep(w: World, c: Name, x: Outcome)
    requires CleanInv(w, c, Trust(false, false, false, true)) && c in w.threads && w.threads[c].busy
    ensures Undisturbed(w, Step(w, Act(c, x)), c)
  {
    hide Move, MergePatch, VmInv, Tidy, VolumeName, Woken, Commit;
    if c in w.crs && !x.Crash? && Possible(w, c, x) {
      BusyUnplugIsNoop(w, c, x);
      NoopPatch(w, c, EffectOf(w, c, x), w.threads[c].clean);
    }
  }

  lemma NoopPatch(w: World, c: Name, e: Effect, clean: bool)
    requires c in w.crs
    requires var target := w.crs[c].spec.target;
             e.patch.Some? && target in w.vms ==> MergePatch(w.vms[target], e.patch.value.base, e.patch.value.edited) == w.vms[target]
    ensures Undisturbed(w, Commit(w, c, e, clean), c)
  {
    hide MergePatch, VolumeName, Woken;
  }

  lemma BusyUnplugIsNoop(w: World, c: Name, x: Outcome)
    requires CleanInv(w, c, Trust(false, false, false, true)) && c in w.crs && c in w.threads && w.threads[c].busy && Possible(w, c, x)
    ensures var e := EffectOf(w, c, x); var target := w.crs[c].spec.target;
            e.patch.Some? && target in w.vms ==> MergePatch(w.vms[target], e.patch.value.base, e.patch.value.edited) == w.vms[target]
  {
    hide VersionsOk, Move, StatusOk, ThreadOk;
    OwnThread(w, c);
    var cr, th, v := w.crs[c], w.threads[c], ViewOf(w, c);
    MoveShape(c, cr, th, v, x);
    if EffectOf(w, c, x).patch.Some? {
      WithoutIsId(th.pc.base.volumes, VolumeName(c));
      WithoutIsId(th.pc.base.disks, VolumeName(c));
    }
  }

  /**
   The proviso is exact: when a cleanup patches a VM that another restore holds, every VM spec
   stays as it is if and only if the version read did not show the cleaning restore's own name.
   */
  lemma CleanupSparesHolder(w: World, c: Name, x: Outcome)
    requires VmInv(w) && c in w.crs && c in w.threads && w.threads[c].pc.CleanPatch? && Applied(x)
    requires var target := w.crs[c].spec.target; target in w.vms && HeldByOther(w.vms[target], VolumeName(c))
    ensures Step(w, Act(c, x)).vms == w.vms <==> !Mentions(w.threads[c].pc.base, VolumeName(c))
  {
    hide Inv, VersionsOk, Move, StatusOk, ThreadOk, MergePatch, Exclusive, Mentions, VolumeName, Unplug;
    OwnThread(w, c);
    var cr, th, v := w.crs[c], w.threads[c], ViewOf(w, c);
    MoveShape(c, cr, th, v, x);
    UnplugIsSent(c, cr, th, v, x);
    VersionExclusive(w, cr.spec.target, w.vms[cr.spec.target]);
    VersionExclusive(w, cr.spec.target, th.pc.base);
    UnplugPatchKeepsExclusive(w.vms[cr.spec.target], th.pc.base, VolumeName(c));
    if Mentions(th.pc.base, VolumeName(c)) { UnplugEmptiesVm(th.pc.base, c, w.vms[cr.spec.target]); }
  }

  /** An exclusive VM without its one restore holds none. */
  lemma UnplugEmptiesVm(base: Vm, c: Name, current: Vm)
    requires Exclusive(base) && Mentions(base, VolumeName(c)) && HeldByOther(current, VolumeName(c))
    ensures Unplug(base, VolumeName(c)) != current
  {
    var name := VolumeName(c);
    ExclusiveNames(base, name);
    KeepMembers(base.volumes, OtherThan(name));
    KeepMembers(base.volumes, IsRestoreName);
    assert forall o :: o in Unplug(base, name).volumes && IsRestoreName(o.name) ==> o in Restores(base.volumes);
  }

  // ---------------------------------------------------------------------------
  // Reads that are not older than the scan
  // ---------------------------------------------------------------------------

  predicate Scans(w: World, e: Event, c: Name) {
    e.Act? && e.c == c && c in w.crs && c in w.threads && w.threads[c].pc.HotGet?
  }

  function Current(w: World, c: Name): set<Vm> {
    if c in w.crs && w.crs[c].spec.target in w.vms then {w.vms[w.crs[c].spec.target]} else {}
  }

  /** The versions that were current at c's last scan or at some moment since. */
  function Recent(w: World, events: seq<Event>, c: Name): set<Vm> {
    if events == [] then {}
    else
      var init, e := events[..|events| - 1], events[|events| - 1];
      var before := Exec(w, init);
      (if Scans(before, e, c) then Current(before, c) else Recent(w, init, c)) + Current(Step(before, e), c)
  }

  predicate LosersRead(w: World, e: Event, c: Name) {
    e.Act? && e.c == c && e.x.SawVm? && c in w.crs && c in w.threads && w.threads[c].busy && w.threads[c].pc.CleanGet?
  }

  /** Whenever a losing restore's cleanup reads the VM, it gets a version not older than the scan it lost. */
  predicate ReadsRecent(w: World, events: seq<Event>, c: Name) {
    events == [] ||
      var init, e := events[..|events| - 1], events[|events| - 1];
      ReadsRecent(w, init, c) && (LosersRead(Exec(w, init), e, c) ==> e.x.vm in Recent(w, init, c))
  }

  const SCAN: Trust := Trust(true, false, false, false)
  const LOSER: Trust := Trust(true, false, false, true)

  /** Nothing that was current since a losing scan shows the loser. */
  ghost predicate RecentlyAbsent(w: World, events: seq<Event>, c: Name) {
    var now := Exec(w, events);
    c in now.crs && c in now.threads && now.threads[c].busy ==> forall vm :: vm in Recent(w, events, c) ==> !Mentions(vm, VolumeName(c))
  }

  lemma OnlyScansLose(c: Name, cr: Cr, th: Thread, v: View, x: Outcome)
    requires ThreadOk(cr, th, v.clock) && !th.busy && !th.pc.HotGet?
    ensures var e := Move(c, cr, th, v, x); e.thread.Some? ==> !e.thread.value.busy
  {
    hide Move, ThreadOk;
    if Plain(th.pc) { PlainMove(c, cr, th, v, x); }
    else if th.pc.Advance? { AdvanceShape(c, cr, th, v, x); }
    else if th.pc.Finalize? { FinalizeFlags(c, cr, th, v, x); }
    else if Hot(th.pc) { HotEffect(c, cr, th, v, x); }
    else if Cleaning(th.pc) { CleanEffect(c, cr, th, v, x); }
    else { DoneEffect(c, cr, th, v, x); }
  }

  lemma FinalizeFlags(c: Name, cr: Cr, th: Thread, v: View, x: Outcome)
    requires th.pc.Finalize?
    ensures var e := Move(c, cr, th, v, x); e.thread.Some? ==> e.thread.value.busy == th.busy
  {
  }

  /** A reconcile that is losing after a step either lost in it, or was losing before on the same target. */
  lemma LosingBefore(w: World, e: Event, c: Name)
    requires CleanInv(w, c, LOSER)
    requires var now := Step(w, e); c in now.crs && c in now.threads && now.threads[c].busy
    ensures c in w.crs && c in w.threads && (Scans(w, e, c) || w.threads[c].busy)
    ensures Scans(w, e, c) ==> Current(w, c) == Current(Step(w, e), c)
  {
    hide VmInv, Tidy, Step, Current;
    if e.Act? && e.c == c {
      OwnLosing(w, c, e.x);
    } else if e.Start? && e.c == c {
      StartLoses(w, c);
    } else {
      OthersKeepOwn(w, e, c);
      LosingIsThere(w, c);
    }
  }

  lemma LosingIsThere(w: World, c: Name)
    requires CleanInv(w, c, LOSER) && c in w.threads && w.threads[c].busy
    ensures c in w.crs
  {
    hide VmInv, Settled;
    if c !in w.crs { OrphanThread(w, c); }
  }

  /** A reconcile that is already running stays as it is; a new one has not lost yet. */
  lemma StartLoses(w: World, c: Name)
    requires CleanInv(w, c, LOSER)
    requires var now := Step(w, Start(c)); c in now.crs && c in now.threads && now.threads[c].busy
    ensures c in w.crs && c in w.threads && w.threads[c].busy
  {
    hide VmInv, Tidy, Dispatch, MergePatch, VolumeName;
    if c in w.crs { DispatchShape(w.crs[c], ViewOf(w, c)); }
  }

  lemma OwnLosing(w: World, c: Name, x: Outcome)
    requires CleanInv(w, c, LOSER)
    requires var now := Step(w, Act(c, x)); c in now.crs && c in now.threads && now.threads[c].busy
    ensures c in w.crs && c in w.threads && (Scans(w, Act(c, x), c) || w.threads[c].busy)
    ensures Scans(w, Act(c, x), c) ==> Current(w, c) == Current(Step(w, Act(c, x)), c)
  {
    hide VmInv, Tidy, Commit, Move;
    if c in w.crs && c in w.threads && !x.Crash? && Possible(w, c, x) {
      assert Step(w, Act(c, x)) == After(w, c, x);
      Committed(w, c, x);
      OwnThread(w, c);
      hide After, ThreadOk, StatusOk;
      if w.threads[c].pc.HotGet? { HotGetEffect(c, w.crs[c], w.threads[c], ViewOf(w, c), x); }
      else if !w.threads[c].busy { OnlyScansLose(c, w.crs[c], w.threads[c], ViewOf(w, c), x); }
    }
  }

  /** If c's scans do not hide its own entries and its losing cleanups read nothing older than the scan, they never show c. */
  lemma {:induction false} RecentRunsAreHonest(w: World, events: seq<Event>, c: Name)
    requires Initial(w) && Obeys(w, events, HonestReads(c, SCAN)) && ReadsRecent(w, events, c)
    ensures Obeys(w, events, HonestReads(c, Trust(false, false, false, true)))
    ensures CleanInv(Exec(w, events), c, LOSER) && RecentlyAbsent(w, events, c)
  {
    hide Tidy, Honest, Step, VmInv;
    if events == [] {
      InitiallyTidy(w, c, LOSER);
      NobodyLoses(w, c);
    } else {
      var init, e := events[..|events| - 1], events[|events| - 1];
      var before, now := Exec(w, init), Exec(w, events);
      RecentRunsAreHonest(w, init, c);
      LoserIsHonest(before, e, c);
      StepTidy(before, e, c, LOSER);
      if c in now.crs && c in now.threads && now.threads[c].busy {
        LosingBefore(before, e, c);
        CurrentAbsent(now, c);
      }
    }
  }

  lemma NobodyLoses(w: World, c: Name)
    requires Initial(w)
    ensures c !in w.crs
  {
  }

  lemma CurrentAbsent(w: World, c: Name)
    requires CleanInv(w, c, LOSER) && c in w.crs && c in w.threads && w.threads[c].busy
    ensures forall vm :: vm in Current(w, c) ==> !Mentions(vm, VolumeName(c))
  {
  }

  lemma LoserIsHonest(w: World, e: Event, c: Name)
    requires Honest(w, e, c, SCAN) && (LosersRead(w, e, c) ==> !Mentions(e.x.vm, VolumeName(c)))
    ensures Honest(w, e, c, LOSER) && Honest(w, e, c, Trust(false, false, false, true))
  {
  }

  /**
   A cache that never serves a losing restore's cleanup anything older than the scan it lost is
   enough, whatever it serves to others: the loser touches nothing.
   */
  lemma RecentLoserTouchesNothing(w: World, events: seq<Event>, c: Name, x: Outcome)
    requires Initial(w) && Obeys(w, events, HonestReads(c, SCAN)) && ReadsRecent(w, events, c)
    requires var now := Exec(w, events); c in now.threads && now.threads[c].busy
    ensures var now := Exec(w, events); Undisturbed(now, Step(now, Act(c, x)), c)
  {
    RecentRunsAreHonest(w, events, c);
    BusyRestoreTouchesNothing(w, events, c, x);
  }
}
