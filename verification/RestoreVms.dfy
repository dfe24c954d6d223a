/**
 The shared VM specs over whole runs: mutual exclusion under arbitrarily stale reads, and what
 the operator's patches do to everybody else's entries.
 */
module RestoreVms {
  import opened VmSpec
  import opened GuestOs
  import opened RestoreModel
  import opened RestoreStatus
  import opened RestoreProgress
  import opened RestoreRuns
  import Backoff
  import FileCount

  /** Every version any VM ever had is exclusive. */
  ghost predicate VersionsOk(w: World) {
    && (forall p :: p in w.past ==> Exclusive(p.1))
    && (forall t :: t in w.vms ==> (t, w.vms[t]) in w.past)
  }

  predicate Hot(pc: Pc) { pc.HotDv? || pc.HotCreate? || pc.HotReget? || pc.HotPatch? }
  predicate HasBase(pc: Pc) { Hot(pc) || pc.CleanPatch? || pc.DonePatch? }

  /** What a reconcile remembers of the VM is some version the VM had. */
  predicate BaseOk(w: World, c: Name) {
    c in w.crs && c in w.threads && HasBase(w.threads[c].pc) ==>
      && (w.crs[c].spec.target, w.threads[c].pc.base) in w.past
      && (Hot(w.threads[c].pc) ==> PlugVerdict(w.threads[c].pc.base, VolumeName(c)) == Absent)
  }

  ghost predicate VmInv(w: World) {
    Inv(w) && VersionsOk(w) && forall c: Name :: BaseOk(w, c)
  }

  // ---------------------------------------------------------------------------
  // What one call can do to a VM
  // ---------------------------------------------------------------------------

  /** Calls that never touch a VM or a DataVolume and never lead to one that has read a VM. */
  predicate Plain(pc: Pc) {
    || pc.AddFinalizer? || pc.InitRead? || pc.InitMount? || pc.FailPatch? || pc.CleanGuest?
    || (pc.Advance? && !pc.to.Succeeded? && !pc.to.WaitingForAttachment?)
    || InWait(pc) || InSsh(pc) || InRestore(pc)
  }

  /** The calls a plain call leads to. */
  predicate AfterPlain(pc: Pc) { Plain(pc) || pc.CleanGet? }

  predicate SameFlags(a: Thread, b: Thread) {
    a.deletion == b.deletion && a.clean == b.clean && a.busy == b.busy && a.vmGone == b.vmGone && a.entry == b.entry
  }

  predicate Harmless(cr: Cr, th: Thread, e: Effect) {
    && e.patch.None? && e.dv.DvKeep? && !e.gone && e.cr.spec == cr.spec
    && e.cr.deleting == cr.deleting && (cr.finalizer ==> e.cr.finalizer)
    && (e.thread.Some? ==> AfterPlain(e.thread.value.pc) && SameFlags(th, e.thread.value))
    && (e.thread.Some? && (th.pc.FailPatch? || th.pc.CleanGuest?) ==> Cleaning(e.thread.value.pc))
    && (e.cr.status.phase != cr.status.phase ==> !e.cr.status.phase.Succeeded? && !e.cr.status.phase.WaitingForAttachment?)
    && (e.cr.hist.vmGone == cr.hist.vmGone || !cr.status.phase.Succeeded?)
  }

  lemma WaitIsHarmless(c: Name, cr: Cr, th: Thread, v: View, x: Outcome)
    requires InWait(th.pc)
    ensures Harmless(cr, th, MoveWait(c, cr, th, v, x))
  {
    if th.pc.WaitStamp? { WaitStampIsHarmless(c, cr, th, v, x); } else { WaitOtherIsHarmless(c, cr, th, v, x); }
  }

  lemma WaitStampIsHarmless(c: Name, cr: Cr, th: Thread, v: View, x: Outcome)
    requires th.pc.WaitStamp?
    ensures Harmless(cr, th, MoveWait(c, cr, th, v, x))
  {
    hide Seconds;
  }

  lemma WaitOtherIsHarmless(c: Name, cr: Cr, th: Thread, v: View, x: Outcome)
    requires InWait(th.pc) && !th.pc.WaitStamp?
    ensures Harmless(cr, th, MoveWait(c, cr, th, v, x))
  {
    if th.pc.WaitVmi? { WaitVmiIsHarmless(c, cr, th, v, x); } else { WaitRetryIsHarmless(c, cr, th, v, x); }
  }

  lemma WaitVmiIsHarmless(c: Name, cr: Cr, th: Thread, v: View, x: Outcome)
    requires th.pc.WaitVmi?
    ensures Harmless(cr, th, MoveWait(c, cr, th, v, x))
  {
    hide VolumeName, CheckAttachment;
  }

  lemma WaitRetryIsHarmless(c: Name, cr: Cr, th: Thread, v: View, x: Outcome)
    requires th.pc.WaitRetry? || th.pc.WaitReset?
    ensures Harmless(cr, th, MoveWait(c, cr, th, v, x))
  {
    hide Backoff.Delay;
  }

  lemma SshIsHarmless(cr: Cr, th: Thread, v: View, x: Outcome)
    requires InSsh(th.pc)
    ensures Harmless(cr, th, MoveSsh(cr, th, v, x))
  {
    if th.pc.SshStamp? || th.pc.SshConnect? { SshTryIsHarmless(cr, th, v, x); } else { SshRetryIsHarmless(cr, th, v, x); }
  }

  lemma SshTryIsHarmless(cr: Cr, th: Thread, v: View, x: Outcome)
    requires th.pc.SshStamp? || th.pc.SshConnect?
    ensures Harmless(cr, th, MoveSsh(cr, th, v, x))
  {
    hide Seconds;
  }

  lemma SshRetryIsHarmless(cr: Cr, th: Thread, v: View, x: Outcome)
    requires th.pc.SshRetry? || th.pc.SshReset?
    ensures Harmless(cr, th, MoveSsh(cr, th, v, x))
  {
    hide Backoff.Delay;
  }

  lemma RestoreIsHarmless(cr: Cr, th: Thread, x: Outcome)
    requires InRestore(th.pc)
    ensures Harmless(cr, th, MoveRestore(cr, th, x))
  {
    hide FileCount.ReportedCount;
  }

  lemma InitIsHarmless(c: Name, cr: Cr, th: Thread, v: View, x: Outcome)
    requires th.pc.InitRead? || th.pc.InitMount?
    ensures Harmless(cr, th, MoveInit(c, cr, th, v, x))
  {
    hide MountPath, DetectGuestOs;
  }

  lemma PatchIsHarmless(c: Name, cr: Cr, th: Thread, v: View, x: Outcome)
    requires ThreadOk(cr, th, v.clock) && Plain(th.pc)
    requires th.pc.AddFinalizer? || th.pc.Advance? || th.pc.FailPatch? || th.pc.CleanGuest?
    ensures Harmless(cr, th, Move(c, cr, th, v, x))
  {
    hide Seconds;
  }

  lemma PlainMove(c: Name, cr: Cr, th: Thread, v: View, x: Outcome)
    requires Plain(th.pc) && ThreadOk(cr, th, v.clock)
    ensures Harmless(cr, th, Move(c, cr, th, v, x))
  {
    hide MoveInit, MoveWait, MoveSsh, MoveRestore, MoveHot, MoveDone, MoveFinalize;
    if InWait(th.pc) {
      hide Harmless;
      WaitIsHarmless(c, cr, th, v, x);
    } else if InSsh(th.pc) {
      hide Harmless;
      SshIsHarmless(cr, th, v, x);
    } else if InRestore(th.pc) {
      hide Harmless;
      RestoreIsHarmless(cr, th, x);
    } else if th.pc.InitRead? || th.pc.InitMount? {
      hide Harmless;
      InitIsHarmless(c, cr, th, v, x);
    } else {
      hide Harmless, Move, ThreadOk;
      PatchIsHarmless(c, cr, th, v, x);
    }
  }

  /** The patch a call sends, if it takes effect. */
  predicate PatchShape(c: Name, cr: Cr, th: Thread, v: View, x: Outcome, e: Effect) {
    e.patch.Some? ==>
      && v.vmThere && Applied(x) && HasBase(th.pc) && e.patch.value.base == th.pc.base
      && (th.pc.HotPatch? ==> e.patch.value.edited == Plug(th.pc.base, VolumeName(c), ClaimName(c, cr.spec.source)))
      && (!th.pc.HotPatch? ==> (th.pc.CleanPatch? || th.pc.DonePatch?) && e.patch.value.edited == Unplug(th.pc.base, VolumeName(c)))
  }

  /** The version a call remembers, if any: the one it had, or the one it just read. */
  predicate BaseShape(c: Name, th: Thread, x: Outcome, e: Effect) {
    e.thread.Some? && HasBase(e.thread.value.pc) ==>
      var pc := e.thread.value.pc;
      || (HasBase(th.pc) && pc.base == th.pc.base && (Hot(pc) ==> Hot(th.pc)))
      || (x.SawVm? && ReadsVm(th.pc) && pc.base == x.vm && (Hot(pc) ==> th.pc.HotGet? && PlugVerdict(x.vm, VolumeName(c)) == Absent))
  }

  lemma HotGetShape(c: Name, cr: Cr, th: Thread, v: View, x: Outcome)
    requires th.pc.HotGet?
    ensures var e := MoveHot(c, cr, th, v, x); PatchShape(c, cr, th, v, x, e) && BaseShape(c, th, x, e)
  {
    hide PlugVerdict, VolumeName, Plug, ClaimName;
  }

  lemma HotShape(c: Name, cr: Cr, th: Thread, v: View, x: Outcome)
    requires Hot(th.pc)
    ensures var e := MoveHot(c, cr, th, v, x); PatchShape(c, cr, th, v, x, e) && BaseShape(c, th, x, e)
  {
    hide PlugVerdict, VolumeName, Plug, ClaimName;
  }

  lemma DoneShape(c: Name, cr: Cr, th: Thread, v: View, x: Outcome)
    requires th.pc.DoneGet? || th.pc.DonePatch? || th.pc.DoneDv? || th.pc.DoneVmi?
    ensures var e := MoveDone(c, cr, th, v, x); PatchShape(c, cr, th, v, x, e) && BaseShape(c, th, x, e)
  {
    hide PlugVerdict, VolumeName, Unplug, Lists;
  }

  lemma CleanShape(c: Name, cr: Cr, th: Thread, v: View, x: Outcome)
    requires Cleaning(th.pc)
    ensures var e := MoveClean(c, cr, th, v, x); PatchShape(c, cr, th, v, x, e) && BaseShape(c, th, x, e)
  {
    hide PlugVerdict, VolumeName, Unplug, Plug, ClaimName;
    if th.pc.CleanPatch? { CleanPatchShape(c, cr, th, v, x); }
  }

  lemma CleanPatchShape(c: Name, cr: Cr, th: Thread, v: View, x: Outcome)
    requires th.pc.CleanPatch?
    ensures var e := MoveClean(c, cr, th, v, x);
            && PatchShape(c, cr, th, v, x, e)
            && (e.thread.Some? ==> !HasBase(e.thread.value.pc))
  {
    hide PlugVerdict, VolumeName, Unplug, Plug, ClaimName;
  }

  lemma MoveShape(c: Name, cr: Cr, th: Thread, v: View, x: Outcome)
    requires ThreadOk(cr, th, v.clock)
    ensures var e := Move(c, cr, th, v, x); PatchShape(c, cr, th, v, x, e) && BaseShape(c, th, x, e)
  {
    hide ThreadOk, PlugVerdict, VolumeName, Plug, Unplug, PatchShape, BaseShape, MoveHot, MoveDone, MoveClean, MoveInit, MoveWait, MoveSsh, MoveRestore;
    match th.pc
    case HotGet => HotGetShape(c, cr, th, v, x);
    case HotDv(_) => HotShape(c, cr, th, v, x);
    case HotCreate(_) => HotShape(c, cr, th, v, x);
    case HotReget(_) => HotShape(c, cr, th, v, x);
    case HotPatch(_) => HotShape(c, cr, th, v, x);
    case DoneGet => DoneShape(c, cr, th, v, x);
    case DonePatch(_) => DoneShape(c, cr, th, v, x);
    case DoneDv => DoneShape(c, cr, th, v, x);
    case DoneVmi => DoneShape(c, cr, th, v, x);
    case CleanGuest => CleanShape(c, cr, th, v, x);
    case CleanGet => CleanShape(c, cr, th, v, x);
    case CleanPatch(_) => CleanShape(c, cr, th, v, x);
    case CleanDv => CleanShape(c, cr, th, v, x);
    case _ => OtherShape(c, cr, th, v, x);
  }

  lemma OtherShape(c: Name, cr: Cr, th: Thread, v: View, x: Outcome)
    requires ThreadOk(cr, th, v.clock)
    requires !Hot(th.pc) && !th.pc.HotGet? && !Cleaning(th.pc) && !th.pc.DoneGet? && !th.pc.DonePatch? && !th.pc.DoneDv? && !th.pc.DoneVmi?
    ensures var e := Move(c, cr, th, v, x); PatchShape(c, cr, th, v, x, e) && BaseShape(c, th, x, e)
  {
    hide ThreadOk, VolumeName, Move, MoveFinalize, Plug, Unplug, PlugVerdict;
    if th.pc.Advance? {
      AdvanceShape(c, cr, th, v, x);
    } else if th.pc.Finalize? {
      FinalizeShape(c, cr, th, v, x);
    } else {
      PlainMove(c, cr, th, v, x);
    }
  }

  lemma FinalizeShape(c: Name, cr: Cr, th: Thread, v: View, x: Outcome)
    requires th.pc.Finalize?
    ensures var e := Move(c, cr, th, v, x); e.patch.None? && (e.thread.Some? ==> e.thread.value.pc.Finalize?)
  {
  }

  /** A call that takes effect on a VM leaves it exclusive, and adds no name but its own. */
  lemma PatchResult(c: Name, cr: Cr, th: Thread, v: View, x: Outcome, e: Effect, current: Vm)
    requires PatchShape(c, cr, th, v, x, e) && e.patch.Some?
    requires Exclusive(current) && Exclusive(th.pc.base)
    requires Hot(th.pc) ==> PlugVerdict(th.pc.base, VolumeName(c)) == Absent
    ensures var after := MergePatch(current, e.patch.value.base, e.patch.value.edited);
            && Exclusive(after)
            && (th.pc.HotPatch? ==> Holds(after, VolumeName(c)))
            && (!th.pc.HotPatch? ==> after == if Mentions(th.pc.base, VolumeName(c)) then Unplug(th.pc.base, VolumeName(c)) else current)
            && (forall other: Name :: other != c && Mentions(after, VolumeName(other)) ==> Mentions(current, VolumeName(other)))
  {
    var base, name := th.pc.base, VolumeName(c);
    if th.pc.HotPatch? {
      var claim := ClaimName(c, cr.spec.source);
      PlugKeepsExclusive(base, name, claim);
      PlugPatch(current, base, name, claim);
      forall other: Name | other != c ensures !Mentions(Plug(base, name, claim), VolumeName(other)) {
        NotOther(Plug(base, name, claim), c, other);
      }
    } else {
      UnplugPatchKeepsExclusive(current, base, name);
      if Mentions(base, name) {
        ExclusiveNames(base, name);
        forall other: Name | other != c ensures !Mentions(Unplug(base, name), VolumeName(other)) {
          NotOther(base, c, other);
          VolumeNamesDiffer(c, other);
          UnplugKeepsOthers(base, name, VolumeName(other));
        }
      }
    }
  }

  lemma VolumeNamesDiffer(c: Name, d: Name)
    requires c != d
    ensures VolumeName(c) != VolumeName(d)
  {
  }

  /** An exclusive VM that holds one restore mentions no other. */
  lemma NotOther(vm: Vm, c: Name, other: Name)
    requires Exclusive(vm) && Mentions(vm, VolumeName(c)) && other != c
    ensures !Mentions(vm, VolumeName(other))
  {
    VolumeNamesDiffer(c, other);
    ExclusiveNames(vm, VolumeName(c));
    ExclusiveNames(vm, VolumeName(other));
  }

  // ---------------------------------------------------------------------------
  // Every step keeps the VMs exclusive
  // ---------------------------------------------------------------------------

  lemma CommitKeepsVms(w: World, c: Name, x: Outcome)
    requires VmInv(w) && c in w.crs && c in w.threads && Possible(w, c, x)
    ensures var w' := Commit(w, c, EffectOf(w, c, x), w.threads[c].clean);
            VersionsOk(w') && BaseOk(w', c) && w.past <= w'.past
  {
    hide Exclusive, PlugVerdict, Move, MergePatch, Plug, Unplug, StatusOk, ThreadOk;
    assert OwnOk(w, c) && BaseOk(w, c);
    var cr, th, v, e := w.crs[c], w.threads[c], ViewOf(w, c), EffectOf(w, c, x);
    MoveShape(c, cr, th, v, x);
    SpecKept(c, cr, th, v, x);
    if e.patch.Some? {
      assert (cr.spec.target, w.vms[cr.spec.target]) in w.past;
      PatchResult(c, cr, th, v, x, e, w.vms[cr.spec.target]);
    }
  }

  lemma SpecKept(c: Name, cr: Cr, th: Thread, v: View, x: Outcome)
    requires ThreadOk(cr, th, v.clock)
    ensures Move(c, cr, th, v, x).cr.spec == cr.spec
  {
    hide Move, ThreadOk;
    if Plain(th.pc) {
      PlainMove(c, cr, th, v, x);
    } else if th.pc.Advance? {
      AdvanceShape(c, cr, th, v, x);
    } else {
      QuietEvolves(c, cr, th, v, x);
    }
  }

  lemma AdvanceShape(c: Name, cr: Cr, th: Thread, v: View, x: Outcome)
    requires th.pc.Advance?
    ensures var e := Move(c, cr, th, v, x);
            && e.patch.None? && e.dv.DvKeep? && !e.gone && e.thread.None? && !e.ret.Running?
            && e.cr.spec == cr.spec && e.cr.finalizer == cr.finalizer && e.cr.deleting == cr.deleting
            && (e.cr == cr || (Applied(x) && e.cr == Advanced(cr, th.pc.to, th.vmGone, v.clock)))
  {
  }

  lemma ActKeepsVms(w: World, c: Name, x: Outcome)
    requires VmInv(w)
    ensures var w' := StepAct(w, c, x); VersionsOk(w') && (forall d: Name :: BaseOk(w', d)) && w.past <= w'.past
  {
    hide Inv, VersionsOk, Exclusive, PlugVerdict, Move, MergePatch, BaseOk, Commit;
    var w' := StepAct(w, c, x);
    if c in w.threads && c in w.crs && !x.Crash? && Possible(w, c, x) {
      CommitKeepsVms(w, c, x);
    } else {
      IdleKeepsVms(w, c, x);
    }
    forall d: Name ensures BaseOk(w', d) {
      assert BaseOk(w, d);
      if d != c { OthersBaseStays(w, c, x, d); }
    }
  }

  /** A call that does not come about changes no version; what it leaves of a reconcile remembers none. */
  lemma IdleKeepsVms(w: World, c: Name, x: Outcome)
    requires VmInv(w) && (c !in w.threads || c !in w.crs || x.Crash? || !Possible(w, c, x))
    ensures var w' := StepAct(w, c, x); VersionsOk(w') && BaseOk(w', c) && w.past <= w'.past
  {
    hide VersionsOk, Exclusive, PlugVerdict, Move, MergePatch, StatusOk, ThreadOk;
    assert OwnOk(w, c) && BaseOk(w, c);
    SameVersions(w, StepAct(w, c, x));
  }

  lemma OthersBaseStays(w: World, c: Name, x: Outcome, d: Name)
    requires BaseOk(w, d) && d != c && w.past <= StepAct(w, c, x).past
    ensures BaseOk(StepAct(w, c, x), d)
  {
    hide Move, MergePatch, PlugVerdict, VolumeName;
  }

  lemma SameVersions(w: World, w': World)
    requires VersionsOk(w) && w'.vms == w.vms && w'.past == w.past
    ensures VersionsOk(w')
  {
  }

  lemma SetVmKeepsVms(w: World, target: string, vm: Vm)
    requires VersionsOk(w) && AllowedVm(w, target, vm)
    ensures VersionsOk(Step(w, SetVm(target, vm)))
  {
  }

  /** The calls a reconcile can start with. */
  predicate AtStart(pc: Pc) { Plain(pc) || pc.HotGet? || pc.DoneGet? }

  lemma DispatchShape(cr: Cr, v: View)
    ensures var e := Dispatch(cr, v);
            && e.cr == cr && e.patch.None? && e.dv.DvKeep? && !e.gone
            && (e.thread.Some? ==> AtStart(e.thread.value.pc) && !e.thread.value.busy && !e.thread.value.vmGone)
  {
  }

  lemma StartKeepsVms(w: World, c: Name)
    requires VmInv(w)
    ensures var w' := Step(w, Start(c)); VersionsOk(w') && (forall d: Name :: BaseOk(w', d))
  {
    hide VersionsOk, Exclusive, PlugVerdict, MergePatch, Dispatch;
    var w' := Step(w, Start(c));
    if c in w.crs { DispatchShape(w.crs[c], ViewOf(w, c)); }
    SameVersions(w, w');
    forall d: Name ensures BaseOk(w', d) {
      assert BaseOk(w, d);
    }
  }

  lemma StepKeepsVms(w: World, e: Event)
    requires VmInv(w)
    ensures VmInv(Step(w, e))
  {
    hide Inv, VersionsOk, PlugVerdict, StepAct, Exclusive, Commit;
    StepKeeps(w, e);
    var w' := Step(w, e);
    match e
    case Act(c, x) => ActKeepsVms(w, c, x);
    case Start(c) => StartKeepsVms(w, c);
    case SetVm(target, vm) =>
      if AllowedVm(w, target, vm) { SetVmKeepsVms(w, target, vm); }
      forall d: Name ensures BaseOk(w', d) { assert BaseOk(w, d); }
    case DeleteVm(target) =>
      DroppedVersion(w, target);
      forall d: Name ensures BaseOk(w', d) { assert BaseOk(w, d); }
    case CreateCr(c, spec) =>
      SameVersions(w, w');
      forall d: Name ensures BaseOk(w', d) { assert BaseOk(w, d); CreatedHasNoBase(w, c); }
    case _ =>
      SameVersions(w, w');
      forall d: Name ensures BaseOk(w', d) { assert BaseOk(w, d); }
  }

  lemma CreatedHasNoBase(w: World, c: Name)
    requires Inv(w)
    ensures c !in w.crs && c in w.threads ==> !HasBase(w.threads[c].pc)
  {
    assert OwnOk(w, c);
  }

  lemma DroppedVersion(w: World, target: string)
    requires VersionsOk(w)
    ensures VersionsOk(Step(w, DeleteVm(target)))
  {
  }

  lemma {:induction false} ReachableVms(w: World, events: seq<Event>)
    requires Initial(w)
    ensures VmInv(Exec(w, events))
  {
    if events == [] {
      Reachable(w, []);
    } else {
      ReachableVms(w, events[..|events| - 1]);
      StepKeepsVms(Exec(w, events[..|events| - 1]), events[|events| - 1]);
    }
  }

  /**
   Over all runs of any number of restores, even if every VM read returns an arbitrary earlier
   version: each VM spec has at most one "-restore" volume, without duplicates, together with
   exactly the disk of that name; so the "partial hotplug" branch is never taken.
   */
  lemma MutualExclusion(w: World, events: seq<Event>, target: string, c: Name, seen: Vm)
    requires Initial(w)
    ensures var now := Exec(w, events);
            target in now.vms ==>
              && |Restores(now.vms[target].volumes)| <= 1 && |Restores(now.vms[target].disks)| <= 1
              && (Has(now.vms[target].volumes, VolumeName(c)) <==> Has(now.vms[target].disks, VolumeName(c)))
    ensures (target, seen) in Exec(w, events).past ==> PlugVerdict(seen, VolumeName(c)) != Partial
  {
    ReachableVms(w, events);
    var now := Exec(w, events);
    if target in now.vms {
      assert (target, now.vms[target]) in now.past;
      ExclusiveNames(now.vms[target], VolumeName(c));
    }
    if (target, seen) in now.past {
      NeverPartial(seen, VolumeName(c));
    }
  }

  // ---------------------------------------------------------------------------
  // Ordinary entries
  // ---------------------------------------------------------------------------

  function OrdinaryVms(vms: map<string, Vm>): map<string, Vm> { map t | t in vms :: OrdinaryVm(vms[t]) }

  /** What the owner of the VMs does to their ordinary entries in one step. */
  function Edited(w: World, e: Event, vms: map<string, Vm>): map<string, Vm> {
    match e
    case SetVm(target, vm) => if AllowedVm(w, target, vm) then vms[target := OrdinaryVm(vm)] else vms
    case DeleteVm(target) => vms - {target}
    case _ => vms
  }

  /** The ordinary entries if the owner's edits were all that ever happened. */
  function OwnersView(w: World, events: seq<Event>): map<string, Vm> {
    if events == [] then OrdinaryVms(w.vms)
    else
      var before := events[..|events| - 1];
      Edited(Exec(w, before), events[|events| - 1], OwnersView(w, before))
  }

  /** A patch that takes effect was computed from a version with the ordinary entries of the moment. */
  predicate NoEditBetween(w: World, e: Event) {
    e.Act? && e.c in w.threads && e.c in w.crs && Applied(e.x) && w.crs[e.c].spec.target in w.vms ==>
      var pc, current, name := w.threads[e.c].pc, w.vms[w.crs[e.c].spec.target], VolumeName(e.c);
      && (pc.HotPatch? ==> OrdinaryVm(pc.base) == OrdinaryVm(current))
      && (pc.CleanPatch? || pc.DonePatch? ==> !Mentions(pc.base, name) || OrdinaryVm(pc.base) == OrdinaryVm(current))
  }

  /** The call of a reconcile keeps the ordinary entries of its target. */
  lemma ActKeepsOrdinary(w: World, c: Name, x: Outcome)
    requires VmInv(w) && NoEditBetween(w, Act(c, x)) && c in w.crs && c in w.threads
    ensures OrdinaryVms(Commit(w, c, EffectOf(w, c, x), w.threads[c].clean).vms) == OrdinaryVms(w.vms)
  {
    hide Exclusive, PlugVerdict, Move, OrdinaryVm, MergePatch, Plug, Unplug, Mentions, StatusOk, ThreadOk;
    var cr, th, v, e := w.crs[c], w.threads[c], ViewOf(w, c), EffectOf(w, c, x);
    assert OwnOk(w, c) && BaseOk(w, c);
    MoveShape(c, cr, th, v, x);
    if e.patch.Some? {
      var current := w.vms[cr.spec.target];
      assert (cr.spec.target, current) in w.past;
      PatchKeepsOrdinary(current, th.pc.base, VolumeName(c), ClaimName(c, cr.spec.source));
      assert OrdinaryVm(MergePatch(current, e.patch.value.base, e.patch.value.edited)) == OrdinaryVm(current);
    }
  }

  lemma StartKeepsVmMap(w: World, c: Name)
    ensures Step(w, Start(c)).vms == w.vms
  {
    hide Dispatch, MergePatch, VolumeName;
    if c in w.crs { DispatchShape(w.crs[c], ViewOf(w, c)); }
  }

  lemma StepKeepsOrdinary(w: World, e: Event)
    requires VmInv(w) && NoEditBetween(w, e)
    ensures OrdinaryVms(Step(w, e).vms) == Edited(w, e, OrdinaryVms(w.vms))
  {
    hide VmInv, NoEditBetween, Commit, EffectOf, OrdinaryVm, AllowedVm, AllowedVmi;
    match e {
      case Start(c) => StartKeepsVmMap(w, c);
      case Act(c, x) => if c in w.crs && c in w.threads { ActKeepsOrdinary(w, c, x); }
      case _ =>
    }
  }

  /**
   Unless the VM's owner edits it between a restore's read and the patch computed from it, any
   interleaving of hotplugs and unplugs by any restores is invisible among the ordinary volumes
   and disks of every VM: at every moment they are what the owner's own edits made them, in order.
   */
  lemma {:induction false} OrdinaryEntriesKept(w: World, events: seq<Event>)
    requires Initial(w) && Obeys(w, events, NoEditBetween)
    ensures OrdinaryVms(Exec(w, events).vms) == OwnersView(w, events)
  {
    hide NoEditBetween, OrdinaryVms, Edited, Step;
    if events != [] {
      OrdinaryEntriesKept(w, events[..|events| - 1]);
      ReachableVms(w, events[..|events| - 1]);
      StepKeepsOrdinary(Exec(w, events[..|events| - 1]), events[|events| - 1]);
    }
  }
}
