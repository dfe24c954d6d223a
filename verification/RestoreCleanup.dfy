/**
 Crash-safe cleanup, what Succeeded means and what a losing restore leaves alone.  Reads come
 from a cache and may be stale; each result asks only that certain reads of the restore it
 speaks about are not stale with respect to that restore's own name.
 */
module RestoreCleanup {
  import opened Text
  import opened VmSpec
  import opened GuestOs
  import opened RestoreModel
  import opened RestoreStatus
  import opened RestoreProgress
  import opened RestoreRuns
  import opened RestoreVms

  predicate Unplugged(w: World, c: Name)
    requires c in w.crs
  {
    w.crs[c].spec.target in w.vms ==> !Mentions(w.vms[w.crs[c].spec.target], VolumeName(c))
  }

  predicate NoDv(w: World, c: Name)
    requires c in w.crs
  {
    w.crs[c].spec.source.snapshot.Some? ==> VolumeName(c) !in w.dvs
  }

  predicate Unlisted(w: World, c: Name)
    requires c in w.crs
  {
    w.crs[c].spec.target in w.vmis ==> !Lists(w.vmis[w.crs[c].spec.target], VolumeName(c))
  }

  /** The version that was read still shows the restore if the VM has it. */
  predicate Shown(w: World, c: Name, base: Vm)
    requires c in w.crs
  {
    var target := w.crs[c].spec.target;
    target in w.vms && Mentions(w.vms[target], VolumeName(c)) ==> Mentions(base, VolumeName(c))
  }

  /**
   Which of the restore's own reads are to be trusted, and so what can be said about it: the scan
   before a hotplug, the VM read of a deletion-time cleanup, the reads of phase Cleanup, the VM
   read of the cleanup behind a lost contest for the VM.
   */
  datatype Trust = Trust(hot: bool, deletion: bool, success: bool, loser: bool)

  /** The reads of restore c that t trusts do not hide, or conjure up, c's own entries. */
  predicate Honest(w: World, e: Event, c: Name, t: Trust) {
    e.Act? && e.c == c && c in w.threads && c in w.crs ==>
      var th, x := w.threads[c], e.x;
      && (t.hot && th.pc.HotGet? && x.SawVm? ==> Shown(w, c, x.vm))
      && (t.deletion && th.deletion && th.pc.CleanGet? && x.SawVm? ==> Shown(w, c, x.vm))
      && (t.success && th.pc.DoneGet? && x.SawVm? ==> Shown(w, c, x.vm))
      && (t.success && th.pc.DoneVmi? && (x.NotFound? || (x.SawVmi? && !Lists(x.vmi, VolumeName(c)))) ==> Unlisted(w, c))
      && (t.loser && th.busy && th.pc.CleanGet? && x.SawVm? ==> !Mentions(x.vm, VolumeName(c)))
  }

  function HonestReads(c: Name, t: Trust): (World, Event) -> bool { (w, e) => Honest(w, e, c, t) }

  predicate AtSuccess(th: Thread) { th.pc.Advance? && th.pc.to.Succeeded? && !th.vmGone }

  /** What an unplugging or failing reconcile has achieved by the time of its next call. */
  predicate SettledAt(w: World, c: Name, th: Thread, t: Trust)
    requires c in w.crs
  {
    && (t.hot && (Hot(th.pc) || th.busy) ==> Unplugged(w, c))
    && (t.deletion && th.deletion && th.pc.CleanPatch? ==> Shown(w, c, th.pc.base))
    && (t.deletion && th.deletion && th.pc.CleanDv? ==> Unplugged(w, c))
    && (t.deletion && th.pc.Finalize? && th.clean && w.crs[c].finalizer ==> Unplugged(w, c) && NoDv(w, c))
    && (t.success && th.pc.DonePatch? ==> Shown(w, c, th.pc.base))
    && (t.success && (th.pc.DoneDv? || th.pc.DoneVmi? || AtSuccess(th)) ==> Unplugged(w, c))
    && (t.success && (th.pc.DoneVmi? || AtSuccess(th)) ==> NoDv(w, c))
    && (t.success && AtSuccess(th) ==> Unlisted(w, c))
    && (t.loser && th.busy && th.pc.CleanPatch? ==> !Mentions(th.pc.base, VolumeName(c)))
    && (th.busy ==> (th.pc.FailPatch? || Cleaning(th.pc)) && !th.deletion)
  }

  predicate Settled(w: World, c: Name, t: Trust) {
    c in w.crs && c in w.threads ==> SettledAt(w, c, w.threads[c], t)
  }

  /** A reconcile that fails because the VM is taken is on its way out. */
  predicate BusyOk(th: Thread) { th.busy ==> th.pc.FailPatch? || Cleaning(th.pc) }

  predicate SucceededOk(w: World, c: Name) {
    c in w.crs && w.crs[c].status.phase.Succeeded? && !w.crs[c].hist.vmGone ==>
      Unplugged(w, c) && NoDv(w, c) && Unlisted(w, c)
  }

  /** Whoever answers for a volume or disk of restore c in VM t. */
  predicate VmCovered(w: World, c: Name, t: string) {
    (c in w.crs && w.crs[c].finalizer && w.crs[c].spec.target == t) || (c, t) in w.excused
  }

  predicate DvCovered(w: World, c: Name) {
    (c in w.crs && w.crs[c].finalizer && w.crs[c].spec.source.snapshot.Some?) || Leaked(w, c)
  }

  ghost predicate Covered(w: World, c: Name) {
    && (forall t :: t in w.vms && Mentions(w.vms[t], VolumeName(c)) ==> VmCovered(w, c, t))
    && (VolumeName(c) in w.dvs ==> DvCovered(w, c))
  }

  ghost predicate Tidy(w: World, c: Name, t: Trust) {
    && Settled(w, c, t) && (t.success ==> SucceededOk(w, c)) && (t.deletion ==> Covered(w, c))
    && (c in w.threads ==> BusyOk(w.threads[c]))
  }

  ghost predicate CleanInv(w: World, c: Name, t: Trust) { VmInv(w) && Tidy(w, c, t) }

  // ---------------------------------------------------------------------------
  // What others do
  // ---------------------------------------------------------------------------

  /** Nothing of restore c has appeared. */
  ghost predicate NoNews(w: World, w': World, c: Name) {
    var name := VolumeName(c);
    && (forall t :: t in w'.vms && Mentions(w'.vms[t], name) ==> t in w.vms && Mentions(w.vms[t], name))
    && (name in w'.dvs ==> name in w.dvs)
    && (forall t :: t in w'.vmis && Lists(w'.vmis[t], name) ==>
          (t in w.vmis && Lists(w.vmis[t], name)) || (t in w.vms && Mentions(w.vms[t], name)))
    && w.excused <= w'.excused
  }

  lemma OthersBringNoNews(w: World, d: Name, x: Outcome, c: Name)
    requires VmInv(w) && d != c
    ensures NoNews(w, StepAct(w, d, x), c)
  {
    hide Exclusive, PlugVerdict, Move, MergePatch, StatusOk, ThreadOk, Mentions, VolumeName, Lists, Commit, Plug, Unplug, VersionsOk;
    assert OwnOk(w, d) && BaseOk(w, d);
    StayNoNews(w, c);
    VolumeNamesDiffer(c, d);
    if d in w.threads && d in w.crs && !x.Crash? && Possible(w, d, x) {
      var cr, th, v, e := w.crs[d], w.threads[d], ViewOf(w, d), EffectOf(w, d, x);
      MoveShape(d, cr, th, v, x);
      if e.patch.Some? {
        VersionExclusive(w, cr.spec.target, w.vms[cr.spec.target]);
        VersionExclusive(w, cr.spec.target, th.pc.base);
        PatchResult(d, cr, th, v, x, e, w.vms[cr.spec.target]);
        assert Mentions(MergePatch(w.vms[cr.spec.target], e.patch.value.base, e.patch.value.edited), VolumeName(c)) ==> Mentions(w.vms[cr.spec.target], VolumeName(c));
      }
      CommitNoNews(w, d, e, th.clean, c);
    }
  }

  lemma CommitNoNews(w: World, d: Name, e: Effect, clean: bool, c: Name)
    requires d in w.crs && VolumeName(c) != VolumeName(d)
    requires var target := w.crs[d].spec.target;
             e.patch.Some? && target in w.vms ==>
               (Mentions(MergePatch(w.vms[target], e.patch.value.base, e.patch.value.edited), VolumeName(c)) ==> Mentions(w.vms[target], VolumeName(c)))
    ensures NoNews(w, Commit(w, d, e, clean), c)
  {
    hide MergePatch, Mentions, VolumeName, Lists, Woken;
  }

  lemma StayNoNews(w: World, c: Name)
    ensures forall threads :: NoNews(w, w.(threads := threads), c)
  {
    hide Mentions, VolumeName, Lists;
  }

  lemma VersionExclusive(w: World, t: string, vm: Vm)
    requires VersionsOk(w) && ((t, vm) in w.past || (t in w.vms && vm == w.vms[t]))
    ensures Exclusive(vm)
  {
  }

  /** A name reserved for a restore is mentioned through the restore entries alone. */
  lemma MentionedAmongRestores(vm: Vm, c: Name)
    ensures Mentions(vm, VolumeName(c)) <==> Has(Restores(vm.volumes), VolumeName(c)) || Has(Restores(vm.disks), VolumeName(c))
  {
    KeepMembers(vm.volumes, IsRestoreName);
    KeepMembers(vm.disks, IsRestoreName);
  }

  lemma EditsBringNoNews(w: World, target: string, vm: Vm, c: Name)
    requires AllowedVm(w, target, vm)
    ensures NoNews(w, Step(w, SetVm(target, vm)), c)
  {
    hide Mentions, VolumeName, Lists, Restores;
    MentionedAmongRestores(vm, c);
    if target in w.vms { MentionedAmongRestores(w.vms[target], c); }
  }

  lemma VmiBringsNoNews(w: World, target: string, vmi: Vmi, c: Name)
    requires AllowedVmi(w, target, vmi)
    ensures NoNews(w, Step(w, SetVmi(target, vmi)), c)
  {
  }

  /** With no news, and the own object and reconcile unchanged, everything stays tidy. */
  lemma StaysTidy(w: World, w': World, c: Name, t: Trust)
    requires Tidy(w, c, t) && NoNews(w, w', c)
    requires (c in w'.crs <==> c in w.crs) && (c in w'.threads <==> c in w.threads)
    requires c in w.threads ==> w'.threads[c] == w.threads[c]
    requires c in w.crs ==> w'.crs[c] == w.crs[c] || w'.crs[c] == w.crs[c].(deleting := true)
    ensures Tidy(w', c, t)
  {
    hide Mentions, VolumeName, Lists;
  }

  lemma OtherActTidy(w: World, d: Name, x: Outcome, c: Name, t: Trust)
    requires CleanInv(w, c, t) && d != c
    ensures Tidy(StepAct(w, d, x), c, t)
  {
    hide VmInv, Tidy, NoNews, Move, MergePatch, VolumeName;
    assert Tidy(w, c, t);
    OthersBringNoNews(w, d, x, c);
    StaysTidy(w, StepAct(w, d, x), c, t);
  }

  lemma StartTidy(w: World, d: Name, c: Name, t: Trust)
    requires CleanInv(w, c, t)
    ensures Tidy(Step(w, Start(d)), c, t)
  {
    hide VmInv, Dispatch, Mentions, VolumeName, Lists, MergePatch, NoNews, Settled, SucceededOk, Covered;
    assert Tidy(w, c, t);
    if d in w.crs && d !in w.threads {
      DispatchShape(w.crs[d], ViewOf(w, d));
      var w' := Step(w, Start(d));
      SameClusterNoNews(w, w', c);
      if d == c { hide Tidy; StartedTidy(w, w', c, t); } else { hide Tidy; StaysTidy(w, w', c, t); }
    }
  }

  lemma StartedTidy(w: World, w': World, c: Name, t: Trust)
    requires Tidy(w, c, t) && c in w.crs && c in w'.crs && NoNews(w, w', c)
    requires w'.crs[c].spec == w.crs[c].spec && w'.crs[c].finalizer == w.crs[c].finalizer
    requires w'.crs[c].status == w.crs[c].status && w'.crs[c].hist.vmGone == w.crs[c].hist.vmGone
    requires c in w'.threads ==> AtStart(w'.threads[c].pc) && !w'.threads[c].busy && !w'.threads[c].vmGone
    ensures Tidy(w', c, t)
  {
    hide Mentions, VolumeName, Lists, Unplugged, NoDv, Unlisted, Shown, NoNews;
    StaysCovered(w, w', c);
  }

  lemma CreateTidy(w: World, d: Name, spec: Spec, c: Name, t: Trust)
    requires CleanInv(w, c, t)
    ensures Tidy(Step(w, CreateCr(d, spec)), c, t)
  {
    hide VmInv, Tidy, Mentions, VolumeName, Lists, NoNews;
    var w' := Step(w, CreateCr(d, spec));
    SameClusterNoNews(w, w', c);
    if d != c || c in w.crs {
      StaysTidy(w, w', c, t);
    } else {
      OrphanThread(w, c);
      CreatedTidy(w, w', c, t);
    }
  }

  lemma OrphanThread(w: World, c: Name)
    requires VmInv(w) && c !in w.crs
    ensures c in w.threads ==> w.threads[c].pc.AddFinalizer? || w.threads[c].pc.Finalize?
  {
    hide StatusOk, ThreadOk;
    assert OwnOk(w, c);
  }

  /** A new object owns nothing yet; what is there under its name was left by an earlier one. */
  lemma CreatedTidy(w: World, w': World, c: Name, t: Trust)
    requires Tidy(w, c, t) && NoNews(w, w', c) && c !in w.crs && c in w'.crs && w'.threads == w.threads
    requires w'.crs[c].status.phase.Unset? && !w'.crs[c].finalizer
    requires c in w.threads ==> w.threads[c].pc.AddFinalizer? || w.threads[c].pc.Finalize?
    ensures Tidy(w', c, t)
  {
    hide Mentions, VolumeName, Lists;
  }

  lemma DeleteTidy(w: World, d: Name, c: Name, t: Trust)
    requires CleanInv(w, c, t)
    ensures Tidy(Step(w, DeleteCr(d)), c, t)
  {
    hide VmInv, Mentions, VolumeName, Lists, NoNews, Settled, SucceededOk;
    assert Tidy(w, c, t);
    var w' := Step(w, DeleteCr(d));
    SameClusterNoNews(w, w', c);
    if d != c || c !in w.crs || w.crs[c].finalizer {
      hide Tidy;
      StaysTidy(w, w', c, t);
    } else {
      GoneTidy(w, c, t);
    }
  }

  lemma SameClusterNoNews(w: World, w': World, c: Name)
    requires w'.vms == w.vms && w'.vmis == w.vmis && w'.dvs == w.dvs && w'.excused == w.excused
    ensures NoNews(w, w', c)
  {
    hide Mentions, VolumeName, Lists;
  }

  lemma GoneTidy(w: World, c: Name, t: Trust)
    requires Tidy(w, c, t) && c in w.crs && !w.crs[c].finalizer
    ensures Tidy(w.(crs := w.crs - {c}), c, t)
  {
    hide Mentions, VolumeName, Lists, Unplugged, NoDv, Unlisted, Shown;
  }

  // ---------------------------------------------------------------------------
  // What the own calls do
  // ---------------------------------------------------------------------------

  /** A reconcile of c is in flight and its next call has the outcome x, honest as far as t goes. */
  ghost predicate Acting(w: World, c: Name, x: Outcome, t: Trust) {
    && CleanInv(w, c, t) && c in w.crs && c in w.threads && Possible(w, c, x) && Honest(w, Act(c, x), c, t)
  }

  function After(w: World, c: Name, x: Outcome): World
    requires c in w.crs && c in w.threads
  {
    Commit(w, c, EffectOf(w, c, x), w.threads[c].clean)
  }

  /** The effect of a call, field by field. */
  lemma Committed(w: World, c: Name, x: Outcome)
    requires c in w.crs && c in w.threads
    ensures var e, w', target := EffectOf(w, c, x), After(w, c, x), w.crs[c].spec.target;
            && (c in w'.threads <==> e.thread.Some?) && (e.thread.Some? ==> w'.threads[c] == e.thread.value)
            && (c in w'.crs <==> !e.gone)
            && (!e.gone ==> w'.crs[c].(hist := e.cr.hist) == e.cr && w'.crs[c].hist.vmGone == e.cr.hist.vmGone)
            && (e.patch.None? ==> w'.vms == w.vms)
            && (e.patch.Some? && target in w.vms ==>
                  w'.vms == w.vms[target := MergePatch(w.vms[target], e.patch.value.base, e.patch.value.edited)])
            && w'.vmis == w.vmis
            && (e.dv.DvKeep? ==> w'.dvs == w.dvs) && (e.dv.DvDelete? ==> w'.dvs == w.dvs - {VolumeName(c)})
            && (!e.dv.DvCreate? ==> w'.provisioned == w.provisioned)
            && w'.excused == (if e.gone && !w.threads[c].clean then w.excused + {(c, target)} else w.excused)
  {
    hide Move, MergePatch, VolumeName;
  }

  lemma OwnThread(w: World, c: Name)
    requires VmInv(w) && c in w.crs && c in w.threads
    ensures StatusOk(w.crs[c], w.clock) && ThreadOk(w.crs[c], w.threads[c], w.clock) && BaseOk(w, c)
  {
    assert OwnOk(w, c);
  }

  /** Coverage and the meaning of Succeeded survive a step that brings no news of c. */
  lemma StaysCovered(w: World, w': World, c: Name)
    requires NoNews(w, w', c) && c in w.crs && c in w'.crs
    requires w'.crs[c].spec == w.crs[c].spec && (w.crs[c].finalizer ==> w'.crs[c].finalizer)
    requires w'.crs[c].status.phase.Succeeded? ==> w.crs[c].status.phase.Succeeded? && w'.crs[c].hist.vmGone == w.crs[c].hist.vmGone
    ensures SucceededOk(w, c) ==> SucceededOk(w', c)
    ensures Covered(w, c) ==> Covered(w', c)
  {
    hide Mentions, VolumeName, Lists;
  }

  /** What one own call that adds nothing leaves behind. */
  lemma OwnCallTidy(w: World, c: Name, x: Outcome, t: Trust)
    requires Acting(w, c, x, t)
    requires var e := EffectOf(w, c, x);
             && !e.gone && e.cr.spec == w.crs[c].spec && (w.crs[c].finalizer ==> e.cr.finalizer)
             && (e.cr.status.phase.Succeeded? ==> w.crs[c].status.phase.Succeeded? && e.cr.hist.vmGone == w.crs[c].hist.vmGone)
    requires NoNews(w, After(w, c, x), c)
    requires var e := EffectOf(w, c, x); e.thread.Some? ==> SettledAt(After(w, c, x), c, e.thread.value, t)
    ensures Tidy(After(w, c, x), c, t)
  {
    hide VmInv, Move, NoNews, Covered, MergePatch, VolumeName, Unplugged, NoDv, Unlisted, Shown, Mentions;
    assert Tidy(w, c, t);
    StaysCovered(w, After(w, c, x), c);
    hide SucceededOk;
  }

  lemma NoPatchNoNews(w: World, c: Name, e: Effect, clean: bool)
    requires c in w.crs && e.patch.None? && !e.dv.DvCreate?
    ensures NoNews(w, Commit(w, c, e, clean), c)
    ensures var w' := Commit(w, c, e, clean); w'.vms == w.vms && w'.vmis == w.vmis
  {
    hide Mentions, VolumeName, Lists, Woken;
  }

  /** Own facts about VMs, DataVolumes and VMIs carry over. */
  lemma StillSettled(w: World, w': World, c: Name)
    requires c in w.crs && c in w'.crs && NoNews(w, w', c) && w'.crs[c].spec == w.crs[c].spec
    ensures Unplugged(w, c) ==> Unplugged(w', c)
    ensures NoDv(w, c) ==> NoDv(w', c)
    ensures Unplugged(w, c) && Unlisted(w, c) ==> Unlisted(w', c)
  {
    hide Mentions, VolumeName, Lists;
  }

  lemma PlainTidy(w: World, c: Name, x: Outcome, t: Trust)
    requires Acting(w, c, x, t) && Plain(w.threads[c].pc)
    ensures Tidy(After(w, c, x), c, t)
  {
    hide Honest, StatusOk, ThreadOk, VmInv, Move, Mentions, VolumeName, Lists, MergePatch, NoNews, Covered, Unplugged, NoDv, Unlisted, Shown;
    assert Tidy(w, c, t);
    OwnThread(w, c);
    PlainMove(c, w.crs[c], w.threads[c], ViewOf(w, c), x);
    NoPatchNoNews(w, c, EffectOf(w, c, x), w.threads[c].clean);
    Committed(w, c, x);
    hide After;
    StillSettled(w, After(w, c, x), c);
    OwnCallTidy(w, c, x, t);
  }

  lemma AdvanceTidy(w: World, c: Name, x: Outcome, t: Trust)
    requires Acting(w, c, x, t) && w.threads[c].pc.Advance?
    ensures Tidy(After(w, c, x), c, t)
  {
    hide VmInv, Move, Mentions, VolumeName, Lists, MergePatch;
    assert Tidy(w, c, t);
    AdvanceShape(c, w.crs[c], w.threads[c], ViewOf(w, c), x);
    AdvanceTarget(w, c);
  }

  lemma AdvanceTarget(w: World, c: Name)
    requires VmInv(w) && c in w.crs && c in w.threads && w.threads[c].pc.Advance?
    ensures NextPhase(w.crs[c].status.phase, w.threads[c].pc.to)
  {
    OwnThread(w, c);
  }

  /** What a scan of a version that does not hide the own entries says. */
  lemma ScanTells(w: World, c: Name, vm: Vm)
    requires VersionsOk(w) && c in w.crs && (w.crs[c].spec.target, vm) in w.past && Shown(w, c, vm)
    ensures PlugVerdict(vm, VolumeName(c)) == Absent || PlugVerdict(vm, VolumeName(c)) == Busy ==> Unplugged(w, c)
  {
    VersionExclusive(w, w.crs[c].spec.target, vm);
    ExclusiveNames(vm, VolumeName(c));
  }

  /** The effect of the first hotplug call. */
  lemma HotGetEffect(c: Name, cr: Cr, th: Thread, v: View, x: Outcome)
    requires th.pc.HotGet?
    ensures var e := Move(c, cr, th, v, x);
            && e.cr == cr && !e.gone && e.patch.None? && e.dv.DvKeep? && e.thread.Some?
            && (var next := e.thread.value;
                && next.deletion == th.deletion && next.vmGone == th.vmGone
                && (next.pc.FailPatch? || (next.pc.Advance? && next.pc.to.WaitingForAttachment?) || Hot(next.pc))
                && (Hot(next.pc) ==> x.SawVm? && PlugVerdict(x.vm, VolumeName(c)) == Absent)
                && (next.pc.Advance? ==> x.SawVm? && PlugVerdict(x.vm, VolumeName(c)) == Present)
                && (next.busy == th.busy || (next.pc.FailPatch? && x.SawVm? && PlugVerdict(x.vm, VolumeName(c)) == Busy)))
  {
    hide PlugVerdict, VolumeName;
  }

  lemma HotGetTidy(w: World, c: Name, x: Outcome, t: Trust)
    requires Acting(w, c, x, t) && w.threads[c].pc.HotGet?
    ensures Tidy(After(w, c, x), c, t)
  {
    hide Inv, VersionsOk, Move, PlugVerdict, Mentions, VolumeName, Lists, MergePatch, NoNews, Covered, Unplugged, NoDv, Unlisted, Shown, StatusOk, AtPc;
    assert Tidy(w, c, t);
    OwnThread(w, c);
    if t.hot && x.SawVm? { ScanTells(w, c, x.vm); }
    HotGetEffect(c, w.crs[c], w.threads[c], ViewOf(w, c), x);
    NoPatchNoNews(w, c, EffectOf(w, c, x), w.threads[c].clean);
    StillSettled(w, After(w, c, x), c);
    OwnCallTidy(w, c, x, t);
  }

  lemma HotIsHot(c: Name, cr: Cr, th: Thread, v: View, x: Outcome)
    requires Hot(th.pc)
    ensures Move(c, cr, th, v, x) == MoveHot(c, cr, th, v, x)
  {
    hide MoveInit, MoveHot, MoveDone, MoveWait, MoveSsh, MoveRestore, MoveClean;
  }

  predicate HotResult(th: Thread, v: View, cr: Cr, e: Effect) {
    && e.cr == cr && !e.gone && !e.dv.DvDelete?
    && (e.dv.DvCreate? ==> th.pc.HotCreate? && v.dv.None?) && (e.patch.Some? ==> th.pc.HotPatch?)
    && (e.thread.Some? ==>
          var next := e.thread.value;
          && SameFlags(th, next)
          && (next.pc.FailPatch? || (next.pc.Advance? && next.pc.to.WaitingForAttachment?) || Hot(next.pc))
          && (next.pc.Advance? ==> th.pc.HotPatch? && e.patch.Some?)
          && (th.pc.HotPatch? ==> !Hot(next.pc))
          && (next.pc.HotPatch? ==> v.dv == Some(DvSucceeded)))
  }

  lemma HotDvResult(c: Name, cr: Cr, th: Thread, v: View, x: Outcome)
    requires th.pc.HotDv? || th.pc.HotReget? || th.pc.HotCreate?
    ensures HotResult(th, v, cr, MoveHot(c, cr, th, v, x))
  {
    hide VolumeName, AfterScan;
  }

  lemma HotPatchResult(c: Name, cr: Cr, th: Thread, v: View, x: Outcome)
    requires th.pc.HotPatch?
    ensures HotResult(th, v, cr, MoveHot(c, cr, th, v, x))
  {
    hide VolumeName, AfterScan, Plug, ClaimName;
  }

  lemma HotEffect(c: Name, cr: Cr, th: Thread, v: View, x: Outcome)
    requires Hot(th.pc)
    ensures Move(c, cr, th, v, x) == MoveHot(c, cr, th, v, x)
    ensures HotResult(th, v, cr, MoveHot(c, cr, th, v, x))
  {
    hide Move, MoveHot, HotResult;
    HotIsHot(c, cr, th, v, x);
    if th.pc.HotPatch? { HotPatchResult(c, cr, th, v, x); } else { HotDvResult(c, cr, th, v, x); }
  }

  lemma HotTidy(w: World, c: Name, x: Outcome, t: Trust)
    requires Acting(w, c, x, t) && Hot(w.threads[c].pc) && !w.threads[c].pc.HotPatch? && EffectOf(w, c, x).dv.DvKeep?
    ensures Tidy(After(w, c, x), c, t)
  {
    hide VmInv, Move, MoveHot, Mentions, VolumeName, Lists, MergePatch, NoNews, Covered, Unplugged, NoDv, Unlisted, Shown, StatusOk;
    HotEffect(c, w.crs[c], w.threads[c], ViewOf(w, c), x);
    NoPatchNoNews(w, c, EffectOf(w, c, x), w.threads[c].clean);
    StillSettled(w, After(w, c, x), c);
    OwnCallTidy(w, c, x, t);
  }

  /** Creating the DataVolume and adding the volume are the calls that bring something; the finalizer answers for it. */
  lemma HotCreateTidy(w: World, c: Name, x: Outcome, t: Trust)
    requires Acting(w, c, x, t) && Hot(w.threads[c].pc) && !w.threads[c].pc.HotPatch? && !EffectOf(w, c, x).dv.DvKeep?
    ensures Tidy(After(w, c, x), c, t)
  {
    hide Inv, VersionsOk, Move, MoveHot, PlugVerdict, Mentions, VolumeName, Lists, MergePatch, StatusOk, ThreadOk;
    HotOwner(w, c);
    HotEffect(c, w.crs[c], w.threads[c], ViewOf(w, c), x);
  }

  /** A hotplugging restore is live, finalized and not done; it creates a DataVolume for snapshots only. */
  lemma HotOwner(w: World, c: Name)
    requires VmInv(w) && c in w.crs && c in w.threads && Hot(w.threads[c].pc)
    ensures w.crs[c].finalizer && w.crs[c].status.phase.Hotplugging? && !w.threads[c].deletion
    ensures w.threads[c].pc.HotCreate? ==> w.crs[c].spec.source.snapshot.Some?
  {
    OwnThread(w, c);
  }

  lemma HotPatchTidy(w: World, c: Name, x: Outcome, t: Trust)
    requires Acting(w, c, x, t) && w.threads[c].pc.HotPatch?
    ensures Tidy(After(w, c, x), c, t)
  {
    hide VmInv, Move, MoveHot, PlugVerdict, Mentions, VolumeName, Lists, MergePatch, StatusOk, Plug;
    assert Tidy(w, c, t);
    OwnThread(w, c);
    HotEffect(c, w.crs[c], w.threads[c], ViewOf(w, c), x);
    Committed(w, c, x);
    hide After;
  }

  lemma DoneIsDone(c: Name, cr: Cr, th: Thread, v: View, x: Outcome)
    requires th.pc.DoneGet? || th.pc.DonePatch? || th.pc.DoneDv? || th.pc.DoneVmi?
    ensures Move(c, cr, th, v, x) == MoveDone(c, cr, th, v, x)
  {
    hide MoveInit, MoveHot, MoveDone, MoveWait, MoveSsh, MoveRestore, MoveClean;
  }

  predicate DoneResult(c: Name, cr: Cr, th: Thread, v: View, x: Outcome, e: Effect) {
    && e.cr == cr && !e.gone && !e.dv.DvCreate?
    && (th.pc.DoneGet? || th.pc.DoneVmi? ==> e.patch.None? && e.dv.DvKeep?)
    && (th.pc.DoneDv? ==> e.patch.None? && (e.thread.Some? && e.thread.value.pc.DoneVmi? ==> e.dv.DvDelete?))
    && (th.pc.DonePatch? && x.Ok? && v.vmThere ==> e.patch.Some?)
    && (e.thread.Some? ==>
          var next := e.thread.value;
          && next.busy == th.busy && next.deletion == th.deletion
          && match next.pc
             case FailPatch => true
             case DonePatch(base) => th.pc.DoneGet? && x.SawVm? && base == x.vm
             case DoneDv => th.pc.DonePatch? && x.Ok? && v.vmThere
             case DoneVmi => th.pc.DoneDv? || (th.pc.DonePatch? && x.Ok? && v.vmThere && cr.spec.source.snapshot.None?)
             case Advance(to) =>
               to.Succeeded? && (next.vmGone || (th.pc.DoneVmi? && (x.NotFound? || (x.SawVmi? && !Lists(x.vmi, VolumeName(c))))))
             case _ => false)
  }

  lemma DoneReadResult(c: Name, cr: Cr, th: Thread, v: View, x: Outcome)
    requires th.pc.DoneGet? || th.pc.DoneVmi?
    ensures DoneResult(c, cr, th, v, x, MoveDone(c, cr, th, v, x))
  {
    hide VolumeName, Lists;
  }

  lemma DoneWriteResult(c: Name, cr: Cr, th: Thread, v: View, x: Outcome)
    requires th.pc.DonePatch? || th.pc.DoneDv?
    ensures DoneResult(c, cr, th, v, x, MoveDone(c, cr, th, v, x))
  {
    hide VolumeName, Unplug, Lists;
  }

  lemma DoneEffect(c: Name, cr: Cr, th: Thread, v: View, x: Outcome)
    requires th.pc.DoneGet? || th.pc.DonePatch? || th.pc.DoneDv? || th.pc.DoneVmi?
    ensures Move(c, cr, th, v, x) == MoveDone(c, cr, th, v, x)
    ensures DoneResult(c, cr, th, v, x, MoveDone(c, cr, th, v, x))
  {
    hide Move, MoveDone, DoneResult;
    DoneIsDone(c, cr, th, v, x);
    if th.pc.DoneGet? || th.pc.DoneVmi? { DoneReadResult(c, cr, th, v, x); } else { DoneWriteResult(c, cr, th, v, x); }
  }

  lemma DoneGetTidy(w: World, c: Name, x: Outcome, t: Trust)
    requires Acting(w, c, x, t) && (w.threads[c].pc.DoneGet? || w.threads[c].pc.DoneVmi?)
    ensures Tidy(After(w, c, x), c, t)
  {
    hide VmInv, Move, MoveDone, Mentions, VolumeName, Lists, MergePatch, NoNews, Covered;
    assert Tidy(w, c, t);
    DoneEffect(c, w.crs[c], w.threads[c], ViewOf(w, c), x);
    NoPatchNoNews(w, c, EffectOf(w, c, x), w.threads[c].clean);
    StillSettled(w, After(w, c, x), c);
    OwnCallTidy(w, c, x, t);
  }

  /** An unplug patch never adds own entries; it removes them if the version it was computed from shows them. */
  lemma UnplugTells(w: World, c: Name, x: Outcome)
    requires VmInv(w) && c in w.crs && c in w.threads && (w.threads[c].pc.DonePatch? || w.threads[c].pc.CleanPatch?)
    ensures NoNews(w, After(w, c, x), c)
    ensures var w', target := After(w, c, x), w.crs[c].spec.target;
            target in w.vms && Applied(x) ==>
              target in w'.vms && (!Mentions(w'.vms[target], VolumeName(c)) <==> Shown(w, c, w.threads[c].pc.base))
  {
    hide Inv, VersionsOk, Mentions, VolumeName, Exclusive, Unplug, MergePatch, PlugVerdict, StatusOk, ThreadOk, Move, Lists;
    OwnThread(w, c);
    var cr, th, v, e := w.crs[c], w.threads[c], ViewOf(w, c), EffectOf(w, c, x);
    MoveShape(c, cr, th, v, x);
    UnplugIsSent(c, cr, th, v, x);
    if e.patch.Some? {
      VersionExclusive(w, cr.spec.target, w.vms[cr.spec.target]);
      VersionExclusive(w, cr.spec.target, th.pc.base);
      UnplugEffective(w.vms[cr.spec.target], th.pc.base, VolumeName(c));
    }
  }

  lemma UnplugIsSent(c: Name, cr: Cr, th: Thread, v: View, x: Outcome)
    requires th.pc.DonePatch? || th.pc.CleanPatch?
    ensures var e := Move(c, cr, th, v, x);
            e.dv.DvKeep? && !e.gone && e.cr == cr && (e.patch.Some? <==> v.vmThere && Applied(x))
  {
    hide VolumeName, Unplug;
  }

  lemma DonePatchTidy(w: World, c: Name, x: Outcome, t: Trust)
    requires Acting(w, c, x, t) && w.threads[c].pc.DonePatch?
    ensures Tidy(After(w, c, x), c, t)
  {
    hide VmInv, Move, MoveDone, Mentions, VolumeName, Lists, MergePatch, Unplug, NoNews, Covered, Shown, Unlisted;
    assert Tidy(w, c, t);
    DoneEffect(c, w.crs[c], w.threads[c], ViewOf(w, c), x);
    UnplugTells(w, c, x);
    OwnCallTidy(w, c, x, t);
  }

  lemma DoneDvTidy(w: World, c: Name, x: Outcome, t: Trust)
    requires Acting(w, c, x, t) && w.threads[c].pc.DoneDv?
    ensures Tidy(After(w, c, x), c, t)
  {
    hide VmInv, Move, MoveDone, Mentions, VolumeName, Lists, MergePatch, NoNews, Covered, Shown, Unlisted, Unplugged;
    assert Tidy(w, c, t);
    DoneEffect(c, w.crs[c], w.threads[c], ViewOf(w, c), x);
    NoPatchNoNews(w, c, EffectOf(w, c, x), w.threads[c].clean);
    StillSettled(w, After(w, c, x), c);
    OwnCallTidy(w, c, x, t);
  }

  lemma CleanEffect(c: Name, cr: Cr, th: Thread, v: View, x: Outcome)
    requires th.pc.CleanGet? || th.pc.CleanPatch? || th.pc.CleanDv?
    ensures Move(c, cr, th, v, x) == MoveClean(c, cr, th, v, x)
    ensures var e := MoveClean(c, cr, th, v, x);
            && e.cr == cr && !e.gone && !e.dv.DvCreate?
            && (th.pc.CleanGet? ==> e.patch.None? && e.dv.DvKeep?)
            && (th.pc.CleanDv? ==> e.patch.None? && (e.thread.Some? && e.thread.value.clean ==> e.dv.DvDelete?))
            && (e.thread.Some? ==>
                  var next := e.thread.value;
                  && next.busy == th.busy && next.deletion == th.deletion
                  && match next.pc
                     case CleanPatch(base) => th.pc.CleanGet? && x.SawVm? && base == x.vm
                     case CleanDv => th.pc.CleanPatch? && x.Ok? && v.vmThere
                     case Finalize(_) => th.deletion && (next.clean ==> th.pc.CleanDv? || (th.pc.CleanPatch? && x.Ok? && v.vmThere && cr.spec.source.snapshot.None?))
                     case _ => false)
  {
    hide VolumeName, Unplug;
  }

  lemma CleanGetTidy(w: World, c: Name, x: Outcome, t: Trust)
    requires Acting(w, c, x, t) && w.threads[c].pc.CleanGet?
    ensures Tidy(After(w, c, x), c, t)
  {
    hide VmInv, Move, MoveClean, Mentions, VolumeName, Lists, MergePatch, NoNews, Covered, NoDv, Unlisted;
    assert Tidy(w, c, t);
    CleanEffect(c, w.crs[c], w.threads[c], ViewOf(w, c), x);
    NoPatchNoNews(w, c, EffectOf(w, c, x), w.threads[c].clean);
    StillSettled(w, After(w, c, x), c);
    OwnCallTidy(w, c, x, t);
  }

  lemma CleanPatchTidy(w: World, c: Name, x: Outcome, t: Trust)
    requires Acting(w, c, x, t) && w.threads[c].pc.CleanPatch?
    ensures Tidy(After(w, c, x), c, t)
  {
    hide VmInv, Move, MoveClean, Mentions, VolumeName, Lists, MergePatch, Unplug, NoNews, Covered, Shown, Unlisted;
    assert Tidy(w, c, t);
    CleanEffect(c, w.crs[c], w.threads[c], ViewOf(w, c), x);
    UnplugTells(w, c, x);
    StillSettled(w, After(w, c, x), c);
    OwnCallTidy(w, c, x, t);
  }

  lemma CleanDvTidy(w: World, c: Name, x: Outcome, t: Trust)
    requires Acting(w, c, x, t) && w.threads[c].pc.CleanDv?
    ensures Tidy(After(w, c, x), c, t)
  {
    hide VmInv, Move, MoveClean, Mentions, VolumeName, Lists, MergePatch, NoNews, Covered, Shown, Unlisted, Unplugged;
    assert Tidy(w, c, t);
    CleanEffect(c, w.crs[c], w.threads[c], ViewOf(w, c), x);
    NoPatchNoNews(w, c, EffectOf(w, c, x), w.threads[c].clean);
    StillSettled(w, After(w, c, x), c);
    OwnCallTidy(w, c, x, t);
  }

  lemma FinalizeEffect(w: World, c: Name, x: Outcome)
    requires VmInv(w) && c in w.crs && c in w.threads && w.threads[c].pc.Finalize?
    ensures var e := EffectOf(w, c, x); var th := w.threads[c];
            && e.patch.None? && e.dv.DvKeep? && e.cr.spec == w.crs[c].spec && e.cr.status == w.crs[c].status && e.cr.hist == w.crs[c].hist && e.cr.deleting == w.crs[c].deleting
            && (e.gone ==> w.crs[c].finalizer)
            && (!e.gone ==> e.cr.finalizer == w.crs[c].finalizer)
            && (e.thread.Some? ==> e.thread.value.pc.Finalize? && SameFlags(th, e.thread.value))
  {
    hide VersionsOk, ClockOk, AtPc;
    assert OwnOk(w, c);
  }

  lemma FinalizeTidy(w: World, c: Name, x: Outcome, t: Trust)
    requires Acting(w, c, x, t) && w.threads[c].pc.Finalize?
    ensures Tidy(After(w, c, x), c, t)
  {
    hide VmInv, Move, Mentions, VolumeName, Lists, MergePatch;
    assert Tidy(w, c, t);
    FinalizeEffect(w, c, x);
    Committed(w, c, x);
    hide After, EffectOf;
  }

  lemma OwnActTidy(w: World, c: Name, x: Outcome, t: Trust)
    requires CleanInv(w, c, t) && Honest(w, Act(c, x), c, t)
    ensures Tidy(StepAct(w, c, x), c, t)
  {
    assert Tidy(w, c, t);
    if c in w.threads && c in w.crs && !x.Crash? && Possible(w, c, x) {
      hide Tidy, CleanInv, Commit, Move;
      var pc := w.threads[c].pc;
      if Plain(pc) { PlainTidy(w, c, x, t); }
      else if pc.Advance? { AdvanceTidy(w, c, x, t); }
      else if pc.HotGet? { HotGetTidy(w, c, x, t); }
      else if pc.HotPatch? { HotPatchTidy(w, c, x, t); }
      else if Hot(pc) { if EffectOf(w, c, x).dv.DvKeep? { HotTidy(w, c, x, t); } else { HotCreateTidy(w, c, x, t); } }
      else if pc.DoneGet? || pc.DoneVmi? { DoneGetTidy(w, c, x, t); }
      else if pc.DonePatch? { DonePatchTidy(w, c, x, t); }
      else if pc.DoneDv? { DoneDvTidy(w, c, x, t); }
      else if pc.CleanGet? { CleanGetTidy(w, c, x, t); }
      else if pc.CleanPatch? { CleanPatchTidy(w, c, x, t); }
      else if pc.CleanDv? { CleanDvTidy(w, c, x, t); }
      else { FinalizeTidy(w, c, x, t); }
    } else {
      NoActTidy(w, c, x, t);
    }
  }

  lemma NoActTidy(w: World, c: Name, x: Outcome, t: Trust)
    requires Tidy(w, c, t) && VmInv(w) && (c !in w.threads || c !in w.crs || x.Crash? || !Possible(w, c, x))
    ensures Tidy(StepAct(w, c, x), c, t)
  {
    hide VersionsOk, Mentions, VolumeName, Lists;
    assert OwnOk(w, c);
  }

  // ---------------------------------------------------------------------------
  // Every run
  // ---------------------------------------------------------------------------

  lemma EnvironmentTidy(w: World, e: Event, c: Name, t: Trust)
    requires CleanInv(w, c, t) && !e.Act? && !e.Start? && !e.CreateCr? && !e.DeleteCr?
    ensures Tidy(Step(w, e), c, t)
  {
    hide VmInv, Tidy, Mentions, VolumeName, Lists, AllowedVm, AllowedVmi;
    assert Tidy(w, c, t);
    match e {
      case SetVm(target, vm) => if AllowedVm(w, target, vm) { EditsBringNoNews(w, target, vm, c); }
      case SetVmi(target, vmi) => if AllowedVmi(w, target, vmi) { VmiBringsNoNews(w, target, vmi, c); }
      case _ =>
    }
    StaysTidy(w, Step(w, e), c, t);
  }

  lemma StepTidy(w: World, e: Event, c: Name, t: Trust)
    requires CleanInv(w, c, t) && Honest(w, e, c, t)
    ensures CleanInv(Step(w, e), c, t)
  {
    StepKeepsVms(w, e);
    StepTidyOne(w, e, c, t);
  }

  lemma StepTidyOne(w: World, e: Event, c: Name, t: Trust)
    requires CleanInv(w, c, t) && Honest(w, e, c, t)
    ensures Tidy(Step(w, e), c, t)
  {
    hide CleanInv, Tidy, StepAct, Commit, Honest;
    match e
    case Act(d, x) => if d == c { OwnActTidy(w, c, x, t); } else { OtherActTidy(w, d, x, c, t); }
    case Start(d) => StartTidy(w, d, c, t);
    case CreateCr(d, spec) => CreateTidy(w, d, spec, c, t);
    case DeleteCr(d) => DeleteTidy(w, d, c, t);
    case _ => EnvironmentTidy(w, e, c, t);
  }

  lemma InitiallyTidy(w: World, c: Name, t: Trust)
    requires Initial(w)
    ensures CleanInv(w, c, t)
  {
    ReachableVms(w, []);
    forall target | target in w.vms ensures !Mentions(w.vms[target], VolumeName(c)) {
      MentionedAmongRestores(w.vms[target], c);
    }
  }

  lemma {:induction false} ReachableTidy(w: World, events: seq<Event>, c: Name, t: Trust)
    requires Initial(w) && Obeys(w, events, HonestReads(c, t))
    ensures CleanInv(Exec(w, events), c, t)
  {
    if events == [] {
      InitiallyTidy(w, c, t);
    } else {
      ReachableTidy(w, events[..|events| - 1], c, t);
      StepTidy(Exec(w, events[..|events| - 1]), events[|events| - 1], c, t);
    }
  }

  const ALL: Trust := Trust(true, true, true, true)

  lemma FreshIsHonest(w: World, e: Event, c: Name, t: Trust)
    requires FreshRead(w, e) && Tidy(w, c, ALL)
    ensures Honest(w, e, c, ALL) && Honest(w, e, c, t)
  {
    hide Mentions, VolumeName, Lists;
  }

  /** Current reads are honest in every respect, so whatever holds of honest runs holds of fresh ones. */
  lemma {:induction false} FreshRunsAreHonest(w: World, events: seq<Event>, c: Name, t: Trust)
    requires Initial(w) && Obeys(w, events, FreshRead)
    ensures Obeys(w, events, HonestReads(c, t)) && CleanInv(Exec(w, events), c, ALL)
  {
    hide Honest, Tidy, FreshRead;
    if events == [] {
      InitiallyTidy(w, c, ALL);
    } else {
      FreshRunsAreHonest(w, events[..|events| - 1], c, t);
      var before, e := Exec(w, events[..|events| - 1]), events[|events| - 1];
      FreshIsHonest(before, e, c, t);
      StepTidy(before, e, c, ALL);
    }
  }

  // ---------------------------------------------------------------------------
  // Main results
  // ---------------------------------------------------------------------------

  /**
   Crash-safe coverage: in every reachable state, each volume, disk or DataVolume of a restore
   belongs to an object that still carries the finalizer, or to one whose last deletion-time
   cleanup had a failing call or found the VM missing.  The one thing asked is that when c's
   deletion-time cleanup reads the VM, the version it gets does not hide c's own entries.
   */
  lemma CrashSafeCoverage(w: World, events: seq<Event>, c: Name, target: string)
    requires Initial(w) && Obeys(w, events, HonestReads(c, Trust(false, true, false, false)))
    ensures var now := Exec(w, events);
            && (target in now.vms && Mentions(now.vms[target], VolumeName(c)) ==> VmCovered(now, c, target))
            && (VolumeName(c) in now.dvs ==> DvCovered(now, c))
  {
    ReachableTidy(w, events, c, Trust(false, true, false, false));
  }

  /**
   Unless the VM was missing, Succeeded means that volume and disk are out of the spec, the
   snapshot's DataVolume is deleted and the VMI does not list the volume.  What is asked is that
   phase Cleanup's own VM read does not hide c's entries and its VMI read not c's volume.
   */
  lemma SucceededMeans(w: World, events: seq<Event>, c: Name)
    requires Initial(w) && Obeys(w, events, HonestReads(c, Trust(false, false, true, false))) && c in Exec(w, events).crs
    ensures var now := Exec(w, events); var cr := now.crs[c];
            && (cr.status.phase.Cleanup? || cr.status.phase.Succeeded? ==>
                  cr.spec.sourcePath != "" && cr.hist.guestOk && cr.status.count.Some? && cr.status.count.value >= 0)
            && (cr.status.phase.Succeeded? && !cr.hist.vmGone ==>
                  Unplugged(now, c) && NoDv(now, c) && Unlisted(now, c))
  {
    ReachableTidy(w, events, c, Trust(false, false, true, false));
    CleanupHasCount(w, events, c);
  }
}
