/**
 Exact conditions: what the last calls of a deletion, of phase Cleanup and of a failing reconcile
 achieve, and what becomes of a restore that has failed.
 */
module RestoreRaces {
  import opened Text
  import opened VmSpec
  import opened GuestOs
  import opened RestoreModel
  import opened RestoreStatus
  import opened RestoreRuns
  import opened RestoreVms
  import opened RestoreCleanup

  /** The next calls of c's reconcile, with nobody else acting. */
  function OwnCalls(w: World, c: Name, xs: seq<Outcome>): World
    decreases |xs|
  {
    if xs == [] then w else OwnCalls(Step(w, Act(c, xs[0])), c, xs[1..])
  }

  function Acts(c: Name, xs: seq<Outcome>): seq<Event> { seq(|xs|, i requires 0 <= i < |xs| => Act(c, xs[i])) }

  lemma {:induction false} ExecAppend(w: World, events: seq<Event>, more: seq<Event>)
    ensures Exec(w, events + more) == Exec(Exec(w, events), more)
  {
    if more == [] {
      assert events + more == events;
    } else {
      assert (events + more)[..|events + more| - 1] == events + more[..|more| - 1];
      ExecAppend(w, events, more[..|more| - 1]);
    }
  }

  lemma {:induction false} OwnCallsAreARun(w: World, c: Name, xs: seq<Outcome>)
    ensures OwnCalls(w, c, xs) == Exec(w, Acts(c, xs))
    decreases |xs|
  {
    hide Step;
    if xs != [] {
      OwnCallsAreARun(Step(w, Act(c, xs[0])), c, xs[1..]);
      assert Acts(c, xs) == [Act(c, xs[0])] + Acts(c, xs[1..]);
      ExecAppend(w, [Act(c, xs[0])], Acts(c, xs[1..]));
      assert Exec(w, [Act(c, xs[0])]) == Step(w, Act(c, xs[0]));
    }
  }

  lemma ActIsAfter(w: World, c: Name, x: Outcome)
    requires c in w.crs && c in w.threads && !x.Crash? && Possible(w, c, x)
    ensures Step(w, Act(c, x)) == After(w, c, x)
  {
    hide EffectOf, Commit;
  }

  // ---------------------------------------------------------------------------
  // A restore that has failed
  // ---------------------------------------------------------------------------

  /** Failed, nobody working on it, nobody deleting it. */
  predicate Abandoned(w: World, c: Name) {
    c in w.crs && c !in w.threads && w.crs[c].finalizer && !w.crs[c].deleting && w.crs[c].status.phase.Failed?
  }

  predicate OwnStep(e: Event, c: Name) { (e.Act? || e.Start?) && e.c == c }

  lemma AbandonedStep(w: World, e: Event, c: Name)
    requires Abandoned(w, c) && e != DeleteCr(c)
    ensures Abandoned(Step(w, e), c)
    ensures OwnStep(e, c) ==> Step(w, e).vms == w.vms && Step(w, e).dvs == w.dvs && Step(w, e).vmis == w.vmis
  {
    hide Step;
    if OwnStep(e, c) { AbandonedOwnStep(w, e, c); } else { OthersLeaveAbandoned(w, e, c); }
  }

  lemma AbandonedOwnStep(w: World, e: Event, c: Name)
    requires Abandoned(w, c) && OwnStep(e, c)
    ensures var w' := Step(w, e); Abandoned(w', c) && w'.vms == w.vms && w'.dvs == w.dvs && w'.vmis == w.vmis
  {
    hide Move, Dispatch, MergePatch, VolumeName;
    FailedIsIdle(w.crs[c], ViewOf(w, c));
  }

  lemma OthersLeaveAbandoned(w: World, e: Event, c: Name)
    requires Abandoned(w, c) && !OwnStep(e, c) && e != DeleteCr(c)
    ensures Abandoned(Step(w, e), c)
  {
    hide Commit, EffectOf, Dispatch, AllowedVm, AllowedVmi;
    if e.Act? && e.c in w.crs && e.c in w.threads {
      CommitLeaves(w, e.c, EffectOf(w, e.c, e.x), w.threads[e.c].clean, c);
    } else if e.Start? && e.c in w.crs {
      CommitLeaves(w, e.c, Dispatch(w.crs[e.c], ViewOf(w, e.c)), true, c);
    }
  }

  lemma CommitLeaves(w: World, d: Name, e: Effect, clean: bool, c: Name)
    requires Abandoned(w, c) && d in w.crs && d != c
    ensures Abandoned(Commit(w, d, e, clean), c)
  {
    hide MergePatch, VolumeName, Woken;
  }

  lemma FailedIsIdle(cr: Cr, v: View)
    ensures Dispatch(cr, v).cr == cr && Dispatch(cr, v).patch.None? && Dispatch(cr, v).dv.DvKeep? && !Dispatch(cr, v).gone
    ensures cr.finalizer && !cr.deleting && cr.status.phase.Failed? ==> Dispatch(cr, v).thread.None?
  {
  }

  /**
   Once a restore is Failed and its reconcile is over, nothing it does in any continuation touches
   a VM, a VMI or a DataVolume until somebody deletes it: what the failing reconcile did not clean
   up stays.
   */
  lemma {:induction false} FailedStaysAbandoned(w: World, events: seq<Event>, c: Name)
    requires Abandoned(w, c) && DeleteCr(c) !in events
    ensures Abandoned(Exec(w, events), c)
    ensures forall k {:trigger events[k]} :: 0 <= k < |events| && OwnStep(events[k], c) ==>
              var before, after := Exec(w, events[..k]), Exec(w, events[..k + 1]);
              after.vms == before.vms && after.dvs == before.dvs && after.vmis == before.vmis
  {
    hide Step, Abandoned;
    if events != [] {
      var n := |events| - 1;
      FailedStaysAbandoned(w, events[..n], c);
      AbandonedStep(Exec(w, events[..n]), events[n], c);
      forall k | 0 <= k < |events| && OwnStep(events[k], c)
        ensures var before, after := Exec(w, events[..k]), Exec(w, events[..k + 1]);
                after.vms == before.vms && after.dvs == before.dvs && after.vmis == before.vmis
      {
        if k < n {
          assert events[..n][k] == events[k];
          assert events[..n][..k] == events[..k] && events[..n][..k + 1] == events[..k + 1];
        } else {
          assert events[..k + 1] == events && events[..k + 1][..k] == events[..k];
        }
      }
    }
  }

  // ---------------------------------------------------------------------------
  // What the failing reconcile itself cleans up
  // ---------------------------------------------------------------------------

  /** A reconcile that is over makes no more calls. */
  lemma {:induction false} NoMoreCalls(w: World, c: Name, xs: seq<Outcome>)
    requires c !in w.threads
    ensures OwnCalls(w, c, xs) == w
    decreases |xs|
  {
    if xs != [] { NoMoreCalls(w, c, xs[1..]); }
  }

  /** The reconcile of c is at pc with the cluster as in `from`; only c's own record may differ. */
  predicate Arrived(from: World, w: World, c: Name, pc: Pc)
    requires c in from.crs
  {
    && c in w.crs && c in w.threads && w.threads[c].pc == pc && !w.threads[c].deletion
    && w.crs[c].spec == from.crs[c].spec
    && w.vms == from.vms && w.dvs == from.dvs && from.past <= w.past
  }

  /** The reconcile is over and left the cluster as in `from`. */
  predicate Over(from: World, w: World, c: Name)
    requires c in from.crs
  {
    c in w.crs && c !in w.threads && w.crs[c].spec == from.crs[c].spec && w.vms == from.vms && w.dvs == from.dvs
  }

  lemma FailPatchCall(w: World, c: Name, x: Outcome)
    requires c in w.crs && c in w.threads && w.threads[c].pc.FailPatch? && !w.threads[c].deletion && Possible(w, c, x)
    ensures var w' := Step(w, Act(c, x)); if x.Ok? then Arrived(w, w', c, CleanGuest) else Over(w, w', c)
  {
    hide MergePatch, VolumeName, MoveInit, MoveHot, MoveWait, MoveSsh, MoveRestore, MoveDone, MoveClean;
  }

  lemma CleanGuestCall(from: World, w: World, c: Name, x: Outcome)
    requires c in from.crs && Arrived(from, w, c, CleanGuest) && Possible(w, c, x)
    ensures var w' := Step(w, Act(c, x)); if x.Crash? then Over(from, w', c) else Arrived(from, w', c, CleanGet)
  {
    hide MergePatch, VolumeName, MoveInit, MoveHot, MoveWait, MoveSsh, MoveRestore, MoveDone;
  }

  lemma CleanGetCall(from: World, w: World, c: Name, x: Outcome)
    requires c in from.crs && Arrived(from, w, c, CleanGet) && Possible(w, c, x)
    ensures var w' := Step(w, Act(c, x)); if x.SawVm? then Arrived(from, w', c, CleanPatch(x.vm)) else Over(from, w', c)
  {
    hide MergePatch, VolumeName, MoveInit, MoveHot, MoveWait, MoveSsh, MoveRestore, MoveDone;
  }

  /** The patch, and where it leads. */
  lemma CleanPatchCall(from: World, w: World, c: Name, base: Vm, x: Outcome)
    requires c in from.crs && Arrived(from, w, c, CleanPatch(base)) && Possible(w, c, x)
    requires var target := from.crs[c].spec.target; target in from.vms && Exclusive(from.vms[target]) && Exclusive(base)
    ensures var w', target, name := Step(w, Act(c, x)), from.crs[c].spec.target, VolumeName(c);
            && c in w'.crs && w'.crs[c].spec == from.crs[c].spec && w'.dvs == from.dvs && target in w'.vms
            && (Mentions(w'.vms[target], name) <==>
                  Mentions(from.vms[target], name) && !(Applied(x) && Mentions(base, name)))
            && (if x.Ok? && from.crs[c].spec.source.snapshot.Some?
                then c in w'.threads && w'.threads[c].pc.CleanDv? && !w'.threads[c].deletion
                else c !in w'.threads)
  {
    hide Exclusive, MergePatch, Mentions, Unplug, MoveInit, MoveHot, MoveWait, MoveSsh, MoveRestore, MoveDone;
    UnplugEffective(from.vms[from.crs[c].spec.target], base, VolumeName(c));
  }

  lemma CleanDvCall(w: World, c: Name, x: Outcome)
    requires c in w.crs && c in w.threads && w.threads[c].pc.CleanDv? && !w.threads[c].deletion && Possible(w, c, x)
    ensures var w' := Step(w, Act(c, x));
            && c in w'.crs && c !in w'.threads && w'.vms == w.vms
            && w'.dvs == if Applied(x) then w.dvs - {VolumeName(c)} else w.dvs
  {
    hide MergePatch, VolumeName, MoveInit, MoveHot, MoveWait, MoveSsh, MoveRestore, MoveDone;
  }

  /** Every VM version among the outcomes is one the target had. */
  predicate AllPossible(w: World, c: Name, xs: seq<Outcome>)
    requires c in w.crs
  {
    forall i :: 0 <= i < |xs| ==> Possible(w, c, xs[i])
  }

  /**
   The exact condition on the failing reconcile's own calls, in their order: the status patch, the
   guest cleanup, the VM read, the VM patch, the DataVolume's deletion.  The volume is out of the
   spec if and only if the first is answered, the operator survives the second, the third returns a
   version that shows the volume, and the fourth takes effect; the DataVolume is gone if and only
   if the fourth is answered too and the fifth takes effect.
   */
  lemma FailureCleansUp(w: World, c: Name, xs: seq<Outcome>)
    requires VmInv(w) && c in w.crs && c in w.threads && w.threads[c].pc.FailPatch? && !w.threads[c].deletion
    requires |xs| == 5 && AllPossible(w, c, xs)
    requires var target := w.crs[c].spec.target; target in w.vms && Mentions(w.vms[target], VolumeName(c))
    ensures var w', target, name := OwnCalls(w, c, xs), w.crs[c].spec.target, VolumeName(c);
            && c in w'.crs && c !in w'.threads && target in w'.vms
            && (!Mentions(w'.vms[target], name) <==>
                  xs[0].Ok? && !xs[1].Crash? && xs[2].SawVm? && Mentions(xs[2].vm, name) && Applied(xs[3]))
            && (w.crs[c].spec.source.snapshot.Some? && name in w.dvs ==>
                  (name !in w'.dvs <==> xs[0].Ok? && !xs[1].Crash? && xs[2].SawVm? && xs[3].Ok? && Applied(xs[4])))
  {
    hide Step, VmInv, Mentions, Exclusive, Arrived;
    var w1 := Step(w, Act(c, xs[0]));
    FailPatchCall(w, c, xs[0]);
    assert OwnCalls(w, c, xs) == OwnCalls(w1, c, xs[1..]);
    if xs[0].Ok? {
      CleanUpFromGuest(w, w1, c, xs[1..]);
    } else {
      NoMoreCalls(w1, c, xs[1..]);
    }
  }

  lemma CleanUpFromGuest(w: World, w1: World, c: Name, xs: seq<Outcome>)
    requires VmInv(w) && c in w.crs && Arrived(w, w1, c, CleanGuest)
    requires |xs| == 4 && AllPossible(w, c, xs)
    requires var target := w.crs[c].spec.target; target in w.vms && Mentions(w.vms[target], VolumeName(c))
    ensures var w', target, name := OwnCalls(w1, c, xs), w.crs[c].spec.target, VolumeName(c);
            && c in w'.crs && c !in w'.threads && target in w'.vms
            && (!Mentions(w'.vms[target], name) <==> !xs[0].Crash? && xs[1].SawVm? && Mentions(xs[1].vm, name) && Applied(xs[2]))
            && (w.crs[c].spec.source.snapshot.Some? && name in w.dvs ==>
                  (name !in w'.dvs <==> !xs[0].Crash? && xs[1].SawVm? && xs[2].Ok? && Applied(xs[3])))
  {
    hide Step, VmInv, Mentions, Exclusive;
    var w2 := Step(w1, Act(c, xs[0]));
    CleanGuestCall(w, w1, c, xs[0]);
    assert OwnCalls(w1, c, xs) == OwnCalls(w2, c, xs[1..]);
    if xs[0].Crash? {
      NoMoreCalls(w2, c, xs[1..]);
    } else {
      hide Arrived;
      CleanUpRest(w, w2, c, xs[1..]);
    }
  }

  lemma CleanUpRest(w: World, w2: World, c: Name, xs: seq<Outcome>)
    requires VmInv(w) && c in w.crs && Arrived(w, w2, c, CleanGet)
    requires |xs| == 3 && AllPossible(w, c, xs)
    requires var target := w.crs[c].spec.target; target in w.vms && Mentions(w.vms[target], VolumeName(c))
    ensures var w', target, name := OwnCalls(w2, c, xs), w.crs[c].spec.target, VolumeName(c);
            && c in w'.crs && c !in w'.threads && target in w'.vms
            && (!Mentions(w'.vms[target], name) <==> xs[0].SawVm? && Mentions(xs[0].vm, name) && Applied(xs[1]))
            && (w.crs[c].spec.source.snapshot.Some? && name in w.dvs ==>
                  (name !in w'.dvs <==> xs[0].SawVm? && xs[1].Ok? && Applied(xs[2])))
  {
    hide Step, Inv, Mentions, Exclusive;
    var target := w.crs[c].spec.target;
    var w3 := Step(w2, Act(c, xs[0]));
    CleanGetCall(w, w2, c, xs[0]);
    assert OwnCalls(w2, c, xs) == OwnCalls(w3, c, xs[1..]);
    if !xs[0].SawVm? {
      NoMoreCalls(w3, c, xs[1..]);
    } else {
      VersionExclusive(w, target, w.vms[target]);
      VersionExclusive(w, target, xs[0].vm);
      CleanPatchCall(w, w3, c, xs[0].vm, xs[1]);
      var w4 := Step(w3, Act(c, xs[1]));
      assert OwnCalls(w3, c, xs[1..]) == OwnCalls(w4, c, [xs[2]]) by { assert xs[1..][1..] == [xs[2]]; }
      if c !in w4.threads {
        NoMoreCalls(w4, c, [xs[2]]);
      } else {
        PossibleStays(w, w3, c, xs[1], xs[2]);
        CleanDvCall(w4, c, xs[2]);
        assert OwnCalls(w4, c, [xs[2]]) == Step(w4, Act(c, xs[2]));
      }
    }
  }

  lemma PossibleStays(w: World, w3: World, c: Name, x: Outcome, y: Outcome)
    requires c in w.crs && c in w3.crs && w3.crs[c].spec == w.crs[c].spec && w.past <= w3.past && Possible(w, c, y)
    requires var w4 := Step(w3, Act(c, x)); c in w4.crs && w4.crs[c].spec == w.crs[c].spec
    ensures Possible(Step(w3, Act(c, x)), c, y)
  {
    hide Move, MergePatch, VolumeName;
  }

  // ---------------------------------------------------------------------------
  // What a deletion and phase Cleanup achieve
  // ---------------------------------------------------------------------------

  /** Where an answered unplug leads. */
  function AfterUnplug(cr: Cr, pc: Pc): Pc {
    if pc.DonePatch? then (if cr.spec.source.snapshot.Some? then DoneDv else DoneVmi)
    else if cr.spec.source.snapshot.Some? then CleanDv else Finalize(0)
  }

  lemma UnplugMove(c: Name, cr: Cr, th: Thread, v: View)
    requires v.vmThere && (th.pc.DonePatch? || (th.pc.CleanPatch? && th.deletion))
    ensures var e := Move(c, cr, th, v, Ok);
            && e.cr == cr && !e.gone && e.dv.DvKeep? && e.thread == Some(th.(pc := AfterUnplug(cr, th.pc))) && e.ret.Running?
            && e.patch == Some(VmPatch(th.pc.base, Unplug(th.pc.base, VolumeName(c))))
  {
    hide VolumeName, Unplug, MoveInit, MoveHot, MoveWait, MoveSsh, MoveRestore;
  }

  /** The answered unplug patch of a deletion or of phase Cleanup. */
  lemma UnplugCall(w: World, c: Name)
    requires VmInv(w) && c in w.crs && c in w.threads && w.crs[c].spec.target in w.vms
    requires var th := w.threads[c]; th.pc.DonePatch? || (th.pc.CleanPatch? && th.deletion)
    ensures var w', th := Step(w, Act(c, Ok)), w.threads[c];
            && VmInv(w') && NoNews(w, w', c) && w'.dvs == w.dvs && w'.vmis == w.vmis && w'.excused == w.excused
            && c in w'.crs && w'.crs[c].(hist := w.crs[c].hist) == w.crs[c] && c in w'.threads
            && w'.threads[c] == th.(pc := AfterUnplug(w.crs[c], th.pc))
            && w.crs[c].spec.target in w'.vms && (Unplugged(w', c) <==> Shown(w, c, th.pc.base))
  {
    hide VmInv, Step, After, Mentions, VolumeName, MergePatch, NoNews, Move, AfterUnplug, Shown;
    StepKeepsVms(w, Act(c, Ok));
    UnplugTells(w, c, Ok);
    UnplugMove(c, w.crs[c], w.threads[c], ViewOf(w, c));
    Committed(w, c, Ok);
    ActIsAfter(w, c, Ok);
  }

  /** The answered deletion of the DataVolume. */
  lemma DvCall(w: World, c: Name)
    requires VmInv(w) && c in w.crs && c in w.threads
    requires var th := w.threads[c]; th.pc.DoneDv? || (th.pc.CleanDv? && th.deletion)
    ensures var w', th := Step(w, Act(c, Ok)), w.threads[c];
            && VmInv(w') && w'.vms == w.vms && w'.dvs == w.dvs - {VolumeName(c)} && w'.vmis == w.vmis && w'.excused == w.excused
            && c in w'.crs && w'.crs[c].(hist := w.crs[c].hist) == w.crs[c] && c in w'.threads
            && w'.threads[c] == th.(pc := if th.pc.DoneDv? then DoneVmi else Finalize(0))
  {
    hide VmInv, Step, After, VolumeName, MergePatch, Move;
    StepKeepsVms(w, Act(c, Ok));
    DvMove(c, w.crs[c], w.threads[c], ViewOf(w, c));
    Committed(w, c, Ok);
    ActIsAfter(w, c, Ok);
  }

  lemma DvMove(c: Name, cr: Cr, th: Thread, v: View)
    requires th.pc.DoneDv? || (th.pc.CleanDv? && th.deletion)
    ensures var e := Move(c, cr, th, v, Ok);
            && e.cr == cr && !e.gone && e.dv.DvDelete? && e.patch.None?
            && e.thread == Some(th.(pc := if th.pc.DoneDv? then DoneVmi else Finalize(0)))
  {
    hide VolumeName, MoveInit, MoveHot, MoveWait, MoveSsh, MoveRestore;
  }

  lemma FinalizeCall(w: World, c: Name)
    requires c in w.crs && c in w.threads && w.threads[c].pc.Finalize? && w.threads[c].clean && w.crs[c].deleting
    ensures var w' := Step(w, Act(c, Ok));
            c !in w'.crs && c !in w'.threads && w'.vms == w.vms && w'.dvs == w.dvs && w'.excused == w.excused
  {
    hide VolumeName, MergePatch, MoveInit, MoveHot, MoveWait, MoveSsh, MoveRestore, MoveDone, MoveClean;
  }

  /**
   Exact: a deletion whose remaining calls are all answered leaves nothing of the restore uncovered
   if and only if the version its unplug is computed from shows the volume, if the VM has it.
   */
  lemma DeletionCovers(w: World, c: Name)
    requires VmInv(w) && Covered(w, c) && !Leaked(w, c) && c in w.crs && c in w.threads && w.crs[c].spec.target in w.vms
    requires var th := w.threads[c]; th.pc.CleanPatch? && th.deletion && th.clean
    ensures var w' := OwnCalls(w, c, if w.crs[c].spec.source.snapshot.Some? then [Ok, Ok, Ok] else [Ok, Ok]);
            && c !in w'.crs && c !in w'.threads && !Leaked(w', c) && VolumeName(c) !in w'.dvs
            && (Covered(w', c) <==> Shown(w, c, w.threads[c].pc.base))
            && w.crs[c].spec.target in w'.vms
            && (!Mentions(w'.vms[w.crs[c].spec.target], VolumeName(c)) <==> Shown(w, c, w.threads[c].pc.base))
  {
    hide Step, Mentions, VolumeName, NoNews, Covered, Shown;
    DeletionOwner(w, c);
    UnplugCall(w, c);
    var w1 := Step(w, Act(c, Ok));
    if w.crs[c].spec.source.snapshot.Some? {
      DvCall(w1, c);
      var w2 := Step(w1, Act(c, Ok));
      FinalizeCall(w2, c);
      assert OwnCalls(w, c, [Ok, Ok, Ok]) == OwnCalls(w1, c, [Ok, Ok]) == OwnCalls(w2, c, [Ok]) == Step(w2, Act(c, Ok)) by { Unroll3(w, c); }
      LeftBehind(w, w1, Step(w2, Act(c, Ok)), c);
    } else {
      FinalizeCall(w1, c);
      assert OwnCalls(w, c, [Ok, Ok]) == Step(w1, Act(c, Ok)) by { Unroll2(w, c); }
      LeftBehind(w, w1, Step(w1, Act(c, Ok)), c);
    }
  }

  lemma Unroll2(w: World, c: Name)
    ensures OwnCalls(w, c, [Ok, Ok]) == Step(Step(w, Act(c, Ok)), Act(c, Ok))
  {
    hide Step;
    assert [Ok, Ok][1..] == [Ok] && [Ok][1..] == [];
  }

  lemma Unroll3(w: World, c: Name)
    ensures OwnCalls(w, c, [Ok, Ok, Ok]) == Step(Step(Step(w, Act(c, Ok)), Act(c, Ok)), Act(c, Ok))
    ensures OwnCalls(Step(w, Act(c, Ok)), c, [Ok, Ok]) == Step(Step(Step(w, Act(c, Ok)), Act(c, Ok)), Act(c, Ok))
    ensures OwnCalls(Step(Step(w, Act(c, Ok)), Act(c, Ok)), c, [Ok]) == Step(Step(Step(w, Act(c, Ok)), Act(c, Ok)), Act(c, Ok))
  {
    hide Step;
    assert [Ok, Ok, Ok][1..] == [Ok, Ok] && [Ok, Ok][1..] == [Ok] && [Ok][1..] == [];
  }

  lemma DeletionOwner(w: World, c: Name)
    requires VmInv(w) && c in w.crs && c in w.threads && w.threads[c].deletion && Cleaning(w.threads[c].pc)
    ensures w.crs[c].deleting && w.crs[c].finalizer
  {
    hide StatusOk;
    OwnThread(w, c);
  }

  /** With the object gone, covered means that the target does not have the volume. */
  lemma LeftBehind(w: World, w1: World, w': World, c: Name)
    requires c in w.crs && Covered(w, c) && !Leaked(w, c) && NoNews(w, w1, c)
    requires c in w1.crs && w1.crs[c].spec == w.crs[c].spec && w.crs[c].spec.target in w1.vms
    requires w'.vms == w1.vms && w'.excused == w.excused && c !in w'.crs
    requires w'.dvs == w1.dvs - {VolumeName(c)} || (w'.dvs == w1.dvs && w.crs[c].spec.source.snapshot.None?)
    ensures !Leaked(w', c) && VolumeName(c) !in w'.dvs && (Covered(w', c) <==> Unplugged(w1, c))
  {
    hide Mentions, VolumeName, Lists;
    assert !Leaked(w', c);
    if !Unplugged(w1, c) {
      var target := w1.crs[c].spec.target;
      assert target in w'.vms && Mentions(w'.vms[target], VolumeName(c)) && (c, target) !in w'.excused;
    }
  }

  /** The VMI read that ends the wait for detachment, and the patch to Succeeded. */
  lemma SuccessCalls(w: World, c: Name, x: Outcome)
    requires c in w.crs && c in w.threads && w.threads[c].pc.DoneVmi? && !w.threads[c].vmGone
    requires x.NotFound? || (x.SawVmi? && !Lists(x.vmi, VolumeName(c)))
    ensures var w' := Step(Step(w, Act(c, x)), Act(c, Ok));
            && w'.vms == w.vms && w'.dvs == w.dvs && w'.vmis == w.vmis
            && c in w'.crs && w'.crs[c].spec == w.crs[c].spec && w'.crs[c].status.phase.Succeeded? && !w'.crs[c].hist.vmGone
  {
    VmiReadCall(w, c, x);
    hide Step;
    AdvanceCall(Step(w, Act(c, x)), c);
  }

  lemma VmiReadCall(w: World, c: Name, x: Outcome)
    requires c in w.crs && c in w.threads && w.threads[c].pc.DoneVmi?
    requires x.NotFound? || (x.SawVmi? && !Lists(x.vmi, VolumeName(c)))
    ensures var w' := Step(w, Act(c, x));
            && w'.vms == w.vms && w'.dvs == w.dvs && w'.vmis == w.vmis
            && c in w'.crs && w'.crs[c].spec == w.crs[c].spec
            && c in w'.threads && w'.threads[c] == w.threads[c].(pc := Advance(Succeeded))
  {
    hide Lists, VolumeName, MergePatch, MoveInit, MoveHot, MoveWait, MoveSsh, MoveRestore, MoveClean;
  }

  lemma AdvanceCall(w: World, c: Name)
    requires c in w.crs && c in w.threads && w.threads[c].pc.Advance?
    ensures var w' := Step(w, Act(c, Ok));
            && w'.vms == w.vms && w'.dvs == w.dvs && w'.vmis == w.vmis && w'.excused == w.excused && w'.past == w.past
            && c in w'.crs && c !in w'.threads
            && w'.crs[c].spec == w.crs[c].spec && w'.crs[c].finalizer == w.crs[c].finalizer && w'.crs[c].deleting == w.crs[c].deleting
            && w'.crs[c].status.phase == w.threads[c].pc.to && w'.crs[c].hist.vmGone == w.threads[c].vmGone
  {
    hide VolumeName, MergePatch, MoveInit, MoveHot, MoveWait, MoveSsh, MoveRestore, MoveDone, MoveClean;
  }

  /**
   Exact: phase Cleanup, with its calls answered, persists Succeeded with a snapshot's DataVolume
   deleted, and with the volume out of the spec if and only if the version it read shows the volume,
   if the VM has it; with the volume off the VMI if and only if its VMI read was right about that.
   */
  lemma SuccessUnplugs(w: World, c: Name, x: Outcome)
    requires VmInv(w) && c in w.crs && c in w.threads && w.crs[c].spec.target in w.vms
    requires w.threads[c].pc.DonePatch? && !w.threads[c].vmGone
    requires x.NotFound? || (x.SawVmi? && !Lists(x.vmi, VolumeName(c)))
    ensures var w' := OwnCalls(w, c, if w.crs[c].spec.source.snapshot.Some? then [Ok, Ok, x, Ok] else [Ok, x, Ok]);
            && c in w'.crs && w'.crs[c].spec == w.crs[c].spec && w'.crs[c].status.phase.Succeeded? && !w'.crs[c].hist.vmGone && NoDv(w', c)
            && (Unplugged(w', c) <==> Shown(w, c, w.threads[c].pc.base))
            && (Unlisted(w', c) <==> Unlisted(w, c))
  {
    hide Step, Mentions, Lists, VolumeName, NoNews, Shown;
    UnplugCall(w, c);
    var w1 := Step(w, Act(c, Ok));
    assert [x, Ok][1..] == [Ok] && [Ok][1..] == [];
    if w.crs[c].spec.source.snapshot.Some? {
      DvCall(w1, c);
      var w2 := Step(w1, Act(c, Ok));
      SuccessCalls(w2, c, x);
      assert [Ok, Ok, x, Ok][1..] == [Ok, x, Ok] && [Ok, x, Ok][1..] == [x, Ok];
      assert OwnCalls(w, c, [Ok, Ok, x, Ok]) == OwnCalls(w1, c, [Ok, x, Ok]) == OwnCalls(w2, c, [x, Ok]);
      assert OwnCalls(w2, c, [x, Ok]) == OwnCalls(Step(w2, Act(c, x)), c, [Ok]);
    } else {
      SuccessCalls(w1, c, x);
      assert [Ok, x, Ok][1..] == [x, Ok];
      assert OwnCalls(w, c, [Ok, x, Ok]) == OwnCalls(w1, c, [x, Ok]);
      assert OwnCalls(w1, c, [x, Ok]) == OwnCalls(Step(w1, Act(c, x)), c, [Ok]);
    }
  }
}
