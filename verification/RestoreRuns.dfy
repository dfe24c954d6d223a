/** Whole runs: what holds of every restore in every reachable state. */
module RestoreRuns {
  import opened Text
  import opened VmSpec
  import opened RestoreModel
  import opened RestoreStatus
  import opened RestoreProgress
  import opened GuestOs
  import FileCount

  /** A reconcile whose object has vanished can only be adding or removing the finalizer. */
  predicate Orphaned(th: Thread) {
    || (th.pc.AddFinalizer? && !th.deletion && !th.entry.finalizer)
    || (th.pc.Finalize? && th.deletion && 1 <= th.pc.attempt < FINALIZER_ATTEMPTS)
  }

  /** The invariants of restore c. */
  predicate OwnOk(w: World, c: Name) {
    && (c in w.crs ==> StatusOk(w.crs[c], w.clock))
    && (c in w.crs && c in w.threads ==> ThreadOk(w.crs[c], w.threads[c], w.clock))
    && (c !in w.crs && c in w.threads ==> Orphaned(w.threads[c]))
  }

  ghost predicate Inv(w: World) { forall c: Name :: OwnOk(w, c) }

  lemma CommitKeepsOwn(w: World, c: Name, e: Effect, clean: bool)
    requires c in w.crs && EffectOk(e, w.clock)
    requires e.gone && e.thread.Some? ==> Orphaned(e.thread.value)
    ensures OwnOk(Commit(w, c, e, clean), c)
  {
    hide StatusOk, ThreadOk, Woken, MergePatch;
  }

  lemma CommitKeepsOthers(w: World, c: Name, e: Effect, clean: bool, d: Name)
    requires c in w.crs && d != c && OwnOk(w, d)
    ensures OwnOk(Commit(w, c, e, clean), d)
  {
    hide StatusOk, ThreadOk, Woken, MergePatch, Orphaned;
  }

  lemma FinalizedIsOrphan(c: Name, cr: Cr, th: Thread, v: View, x: Outcome)
    requires ThreadOk(cr, th, v.clock)
    ensures var e := Move(c, cr, th, v, x); e.gone ==> th.pc.Finalize? && th.deletion && Applied(x)
    ensures var e := Move(c, cr, th, v, x); e.gone && e.thread.Some? ==> Orphaned(e.thread.value)
  {
    hide MoveInit, MoveHot, MoveWait, MoveSsh, MoveRestore, MoveDone, MoveClean, AtPc, Advanced, Orphaned;
    if th.pc.Finalize? { FinalizedOrphan(cr, th, v, x); } else { NothingElseGoes(c, cr, th, v, x); }
  }

  lemma FinalizedOrphan(cr: Cr, th: Thread, v: View, x: Outcome)
    requires ThreadOk(cr, th, v.clock) && th.pc.Finalize?
    ensures var e := MoveFinalize(cr, th, x); th.deletion && (e.gone ==> Applied(x)) && (e.gone && e.thread.Some? ==> Orphaned(e.thread.value))
  {
    hide AtPc;
  }

  lemma NothingElseGoes(c: Name, cr: Cr, th: Thread, v: View, x: Outcome)
    requires !th.pc.Finalize?
    ensures !Move(c, cr, th, v, x).gone
  {
    hide MoveInit, MoveHot, MoveWait, MoveSsh, MoveRestore, MoveDone, MoveClean, MoveFinalize;
    EarlyStay(c, cr, th, v, x);
    LateStay(c, cr, th, v, x);
  }

  lemma EarlyStay(c: Name, cr: Cr, th: Thread, v: View, x: Outcome)
    ensures !MoveInit(c, cr, th, v, x).gone && !MoveHot(c, cr, th, v, x).gone && !MoveWait(c, cr, th, v, x).gone
  {
    hide PlugVerdict, VolumeName, Plug, CheckAttachment, MountPath, DetectGuestOs;
  }

  lemma LateStay(c: Name, cr: Cr, th: Thread, v: View, x: Outcome)
    ensures !MoveSsh(cr, th, v, x).gone && !MoveRestore(cr, th, x).gone && !MoveDone(c, cr, th, v, x).gone && !MoveClean(c, cr, th, v, x).gone
  {
    hide VolumeName, Lists, Unplug, RestoredCr;
  }

  lemma ActKeeps(w: World, c: Name, x: Outcome, d: Name)
    requires OwnOk(w, c) && OwnOk(w, d)
    ensures OwnOk(StepAct(w, c, x), d)
  {
    hide StatusOk, ThreadOk, EffectOk, Move, Commit;
    if c in w.threads && c in w.crs && !x.Crash? && Possible(w, c, x) {
      var e := EffectOf(w, c, x);
      MoveKeeps(c, w.crs[c], w.threads[c], ViewOf(w, c), x);
      FinalizedIsOrphan(c, w.crs[c], w.threads[c], ViewOf(w, c), x);
      if d == c { CommitKeepsOwn(w, c, e, w.threads[c].clean); } else { CommitKeepsOthers(w, c, e, w.threads[c].clean, d); }
    }
  }

  lemma StartKeeps(w: World, c: Name, d: Name)
    requires OwnOk(w, c) && OwnOk(w, d)
    ensures OwnOk(Step(w, Start(c)), d)
  {
    hide StatusOk, ThreadOk, EffectOk, Commit;
    if c !in w.threads && c in w.crs {
      var e := Dispatch(w.crs[c], ViewOf(w, c));
      DispatchKeeps(w.crs[c], ViewOf(w, c));
      assert !e.gone;
      if d == c { CommitKeepsOwn(w, c, e, true); } else { CommitKeepsOthers(w, c, e, true, d); }
    }
  }

  lemma CreateKeeps(w: World, c: Name, spec: Spec, d: Name)
    requires OwnOk(w, d)
    ensures OwnOk(Step(w, CreateCr(c, spec)), d)
  {
  }

  lemma DeleteKeeps(w: World, c: Name, d: Name)
    requires OwnOk(w, d)
    ensures OwnOk(Step(w, DeleteCr(c)), d)
  {
    hide AtPc, ClockOk;
    if c == d && c in w.crs && w.crs[c].finalizer {
      assert ClockOk(w.crs[c].(deleting := true), w.clock) by { DeletingKeepsClock(w.crs[c], w.clock); }
      if c in w.threads { DeletingKeepsPc(w.crs[c], w.threads[c], w.clock); }
    }
  }

  lemma DeletingKeepsClock(cr: Cr, clock: nat)
    requires ClockOk(cr, clock)
    ensures ClockOk(cr.(deleting := true), clock)
  {
  }

  lemma DeletingKeepsPc(cr: Cr, th: Thread, clock: nat)
    ensures AtPc(cr, th, clock) ==> AtPc(cr.(deleting := true), th, clock)
  {
  }

  lemma TickKeeps(w: World, elapsed: nat, d: Name)
    requires OwnOk(w, d)
    ensures OwnOk(Step(w, Tick(elapsed)), d)
  {
  }

  /** Every step keeps every restore's invariants. */
  lemma StepKeeps(w: World, e: Event)
    requires Inv(w)
    ensures Inv(Step(w, e))
  {
    forall d: Name ensures OwnOk(Step(w, e), d) {
      assert OwnOk(w, d);
      StepKeepsOne(w, e, d);
    }
  }

  lemma StepKeepsOne(w: World, e: Event, d: Name)
    requires Inv(w)
    ensures OwnOk(Step(w, e), d)
  {
    hide StatusOk, ThreadOk, StepAct, Commit, AllowedVm, AllowedVmi;
    assert OwnOk(w, d);
    match e
    case Act(c, x) => assert OwnOk(w, c); ActKeeps(w, c, x, d);
    case Start(c) => assert OwnOk(w, c); StartKeeps(w, c, d);
    case CreateCr(c, spec) => CreateKeeps(w, c, spec, d);
    case DeleteCr(c) => DeleteKeeps(w, c, d);
    case Tick(t) => TickKeeps(w, t, d);
    case _ =>
  }

  lemma {:induction false} Reachable(w: World, events: seq<Event>)
    requires Initial(w)
    ensures Inv(Exec(w, events))
  {
    if events != [] {
      Reachable(w, events[..|events| - 1]);
      StepKeeps(Exec(w, events[..|events| - 1]), events[|events| - 1]);
    }
  }

  // ---------------------------------------------------------------------------
  // What others leave alone
  // ---------------------------------------------------------------------------

  /** Equal except that a deletion may have been requested meanwhile. */
  predicate SameCr(a: Cr, b: Cr) { a.(deleting := b.deleting) == b }

  /** What steps of others leave alone while restore c has a reconcile in flight or just ended one. */
  predicate SameOwn(a: World, b: World, c: Name) {
    && b.namespace == a.namespace
    && (c in b.threads <==> c in a.threads)
    && (c in a.threads ==> b.threads[c] == a.threads[c])
    && (c in a.threads && c in a.crs && a.crs[c].finalizer ==> c in b.crs && SameCr(b.crs[c], a.crs[c]))
  }

  /** Steps that are not c's own leave c's reconcile and its finalized object alone. */
  lemma OthersKeepOwn(w: World, e: Event, c: Name)
    requires !((e.Act? || e.Start?) && e.c == c)
    ensures SameOwn(w, Step(w, e), c)
  {
    hide Commit, Dispatch, EffectOf, SameOwn, Step;
    if e.Act? {
      OtherActKeepsOwn(w, e, c);
    } else if e.Start? {
      OtherStartKeepsOwn(w, e, c);
    } else {
      EnvironmentKeepsOwn(w, e, c);
    }
  }

  lemma OtherActKeepsOwn(w: World, e: Event, c: Name)
    requires e.Act? && e.c != c
    ensures SameOwn(w, Step(w, e), c)
  {
    hide Commit, EffectOf;
    if e.c in w.crs && e.c in w.threads {
      CommitKeepsRest(w, e.c, EffectOf(w, e.c, e.x), w.threads[e.c].clean, c);
    }
  }

  lemma OtherStartKeepsOwn(w: World, e: Event, c: Name)
    requires e.Start? && e.c != c
    ensures SameOwn(w, Step(w, e), c)
  {
    hide Commit, Dispatch;
    if e.c in w.crs { CommitKeepsRest(w, e.c, Dispatch(w.crs[e.c], ViewOf(w, e.c)), true, c); }
  }

  lemma EnvironmentKeepsOwn(w: World, e: Event, c: Name)
    requires !e.Act? && !e.Start?
    ensures SameOwn(w, Step(w, e), c)
  {
    hide AllowedVm, AllowedVmi, Commit, StepAct, Dispatch, VolumeName;
  }

  lemma CommitKeepsRest(w: World, d: Name, e: Effect, clean: bool, c: Name)
    requires d in w.crs && d != c
    ensures SameOwn(w, Commit(w, d, e, clean), c)
  {
    hide MergePatch, VolumeName, Woken;
  }

  lemma SameOwnReflexive(a: World, c: Name)
    ensures SameOwn(a, a, c)
  {
  }

  lemma SameOwnTransitive(x: World, y: World, z: World, c: Name)
    requires SameOwn(x, y, c) && SameOwn(y, z, c)
    ensures SameOwn(x, z, c)
  {
  }

  // ---------------------------------------------------------------------------
  // The phase chain over a run
  // ---------------------------------------------------------------------------

  /** The object c exists in every state of the run. */
  predicate Throughout(w: World, events: seq<Event>, c: Name) {
    c in Exec(w, events).crs && (events == [] || Throughout(w, events[..|events| - 1], c))
  }

  /** A restore's status is only ever written by its own calls. */
  lemma OnlyOwnCallsWrite(w: World, e: Event, c: Name)
    requires c in w.crs && c in Step(w, e).crs
    ensures var st := Step(w, e).crs[c].status;
            st == w.crs[c].status || (e.Act? && e.c == c && c in w.threads && st == EffectOf(w, c, e.x).cr.status)
  {
    hide Step, EffectOf;
    if e.Act? { CallsWriteOwn(w, e.c, e.x, c); } else { NonCallsWriteNothing(w, e, c); }
  }

  lemma CallsWriteOwn(w: World, d: Name, x: Outcome, c: Name)
    requires c in w.crs && c in Step(w, Act(d, x)).crs
    ensures var st := Step(w, Act(d, x)).crs[c].status;
            st == w.crs[c].status || (d == c && c in w.threads && st == EffectOf(w, c, x).cr.status)
  {
    hide Commit, EffectOf;
    if d in w.crs && d in w.threads { CommitWrites(w, d, EffectOf(w, d, x), w.threads[d].clean, c); }
  }

  lemma NonCallsWriteNothing(w: World, e: Event, c: Name)
    requires !e.Act? && c in w.crs && c in Step(w, e).crs
    ensures Step(w, e).crs[c].status == w.crs[c].status
  {
    hide Commit, AllowedVm, AllowedVmi, Dispatch, VolumeName;
    if e.Start? && e.c in w.crs {
      CommitWrites(w, e.c, Dispatch(w.crs[e.c], ViewOf(w, e.c)), true, c);
      if e.c == c { DispatchWritesNothing(w.crs[c], ViewOf(w, c)); }
    }
  }

  lemma CommitWrites(w: World, d: Name, e: Effect, clean: bool, c: Name)
    requires d in w.crs && c in w.crs
    ensures var w' := Commit(w, d, e, clean);
            c in w'.crs ==> w'.crs[c].status == if c == d then e.cr.status else w.crs[c].status
  {
    hide MergePatch, VolumeName;
  }

  lemma StepEvolves(w: World, e: Event, c: Name)
    requires Inv(w) && c in w.crs && c in Step(w, e).crs
    ensures Evolves(w.crs[c].status, Step(w, e).crs[c].status)
  {
    hide StatusOk, ThreadOk, Step, Move, Evolves;
    assert OwnOk(w, c);
    Unchanged(w.crs[c].status);
    OnlyOwnCallsWrite(w, e, c);
    if Step(w, e).crs[c].status != w.crs[c].status {
      StatusPhase(w.crs[c], w.clock);
      MoveEvolves(c, w.crs[c], w.threads[c], ViewOf(w, c), e.x);
    }
  }

  lemma StatusPhase(cr: Cr, clock: nat)
    requires StatusOk(cr, clock)
    ensures PhaseOk(cr)
  {
  }

  lemma Unchanged(st: Status)
    ensures Evolves(st, st) && EvolvesTo(st, st)
  {
  }

  lemma PhaseKinds(cr: Cr, clock: nat)
    requires StatusOk(cr, clock)
    ensures Started(cr.status.phase) || cr.status.phase.Unset? || cr.status.phase.Failed?
  {
  }

  /**
   Between any two moments of a run the persisted phase either stayed or rose along the chain;
   a terminal status is final; start time, mount path and count are never rewritten.
   */
  lemma {:induction false} PhaseChain(w: World, events: seq<Event>, c: Name)
    requires Inv(w) && Throughout(w, events, c)
    ensures c in w.crs && Inv(Exec(w, events))
    ensures EvolvesTo(w.crs[c].status, Exec(w, events).crs[c].status)
  {
    hide Evolves, EvolvesTo, StatusOk, ThreadOk, Step;
    if events == [] {
      Unchanged(w.crs[c].status);
    } else {
      var before := Exec(w, events[..|events| - 1]);
      var e := events[|events| - 1];
      PhaseChain(w, events[..|events| - 1], c);
      StepKeeps(before, e);
      StepEvolves(before, e, c);
      assert OwnOk(before, c) && OwnOk(w, c);
      PhaseKinds(before.crs[c], before.clock);
      StartedStays(w.crs[c].status, before.crs[c].status);
      EvolvesCompose(w.crs[c].status, before.crs[c].status, Exec(w, events).crs[c].status);
    }
  }

  lemma StartedStays(a: Status, b: Status)
    requires EvolvesTo(a, b) && (Started(b.phase) || b.phase.Unset? || b.phase.Failed?)
    ensures Started(a.phase) ==> Started(b.phase) || b.phase.Failed?
  {
  }

  /** The persisted status in every reachable state. */
  lemma PersistedStatus(w: World, events: seq<Event>, c: Name)
    requires Initial(w) && c in Exec(w, events).crs
    ensures var st := Exec(w, events).crs[c].status;
            && !st.phase.Init? && !st.phase.New? && !st.phase.Unknown?
            && (st.completionTime.Some? <==> Terminal(st.phase))
            && (Started(st.phase) ==> st.startTime.Some? && st.mountPath != "")
            && (st.phase.Unset? ==> st.startTime.None?)
    ensures var th := Exec(w, events).threads; var st := Exec(w, events).crs[c].status;
            c in th && !th[c].deletion && th[c].pc.RestoreRun? ==> st.mountPath != ""
  {
    Reachable(w, events);
    assert OwnOk(Exec(w, events), c);
  }

  /** Cleanup and Succeeded are for automatic runs whose guest command succeeded, and have a count. */
  lemma CleanupHasCount(w: World, events: seq<Event>, c: Name)
    requires Initial(w) && c in Exec(w, events).crs
    ensures var cr := Exec(w, events).crs[c];
            && (cr.status.phase.Cleanup? || cr.status.phase.Succeeded? ==>
                  cr.spec.sourcePath != "" && cr.hist.guestOk && cr.status.count.Some? && cr.status.count.value >= 0)
            && (cr.status.phase.VolumeReady? ==> cr.spec.sourcePath == "" && cr.hist.guestOk)
  {
    Reachable(w, events);
    assert OwnOk(Exec(w, events), c);
  }

  // ---------------------------------------------------------------------------
  // Progress
  // ---------------------------------------------------------------------------

  /**
   In every reachable state, the call that ends a reconcile of a live, unfinished restore has
   lowered the measure below its value on entry, unless it is a write of the restore object that
   failed, or it waits, which leaves the status as it was, for a DataVolume that is not
   provisioned or a volume still listed.
   */
  lemma EveryReconcileProgresses(w: World, events: seq<Event>, c: Name, x: Outcome)
    requires Initial(w)
    requires var now := Exec(w, events); c in now.crs && c in now.threads && !now.threads[c].deletion
    ensures var now := Exec(w, events);
            Progressed(now.threads[c].entry, EffectOf(now, c, x), now.clock, WritesCr(now.threads[c].pc) && !x.Ok?)
    ensures var now := Exec(w, events); var e := EffectOf(now, c, x);
            e.ret.Waiting? ==> Blocked(c, ViewOf(now, c), x, e.ret.why) && e.ret.after == Some(5_000_000_000)
  {
    Reachable(w, events);
    var now := Exec(w, events);
    assert OwnOk(now, c);
    MoveProgress(c, now.crs[c], now.threads[c], ViewOf(now, c), x);
    WaitsAreBlocked(c, now.crs[c], now.threads[c], ViewOf(now, c), x);
  }

  /** The same for a reconcile that returns straight from the dispatch; measures are well-founded. */
  lemma EveryDispatchProgresses(w: World, events: seq<Event>, c: Name)
    requires Initial(w)
    requires var now := Exec(w, events); c in now.crs && !now.crs[c].deleting && !Terminal(now.crs[c].status.phase)
    ensures var now := Exec(w, events);
            && Progressed(now.crs[c], Dispatch(now.crs[c], ViewOf(now, c)), now.clock, false)
            && Natural(MeasureOf(now.crs[c]))
  {
    Reachable(w, events);
    var now := Exec(w, events);
    assert OwnOk(now, c);
    DispatchProgress(now.crs[c], ViewOf(now, c));
  }

  // ---------------------------------------------------------------------------
  // Retry timing
  // ---------------------------------------------------------------------------

  /** Seconds between the first and the last recorded check; -1 when there was none. */
  function Span(first: Option<nat>, last: Option<nat>): int {
    if first.Some? && last.Some? then last.value - first.value else -1
  }

  /** A recorded check time is only replaced by one at least five seconds later. */
  predicate Apart(a: Option<nat>, b: Option<nat>) {
    a.Some? && b != a ==> b.Some? && b.value >= a.value + 5
  }

  /**
   In every reachable state: the retry counters stay within their bounds, n retries took at
   least 5(n-1) seconds, so the timeouts need 295 s and 115 s between the first and the last
   check, and a requeue the operator scheduled itself is not rate-limited when it comes.
   */
  lemma RetryTiming(w: World, events: seq<Event>, c: Name)
    requires Initial(w) && c in Exec(w, events).crs
    ensures var cr := Exec(w, events).crs[c]; var st := cr.status;
            && 0 <= st.attachmentRetries <= 60 && 0 <= st.sshRetries <= 24
            && (st.attachmentRetries == 60 ==> Span(cr.hist.firstAttachment, st.lastAttachment) >= 295)
            && (st.sshRetries == 24 ==> Span(cr.hist.firstSsh, st.lastSsh) >= 115)
    ensures var now := Exec(w, events); var cr := now.crs[c];
            cr.hist.wake.Some? && now.clock >= cr.hist.wake.value ==>
              && (cr.status.phase.WaitingForAttachment? ==> !RateLimited(cr.status.lastAttachment, now.clock))
              && (cr.status.phase.SshConnecting? ==> !RateLimited(cr.status.lastSsh, now.clock))
  {
    Reachable(w, events);
    assert OwnOk(Exec(w, events), c);
  }

  /** Recorded check times are at least five seconds apart, although they are truncated. */
  lemma ChecksAreSpaced(w: World, events: seq<Event>, e: Event, c: Name)
    requires Initial(w)
    requires c in Exec(w, events).crs && c in Step(Exec(w, events), e).crs
    ensures var a, b := Exec(w, events).crs[c].status, Step(Exec(w, events), e).crs[c].status;
            Apart(a.lastAttachment, b.lastAttachment) && Apart(a.lastSsh, b.lastSsh)
  {
    Reachable(w, events);
    var now := Exec(w, events);
    assert OwnOk(now, c);
    StepSpaces(now, e, c);
  }

  lemma StepSpaces(w: World, e: Event, c: Name)
    requires OwnOk(w, c) && c in w.crs && c in Step(w, e).crs
    ensures var a, b := w.crs[c].status, Step(w, e).crs[c].status;
            Apart(a.lastAttachment, b.lastAttachment) && Apart(a.lastSsh, b.lastSsh)
  {
    hide Step, Move, StatusOk, ThreadOk;
    OnlyOwnCallsWrite(w, e, c);
    if Step(w, e).crs[c].status != w.crs[c].status {
      MoveSpaces(c, w.crs[c], w.threads[c], ViewOf(w, c), e.x);
    }
  }

  lemma DispatchWritesNothing(cr: Cr, v: View)
    ensures Dispatch(cr, v).cr == cr
  {
  }

  lemma MoveSpaces(c: Name, cr: Cr, th: Thread, v: View, x: Outcome)
    requires ThreadOk(cr, th, v.clock)
    ensures var a, b := cr.status, Move(c, cr, th, v, x).cr.status;
            Apart(a.lastAttachment, b.lastAttachment) && Apart(a.lastSsh, b.lastSsh)
  {
    hide Move;
    if th.pc.WaitStamp? || th.pc.SshStamp? {
      StampSpaces(c, cr, th, v, x);
    } else if Quiet(th.pc) || Cleaning(th.pc) || th.pc.Finalize? {
      QuietEvolves(c, cr, th, v, x);
    } else {
      OthersDoNotStamp(c, cr, th, v, x);
    }
  }

  lemma StampSpaces(c: Name, cr: Cr, th: Thread, v: View, x: Outcome)
    requires ThreadOk(cr, th, v.clock) && (th.pc.WaitStamp? || th.pc.SshStamp?)
    ensures var a, b := cr.status, Move(c, cr, th, v, x).cr.status;
            Apart(a.lastAttachment, b.lastAttachment) && Apart(a.lastSsh, b.lastSsh)
  {
    hide VolumeName, CheckAttachment;
  }

  lemma OthersDoNotStamp(c: Name, cr: Cr, th: Thread, v: View, x: Outcome)
    requires !th.pc.WaitStamp? && !th.pc.SshStamp? && !Quiet(th.pc) && !Cleaning(th.pc) && !th.pc.Finalize?
    ensures var a, b := cr.status, Move(c, cr, th, v, x).cr.status;
            a.lastAttachment == b.lastAttachment && a.lastSsh == b.lastSsh
  {
    hide MoveInit, MoveHot, MoveWait, MoveSsh, MoveRestore, MoveDone, MoveClean, MoveFinalize;
    if InWait(th.pc) || InSsh(th.pc) { ChecksDoNotStamp(c, cr, th, v, x); }
    InitAndCopyDoNotStamp(c, cr, th, v, x);
  }

  predicate SameStamps(a: Status, b: Status) { a.lastAttachment == b.lastAttachment && a.lastSsh == b.lastSsh }

  lemma ChecksDoNotStamp(c: Name, cr: Cr, th: Thread, v: View, x: Outcome)
    requires !th.pc.WaitStamp? && !th.pc.SshStamp?
    ensures SameStamps(MoveWait(c, cr, th, v, x).cr.status, cr.status) && SameStamps(MoveSsh(cr, th, v, x).cr.status, cr.status)
  {
    hide VolumeName, CheckAttachment;
  }

  lemma InitAndCopyDoNotStamp(c: Name, cr: Cr, th: Thread, v: View, x: Outcome)
    ensures SameStamps(MoveInit(c, cr, th, v, x).cr.status, cr.status) && SameStamps(MoveRestore(cr, th, x).cr.status, cr.status)
  {
    hide MountPath, DetectGuestOs, FileCount.ReportedCount;
  }
}
