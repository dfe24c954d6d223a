/**
 The reconciler in its own form: Reconcile, the phase handlers, failRestore, cleanup and the
 finalizer loop as methods that call the API server one call at a time.  Each call is one step
 of the state machine, and after each call the rest of the world may take any steps it likes;
 so whatever holds of every run of the machine holds at every point of this code.
 */
module Reconciler {
  import opened Text
  import opened VmSpec
  import opened GuestOs
  import opened RestoreModel
  import opened RestoreStatus
  import opened RestoreRuns
  import opened RestoreRequests
  import Decisions = RestoreDecisions
  import Backoff
  import Commands
  import FileCount

  // ---------------------------------------------------------------------------
  // What the larger steps ask for
  // ---------------------------------------------------------------------------

  /** One edit that drops the own name; then the DataVolume's deletion, which a successful unplug of a snapshot includes. */
  predicate Unplugs(sent: seq<Request>, before: seq<Request>, c: Name, vm: Vm, spec: Spec, ok: bool) {
    var edit, drop := EditVm(vm, Vm(Without(vm.volumes, VolumeName(c)), Without(vm.disks, VolumeName(c)))), DeleteDv(VolumeName(c));
    || (sent == before + [edit] && (ok ==> spec.source.snapshot.None?))
    || (sent == before + [edit, drop] && spec.source.snapshot.Some?)
  }

  /** The guest, then the VM, then, if the VM could be read, the unplug. */
  ghost predicate Cleans(sent: seq<Request>, before: seq<Request>, c: Name, mountPath: string, spec: Spec) {
    var looked := before + [GuestCleanup(mountPath), ReadVm];
    sent == looked || exists vm: Vm, ok: bool :: Unplugs(sent, looked, c, vm, spec, ok)
  }

  lemma CleansCreatesNothing(sent: seq<Request>, before: seq<Request>, c: Name, mountPath: string, spec: Spec)
    requires Cleans(sent, before, c, mountPath, spec)
    ensures before < sent && NoCreate(sent, |before|)
  {
  }

  predicate NoCreate(sent: seq<Request>, n: nat) { forall i :: n <= i < |sent| ==> !sent[i].CreateDv? }

  /** Look first; create at most once, under the own name, right behind the look, and only what was not there. */
  predicate Provisions(sent: seq<Request>, before: seq<Request>, name: string, missing: bool) {
    && before + [ReadDv(name)] <= sent
    && forall i :: |before| <= i < |sent| && sent[i].CreateDv? ==> i == |before| + 1 && sent[i] == CreateDv(name) && missing
  }

  lemma NothingCreated(sent: seq<Request>, before: seq<Request>, q: Request)
    requires before + [q] <= sent && !q.CreateDv? && NoCreate(sent, |before| + 1)
    ensures NoCreate(sent, |before|)
  {
    assert sent[|before|] == q;
  }

  lemma OnePatch(sent: seq<Request>, before: seq<Request>)
    requires |sent| == |before| + 1 && sent[|before|].SetStatus?
    ensures NoCreate(sent, |before|)
  {
  }

  lemma OnlyLooked(sent: seq<Request>, before: seq<Request>, name: string, missing: bool)
    requires before + [ReadDv(name)] <= sent && NoCreate(sent, |before| + 1)
    ensures Provisions(sent, before, name, missing)
  {
    assert sent[|before|] == ReadDv(name);
  }

  lemma LookedAndCreated(sent: seq<Request>, before: seq<Request>, name: string)
    requires before + [ReadDv(name)] + [CreateDv(name)] <= sent && NoCreate(sent, |before| + 2)
    ensures Provisions(sent, before, name, true)
  {
    assert sent[|before|] == ReadDv(name) && sent[|before| + 1] == CreateDv(name);
  }

  /** Request n asks to persist this phase. */
  predicate AsksPhase(sent: seq<Request>, n: nat, phase: Phase) { n < |sent| && sent[n].SetStatus? && sent[n].status.phase == phase }

  /** Requests from n on: reset the counter if it has counted, then the next phase. */
  predicate GoesOn(sent: seq<Request>, n: nat, st: Status, ssh: bool) {
    var retries, on := if ssh then st.sshRetries else st.attachmentRetries, if ssh then Restoring else SshConnecting;
    if retries > 0 then
      && n < |sent| && sent[n] == SetStatus(if ssh then st.(sshRetries := 0) else st.(attachmentRetries := 0))
      && AsksPhase(sent, n + 1, on)
    else AsksPhase(sent, n, on)
  }

  /** One more retry is asked for, and, if it is answered, a requeue after the next share of the schedule. */
  predicate Retries(sent: seq<Request>, n: nat, st: Status, ssh: bool, ret: Ret) {
    var retries := if ssh then st.sshRetries else st.attachmentRetries;
    && retries >= 0 && |sent| == n + 1
    && sent[n] == SetStatus(if ssh then st.(sshRetries := retries + 1) else st.(attachmentRetries := retries + 1))
    && (ret.Error? || ret == RequeueAfter((Backoff.Schedule(retries + 1) - Backoff.Schedule(retries)) * SECOND))
  }

  /** The check time first; if that is answered, what the check calls for. */
  predicate Records(sent: seq<Request>, n: nat, st: Status, check: AttachCheck, ret: Ret) {
    && n < |sent| && sent[n].SetStatus? && sent[n].status.lastAttachment.Some?
    && sent[n].status == st.(lastAttachment := sent[n].status.lastAttachment)
    && (|sent| == n + 1 ==> ret.Error?)
    && (|sent| > n + 1 ==> ActsOn(sent, n + 1, sent[n].status, check, ret))
  }

  predicate ActsOn(sent: seq<Request>, n: nat, st: Status, check: AttachCheck, ret: Ret) {
    match check
    case NotYet => Retries(sent, n, st, false, ret)
    case NotHotplugged => AsksPhase(sent, n, Failed)
    case Attached => GoesOn(sent, n, st, false)
  }

  /** The attachment check in terms of the VMI it was told of. */
  ghost predicate Checks(sent: seq<Request>, n: nat, c: Name, st: Status, seen: Outcome, ret: Ret) {
    && n < |sent| && sent[n] == ReadVmi
    && (!seen.SawVmi? ==> AsksPhase(sent, n + 1, Failed))
    && (seen.SawVmi? ==>
          Records(sent, n + 1, st,
                  if Decisions.AttachedIn(seen.vmi, VolumeName(c)) then Attached
                  else if Decisions.NotHotpluggedIn(seen.vmi, VolumeName(c)) then NotHotplugged else NotYet, ret))
  }

  /** The dial and what its outcome calls for. */
  predicate Dials(sent: seq<Request>, n: nat, st: Status, seen: Outcome, ret: Ret) {
    && n < |sent| && sent[n] == DialGuest
    && (if seen.Ok? then GoesOn(sent, n + 1, st, true)
        else if seen.Refused? then Retries(sent, n + 1, st, true, ret)
        else AsksPhase(sent, n + 1, Failed))
  }

  /** The guest command with its arguments, and what its outcome calls for. */
  ghost predicate RunsGuest(sent: seq<Request>, n: nat, c: Name, st: Status, sourcePath: string, seen: Outcome) {
    && n < |sent| && sent[n] == GuestRestore(c + "-restore", st.mountPath, sourcePath)
    && (if seen.Ran? then Reports(sent, n + 1, st, sourcePath, seen.stdout) else AsksPhase(sent, n + 1, Failed))
  }

  /** One patch: VolumeReady for a manual restore, Cleanup together with the printed count for an automatic one. */
  ghost predicate Reports(sent: seq<Request>, n: nat, st: Status, sourcePath: string, stdout: string) {
    && |sent| == n + 1 && sent[n].SetStatus?
    && (sourcePath == "" ==> sent[n].status == st.(phase := VolumeReady))
    && (sourcePath != "" ==> sent[n].status == st.(phase := Cleanup, count := sent[n].status.count)
                             && sent[n].status.count.Some? && Decisions.CountOf(stdout, sent[n].status.count.value))
  }

  /** One source, then the VMI; behind it the mount path for this guest and source, or failure. */
  ghost predicate Inits(sent: seq<Request>, n: nat, st: Status, s: Source, seen: Outcome) {
    if SourceCount(s) != 1 then AsksPhase(sent, n, Failed)
    else
      && n < |sent| && sent[n] == ReadVmi
      && (if seen.SawVmi? && !s.remote then
            && n + 1 < |sent| && sent[n + 1].SetStatus? && sent[n + 1].status == st.(mountPath := sent[n + 1].status.mountPath)
            && Decisions.PathFor(sent[n + 1].status.mountPath, seen.vmi, s)
            && (n + 2 < |sent| ==> AsksPhase(sent, n + 2, Hotplugging))
          else AsksPhase(sent, n + 1, Failed))
  }

  /** The scan and what it calls for. */
  ghost predicate Scans(sent: seq<Request>, n: nat, c: Name, s: Source, namespace: string, seen: Outcome) {
    && n < |sent| && sent[n] == ReadVm
    && (if !seen.SawVm? || Decisions.OtherRestoreIn(seen.vm, VolumeName(c)) then AsksPhase(sent, n + 1, Failed)
        else if Holds(seen.vm, VolumeName(c)) then AsksPhase(sent, n + 1, WaitingForAttachment)
        else if Mentions(seen.vm, VolumeName(c)) then AsksPhase(sent, n + 1, Failed)
        else Plugs(sent, n + 1, c, seen.vm, s, namespace))
  }

  /** A PVC of the own namespace is plugged, a snapshot is provisioned first, anything else fails. */
  predicate Plugs(sent: seq<Request>, n: nat, c: Name, vm: Vm, s: Source, namespace: string) {
    if s.pvc.Some? && (s.pvc.value.namespace == "" || s.pvc.value.namespace == namespace) then
      n < |sent| && sent[n] == EditVm(vm, WithPair(vm, c, s.pvc.value.name))
    else if s.pvc.None? && s.snapshot.Some? then n < |sent| && sent[n] == ReadDv(VolumeName(c))
    else AsksPhase(sent, n, Failed)
  }

  /** The VM with one more volume that points at the claim, and one more disk with the volume's name as its serial. */
  function WithPair(vm: Vm, c: Name, claim: string): Vm {
    Vm(vm.volumes + [Entry(c + "-restore", claim)], vm.disks + [Entry(c + "-restore", c + "-restore")])
  }

  /** The attempt is put on record first; then the dial. */
  predicate Connects(sent: seq<Request>, n: nat, st: Status, seen: Outcome, ret: Ret) {
    && n < |sent| && sent[n].SetStatus? && sent[n].status.lastSsh.Some? && sent[n].status == st.(lastSsh := sent[n].status.lastSsh)
    && (|sent| == n + 1 ==> ret.Error?) && (|sent| > n + 1 ==> Dials(sent, n + 1, sent[n].status, seen, ret))
  }

  /** 60 retries are too many; a check within five seconds of the last one waits for the rest of them; otherwise the check. */
  ghost predicate ChecksInTime(sent: seq<Request>, before: seq<Request>, c: Name, st: Status, now: nat, seen: Outcome, ret: Ret) {
    if st.attachmentRetries >= 60 then AsksPhase(sent, |before|, Failed)
    else if st.lastAttachment.Some? && now < (st.lastAttachment.value + 5) * SECOND then
      sent == before && ret == Waiting(RateLimit, Some((st.lastAttachment.value + 5) * SECOND - now))
    else Checks(sent, |before|, c, st, seen, ret)
  }

  /** The same for 24 dials. */
  predicate ConnectsInTime(sent: seq<Request>, before: seq<Request>, st: Status, now: nat, seen: Outcome, ret: Ret) {
    if st.sshRetries >= 24 then AsksPhase(sent, |before|, Failed)
    else if st.lastSsh.Some? && now < (st.lastSsh.value + 5) * SECOND then
      sent == before && ret == Waiting(RateLimit, Some((st.lastSsh.value + 5) * SECOND - now))
    else Connects(sent, |before|, st, seen, ret)
  }

  /** What a live, unfinished restore asks for in each phase; `seen` is what its decisive call was told. */
  ghost predicate Handles(sent: seq<Request>, before: seq<Request>, c: Name, vmfr: Cr, now: nat, namespace: string, seen: Outcome, ret: Ret) {
    match vmfr.status.phase
    case Unset => Inits(sent, |before|, vmfr.status, vmfr.spec.source, seen)
    case New => Inits(sent, |before|, vmfr.status, vmfr.spec.source, seen)
    case Init => Inits(sent, |before|, vmfr.status, vmfr.spec.source, seen)
    case Hotplugging => Scans(sent, |before|, c, vmfr.spec.source, namespace, seen)
    case WaitingForAttachment => ChecksInTime(sent, before, c, vmfr.status, now, seen, ret)
    case SshConnecting => ConnectsInTime(sent, before, vmfr.status, now, seen, ret)
    case Restoring => RunsGuest(sent, |before|, c, vmfr.status, vmfr.spec.sourcePath, seen)
    case VolumeReady => sent == before && ret == Waiting(ManualHold, None)
    case Cleanup => Finishes(sent, before, c, vmfr, seen, ret)
    case _ => AsksPhase(sent, |before|, Failed)
  }

  /** The whole cleanup, then up to three updates that drop the finalizer; an error is three in vain. */
  ghost predicate Deletes(sent: seq<Request>, before: seq<Request>, c: Name, vmfr: Cr, ret: Ret) {
    exists mid: seq<Request> ::
      && Cleans(mid, before, c, vmfr.status.mountPath, vmfr.spec) && mid < sent && |sent| <= |mid| + 3
      && (forall i :: |mid| <= i < |sent| ==> sent[i] == SetFinalizer(false)) && (ret.Error? ==> |sent| == |mid| + 3)
  }

  /** What a reconcile asks for, given the object it read. */
  ghost predicate Reconciles(sent: seq<Request>, before: seq<Request>, c: Name, read: Option<Cr>, now: nat, namespace: string, seen: Outcome, ret: Ret) {
    if read.None? then sent == before
    else
      var vmfr := read.value;
      if vmfr.deleting then
        if !vmfr.finalizer then sent == before && ret.Finished?
        else Deletes(sent, before, c, vmfr, ret)
      else if !vmfr.finalizer then sent == before + [SetFinalizer(true)]
      else if vmfr.status.phase.Succeeded? || vmfr.status.phase.Failed? then sent == before && ret.Finished?
      else Handles(sent, before, c, vmfr, now, namespace, seen, ret)
  }

  /** The unplug, and if it is answered the VMI read. */
  ghost predicate UnplugsAndVerifies(sent: seq<Request>, before: seq<Request>, c: Name, vm: Vm, spec: Spec, ret: Ret) {
    exists mid: seq<Request>, ok: bool ::
      && mid <= sent && Unplugs(mid, before, c, vm, spec, ok)
      && (if ok then exists last: Outcome :: Verifies(sent, |mid|, c, last, ret) else AsksPhase(sent, |mid|, Failed))
  }

  /** The read of the VM, the unplug, and the VMI read; a missing VM is a success if there is a count. */
  ghost predicate Finishes(sent: seq<Request>, before: seq<Request>, c: Name, vmfr: Cr, seen: Outcome, ret: Ret) {
    && before + [ReadVm] <= sent
    && (if seen.SawVm? then UnplugsAndVerifies(sent, before + [ReadVm], c, seen.vm, vmfr.spec, ret)
        else AsksPhase(sent, |before| + 1, if seen.NotFound? && vmfr.status.count.Some? then Succeeded else Failed))
  }

  /** The VMI read behind the unplug, and what it calls for. */
  predicate Verifies(sent: seq<Request>, n: nat, c: Name, seen: Outcome, ret: Ret) {
    && n < |sent| && sent[n] == ReadVmi
    && (if seen.SawVmi? && Lists(seen.vmi, VolumeName(c)) then |sent| == n + 1 && ret == Waiting(Detaching, Some(5_000_000_000))
        else AsksPhase(sent, n + 1, if seen.SawVmi? || seen.NotFound? then Succeeded else Failed))
  }

  class Cluster {
    var w: World
    ghost const start: World
    ghost var log: seq<Event>
    /** How the last own call left the reconcile. */
    ghost var last: Ret
    /** What this code has asked of the API server and the guest, in order. */
    ghost var sent: seq<Request>

    ghost predicate Valid()
      reads this
    {
      Initial(start) && w == Exec(start, log)
    }

    constructor (w: World)
      requires Initial(w)
      ensures Valid() && this.w == w && log == []
    {
      this.w := w;
      this.start := w;
      this.log := [];
      this.last := Running;
      this.sent := [];
    }

    predicate InFlight(c: Name)
      reads this
    {
      c in w.crs && c in w.threads && w.crs[c].finalizer
    }

    /** Other restores, users and the platform take any number of steps. */
    method Yield(c: Name)
      requires Valid()
      modifies this
      ensures Valid() && old(log) <= log && last == old(last) && sent == old(sent)
      ensures SameOwn(old(w), w, c)
    {
      hide SameOwn, Step, Exec, Initial;
      var steps: seq<Event> := *;
      SameOwnReflexive(w, c);
      for i := 0 to |steps|
        invariant Valid() && old(log) <= log && last == old(last) && sent == old(sent)
        invariant SameOwn(old(w), w, c)
      {
        var e := steps[i];
        if !((e.Act? || e.Start?) && e.c == c) {
          OthersKeepOwn(w, e, c);
          SameOwnTransitive(old(w), w, Step(w, e), c);
          ExecSnoc(start, log, e);
          w := Step(w, e);
          log := log + [e];
        }
      }
    }

    /** The own part of the state after a call of c with outcome x. */
    twostate predicate Called(c: Name, q: Request, x: Outcome)
      reads this
    {
      && old(InFlight(c)) && Valid() && sent == old(sent) + [q] && old(log) < log && w.namespace == old(w.namespace)
      && var e := EffectOf(old(w), c, x);
      && last == e.ret
      && (e.thread.None? ==> c !in w.threads)
      && (e.thread.Some? ==> c in w.threads && w.threads[c] == e.thread.value)
      && (e.thread.Some? && e.cr.finalizer && !e.gone ==> InFlight(c) && SameCr(w.crs[c], e.cr))
    }

    /** The call c's reconcile is to make next is q. */
    predicate Asks(c: Name, q: Request)
      reads this
    {
      InFlight(c) && q == RequestAt(c, w.crs[c], w.threads[c], w.clock)
    }

    /** One API or SSH call of c's reconcile, for q, has outcome x. */
    method Call(c: Name, q: Request, x: Outcome)
      requires Valid() && Asks(c, q) && !x.Crash? && Possible(w, c, x)
      modifies this
      ensures Called(c, q, x)
    {
      hide Move, MergePatch, Initial, Exec, RequestAt;
      sent := sent + [q];
      ghost var e := EffectOf(w, c, x);
      RunningIffInFlight(start, log, c, x);
      ExecSnoc(start, log, Act(c, x));
      w := Step(w, Act(c, x));
      log := log + [Act(c, x)];
      last := e.ret;
      assert e.thread.Some? && !e.gone ==> w.crs[c] == e.cr;
      Yield(c);
    }

    /** A call of any kind but a VM read: any outcome is possible. */
    method Attempt(c: Name, q: Request) returns (x: Outcome)
      requires Valid() && Asks(c, q)
      modifies this
      ensures Called(c, q, x) && !x.Crash? && !x.SawVm?
    {
      hide Move, RequestAt;
      x := *;
      if x.Crash? || x.SawVm? { x := Err; }
      Call(c, q, x);
    }

    /** client.Get of the target VM; a cached read may be any version the VM had. */
    method GetVm(c: Name) returns (x: Outcome)
      requires Valid() && Asks(c, ReadVm)
      modifies this
      ensures Called(c, ReadVm, x) && (x.SawVm? || x.Err? || x.NotFound?)
    {
      hide Move, RequestAt;
      x := *;
      if !(x.NotFound? || (x.SawVm? && Possible(w, c, x))) { x := Err; }
      Call(c, ReadVm, x);
    }

    /** Status().Patch: `next` is what the handler wants persisted. */
    method PatchStatus(c: Name, next: Status) returns (x: Outcome)
      requires Valid() && Asks(c, SetStatus(next))
      modifies this
      ensures Called(c, SetStatus(next), x) && (x.Ok? || x.Lost? || x.Err?)
    {
      hide Move, RequestAt;
      x := *;
      if !Applied(x) { x := Err; }
      Call(c, SetStatus(next), x);
    }

    /** client.Patch of the target VM with the difference between `base` and `edited`. */
    method PatchVm(c: Name, base: Vm, edited: Vm) returns (x: Outcome)
      requires Valid() && Asks(c, EditVm(base, edited))
      modifies this
      ensures Called(c, EditVm(base, edited), x) && (x.Ok? || x.Lost? || x.Err?)
      ensures x.Ok? ==> old(ViewOf(w, c).vmThere)
    {
      hide Move, RequestAt;
      x := *;
      if !Applied(x) || !ViewOf(w, c).vmThere { x := Err; }
      Call(c, EditVm(base, edited), x);
    }

    // -------------------------------------------------------------------------
    // Shared steps
    // -------------------------------------------------------------------------

    predicate At(c: Name, pc: Pc)
      reads this
    {
      InFlight(c) && w.threads[c].pc == pc
    }

    /** The reconcile is over and `ret` is what it returned. */
    ghost predicate Ended(c: Name, ret: Ret)
      reads this
    {
      Valid() && c !in w.threads && ret == last && !ret.Running?
    }

    /** transitionPhase: asks for the new phase, with a start time on leaving New and a completion time at the end. */
    method TransitionPhase(c: Name, to: Phase) returns (ret: Ret)
      requires Valid() && At(c, Advance(to))
      modifies this
      ensures Ended(c, ret) && (ret.Requeue? || ret.Error?) && old(log) < log && AsksPhase(sent, |old(sent)|, to) && |sent| == |old(sent)| + 1
      ensures var st, now := old(w.crs[c].status), old(Seconds(w.clock));
              sent == old(sent) + [SetStatus(st.(
                phase := to,
                startTime := if Fresh0(st.phase) then Some(now) else st.startTime,
                completionTime := if Terminal(to) then Some(now) else st.completionTime))]
    {
      hide Initial, Exec, MoveInit, MoveHot, MoveWait, MoveSsh, MoveRestore, MoveDone, MoveClean, MoveFinalize;
      var st := w.crs[c].status;
      var next := st.(phase := to);
      if st.phase.Unset? || st.phase.New? {
        next := next.(startTime := Some(Seconds(w.clock)));
      }
      if to.Succeeded? || to.Failed? {
        next := next.(completionTime := Some(Seconds(w.clock)));
      }
      var x := PatchStatus(c, next);
      return if x.Ok? then Requeue else Error;
    }

    /** Where the reconcile is when the unplug is over: in phase Cleanup, in a deletion, or behind a failure. */
    ghost predicate UnplugDone(c: Name, done: bool, deletion: bool, ok: bool)
      reads this
    {
      && Valid()
      && (done ==> At(c, if ok then DoneVmi else FailPatch) && w.threads[c].deletion == deletion)
      && (!done && deletion ==> At(c, Finalize(0)) && w.threads[c].deletion)
      && (!done && !deletion ==> Ended(c, Finished))
    }

    /**
     UnplugVolume, from handleCleanupPhase or from cleanup: asks for the VM without the own entries,
     and, if that is answered and the source is a snapshot, for the DataVolume's deletion.
     */
    method UnplugVolume(c: Name, vm: Vm) returns (ok: bool)
      requires Valid() && InFlight(c) && (w.threads[c].pc == DonePatch(vm) || w.threads[c].pc == CleanPatch(vm))
      modifies this
      ensures Valid() && old(log) < log && old(sent) < sent
      ensures Unplugs(sent, old(sent), c, vm, old(w.crs[c].spec), ok)
      ensures UnplugDone(c, old(w.threads[c].pc.DonePatch?), old(w.threads[c].deletion), ok)
    {
      hide UnplugDone, Move, RequestAt, Without, VolumeName, Initial, Exec;
      ghost var done, deletion := w.threads[c].pc.DonePatch?, w.threads[c].deletion;
      var snapshot := w.crs[c].spec.source.snapshot.Some?;
      ok := DropPair(c, vm);
      if ok && snapshot {
        ok := DeleteDataVolume(c, done, deletion);
      }
    }

    /** The filter loops and the patch. */
    method DropPair(c: Name, vm: Vm) returns (ok: bool)
      requires Valid() && InFlight(c) && (w.threads[c].pc == DonePatch(vm) || w.threads[c].pc == CleanPatch(vm))
      modifies this
      ensures Valid() && old(log) < log
      ensures sent == old(sent) + [EditVm(vm, Vm(Without(vm.volumes, VolumeName(c)), Without(vm.disks, VolumeName(c))))]
      ensures var done, deletion := old(w.threads[c].pc.DonePatch?), old(w.threads[c].deletion);
              if ok && old(w.crs[c].spec.source.snapshot.Some?) then At(c, if done then DoneDv else CleanDv) && w.threads[c].deletion == deletion
              else UnplugDone(c, done, deletion, ok)
    {
      hide Move, RequestAt, Without, VolumeName, Initial, Exec;
      var edited := FilterOut(vm, VolumeName(c));
      UnplugCalls(c, w.crs[c], w.threads[c], ViewOf(w, c));
      EditRequests(c, w.crs[c], w.threads[c], w.clock);
      var x := PatchVm(c, vm, edited);
      return x.Ok?;
    }

    /** The end of UnplugVolume for a snapshot source. */
    method DeleteDataVolume(c: Name, ghost done: bool, ghost deletion: bool) returns (ok: bool)
      requires Valid() && At(c, if done then DoneDv else CleanDv) && w.threads[c].deletion == deletion
      modifies this
      ensures Valid() && old(log) < log && sent == old(sent) + [DeleteDv(VolumeName(c))]
      ensures UnplugDone(c, done, deletion, ok)
    {
      hide Move, VolumeName, Initial, Exec;
      DvDeleteCalls(c, w.crs[c], w.threads[c], ViewOf(w, c));
      var x := Attempt(c, DeleteDv(VolumeName(c)));
      return x.Ok?;
    }

    /** The guest part of cleanup, skipped without a mount path; failures are ignored. */
    method CleanUpGuest(c: Name)
      requires Valid() && At(c, CleanGuest)
      modifies this
      ensures Valid() && old(log) < log && At(c, CleanGet) && w.threads[c].deletion == old(w.threads[c].deletion)
      ensures sent == old(sent) + [GuestCleanup(old(w.crs[c].status.mountPath))] && SameCr(w.crs[c], old(w.crs[c]))
    {
      hide Initial, Exec, VolumeName, Unplug, MoveInit, MoveHot, MoveWait, MoveSsh, MoveRestore, MoveDone, MoveFinalize;
      var mountPath := w.crs[c].status.mountPath;
      var os: Os := *;
      if mountPath != "" {
        var command := Commands.BuildCleanupCommand(os, mountPath);
      }
      var guest := Attempt(c, GuestCleanup(mountPath));
    }

    /** cleanup: guest first, then the VM, then the DataVolume, ignoring every failure. */
    method RunCleanup(c: Name)
      requires Valid() && At(c, CleanGuest)
      modifies this
      ensures Valid() && old(log) < log
      ensures Cleans(sent, old(sent), c, old(w.crs[c].status.mountPath), old(w.crs[c].spec))
      ensures old(w.threads[c].deletion) ==> At(c, Finalize(0)) && w.threads[c].deletion
      ensures !old(w.threads[c].deletion) ==> Ended(c, Finished)
    {
      hide Initial, Exec, VolumeName, Unplugs, Move;
      ghost var mountPath, spec := w.crs[c].status.mountPath, w.crs[c].spec;
      CleanUpGuest(c);
      var x := ReadForCleanup(c);
      assert sent == old(sent) + [GuestCleanup(mountPath), ReadVm];
      if x.SawVm? {
        var ok := UnplugVolume(c, x.vm);
        assert Unplugs(sent, old(sent) + [GuestCleanup(mountPath), ReadVm], c, x.vm, spec, ok);
      }
    }

    /** The read of the VM in a cleanup. */
    method ReadForCleanup(c: Name) returns (x: Outcome)
      requires Valid() && At(c, CleanGet)
      modifies this
      ensures Valid() && old(log) < log && sent == old(sent) + [ReadVm]
      ensures if x.SawVm? then At(c, CleanPatch(x.vm)) && w.threads[c].deletion == old(w.threads[c].deletion) && w.crs[c].spec == old(w.crs[c].spec)
              else if old(w.threads[c].deletion) then At(c, Finalize(0)) && w.threads[c].deletion
              else Ended(c, Finished)
    {
      hide Initial, Exec, VolumeName, Unplug, MoveInit, MoveHot, MoveWait, MoveSsh, MoveRestore, MoveDone, MoveFinalize;
      x := GetVm(c);
    }

    /** failRestore */
    method FailRestore(c: Name) returns (ret: Ret)
      requires Valid() && At(c, FailPatch) && !w.threads[c].deletion
      modifies this
      ensures Ended(c, ret) && (ret.Finished? || ret.Error?) && old(log) < log
      ensures var failed := old(w.crs[c].status).(phase := Failed, completionTime := Some(old(Seconds(w.clock))));
              && (ret.Error? ==> sent == old(sent) + [SetStatus(failed)])
              && (ret.Finished? ==> Cleans(sent, old(sent) + [SetStatus(failed)], c, failed.mountPath, old(w.crs[c].spec)))
      ensures old(sent) < sent && NoCreate(sent, |old(sent)|) && AsksPhase(sent, |old(sent)|, Failed)
    {
      hide Initial, Exec, Cleans, Move, RequestAt;
      FailPatchCalls(c, w.crs[c], w.threads[c], ViewOf(w, c));
      var next := w.crs[c].status.(phase := Failed);
      next := next.(completionTime := Some(Seconds(w.clock)));
      var x := PatchStatus(c, next);
      if !x.Ok? {
        return Error;
      }
      ghost var before, spec := sent, w.crs[c].spec;
      RunCleanup(c);
      CleansCreatesNothing(sent, before, c, next.mountPath, spec);
      return Finished;
    }

    // -------------------------------------------------------------------------
    // Phase handlers; `vmfr` and `now` are what the reconcile read when it started
    // -------------------------------------------------------------------------

    /** A live reconcile that started from vmfr at time now. */
    ghost predicate Entered(c: Name, vmfr: Cr, now: nat)
      reads this
    {
      && Valid() && !vmfr.deleting && vmfr.finalizer && !Terminal(vmfr.status.phase)
      && var e := Dispatch(vmfr, View("", now, false, None));
      && last == e.ret
      && (e.thread.None? ==> c !in w.threads)
      && (e.thread.Some? ==> InFlight(c) && w.threads[c] == e.thread.value && SameCr(w.crs[c], vmfr))
    }

    /** handleInitPhase */
    method HandleInit(c: Name, vmfr: Cr, now: nat) returns (ret: Ret, ghost seen: Outcome)
      requires Entered(c, vmfr, now) && (Fresh0(vmfr.status.phase) || vmfr.status.phase.Init?)
      modifies this
      ensures Ended(c, ret) && old(log) < log
      ensures Inits(sent, |old(sent)|, vmfr.status, vmfr.spec.source, seen) && old(sent) < sent
    {
      hide NoCreate, Cleans, Unplugs, Initial, Exec, MountPath, DetectGuestOs, SourceName, Decisions.PathFor, Move, RequestAt;
      seen := Err;
      var source := vmfr.spec.source;
      var sourceCount := 0;
      if source.pvc.Some? { sourceCount := sourceCount + 1; }
      if source.snapshot.Some? { sourceCount := sourceCount + 1; }
      if source.remote { sourceCount := sourceCount + 1; }
      if sourceCount != 1 {
        ret := FailRestore(c);
        return;
      }
      ret, seen := PrepareGuest(c, source);
    }

    /** Behind the count of sources. */
    method PrepareGuest(c: Name, source: Source) returns (ret: Ret, ghost seen: Outcome)
      requires Valid() && At(c, InitRead) && !w.threads[c].deletion && source == w.crs[c].spec.source && SourceCount(source) == 1
      modifies this
      ensures Ended(c, ret) && old(log) < log && old(sent) < sent
      ensures Inits(sent, |old(sent)|, old(w.crs[c].status), source, seen)
    {
      hide AsksPhase, Fresh0, Terminal, NoCreate, Cleans, Unplugs, Initial, Exec, MountPath, DetectGuestOs, SourceName, Decisions.PathFor, Move, RequestAt;
      var x := DescribeGuest(c);
      seen := x;
      if !x.SawVmi? || (source.pvc.None? && source.snapshot.None?) {
        ret := FailRestore(c);
        return;
      }
      Decisions.PathIsFor(c, x.vmi, source);
      ret := SetMountPath(c, MountPath(DetectGuestOs(x.vmi), SourceName(c, source)));
    }

    /** The reads of VM and VMI: one call. */
    method DescribeGuest(c: Name) returns (x: Outcome)
      requires Valid() && At(c, InitRead) && !w.threads[c].deletion
      modifies this
      ensures Valid() && old(log) < log && sent == old(sent) + [ReadVmi]
      ensures var s := old(w.crs[c].spec.source); var ok := x.SawVmi? && (s.pvc.Some? || s.snapshot.Some?);
              At(c, if ok then InitMount(MountPath(DetectGuestOs(x.vmi), SourceName(c, s))) else FailPatch)
      ensures !w.threads[c].deletion && w.crs[c].status == old(w.crs[c].status)
    {
      hide Initial, Exec, MountPath, DetectGuestOs, SourceName, Move, RequestAt;
      ReadRequests(c, w.crs[c], w.threads[c], w.clock);
      FirstReadCalls(c, w.crs[c], w.threads[c], ViewOf(w, c));
      x := Attempt(c, ReadVmi);
    }

    /** The end of handleInitPhase: persist the mount path, then leave the phase. */
    method SetMountPath(c: Name, mountPath: string) returns (ret: Ret)
      requires Valid() && At(c, InitMount(mountPath))
      modifies this
      ensures Ended(c, ret) && old(log) < log
      ensures old(sent) + [SetStatus(old(w.crs[c].status).(mountPath := mountPath))] <= sent
      ensures |sent| > |old(sent)| + 1 ==> AsksPhase(sent, |old(sent)| + 1, Hotplugging)
    {
      hide AsksPhase, Fresh0, Terminal, NoCreate, Initial, Exec, Move, RequestAt;
      var ok := RecordMountPath(c, mountPath);
      if !ok {
        return Error;
      }
      ret := TransitionPhase(c, Hotplugging);
    }

    method RecordMountPath(c: Name, mountPath: string) returns (ok: bool)
      requires Valid() && At(c, InitMount(mountPath))
      modifies this
      ensures Valid() && old(log) < log && sent == old(sent) + [SetStatus(old(w.crs[c].status).(mountPath := mountPath))]
      ensures if ok then At(c, Advance(Hotplugging)) else Ended(c, Error)
    {
      hide Initial, Exec, MountPath, DetectGuestOs, MoveHot, MoveWait, MoveSsh, MoveRestore, MoveDone, MoveClean, MoveFinalize;
      var y := PatchStatus(c, w.crs[c].status.(mountPath := mountPath));
      return y.Ok?;
    }

    /** handleHotpluggingPhase: scan the VM, provision if need be, add the volume. */
    method HandleHotplugging(c: Name, vmfr: Cr, now: nat) returns (ret: Ret, ghost seen: Outcome)
      requires Entered(c, vmfr, now) && vmfr.status.phase.Hotplugging?
      modifies this
      ensures Ended(c, ret) && old(log) < log
      ensures Scans(sent, |old(sent)|, c, vmfr.spec.source, old(w.namespace), seen) && old(sent) < sent
    {
      hide AsksPhase, Fresh0, Terminal, Cleans, Unplugs, Plugs, Initial, Exec, PlugVerdict, VolumeName, NoCreate, Decisions.OtherRestoreIn, Mentions, Holds, Move, RequestAt;
      var source := vmfr.spec.source;
      var x := ScanVm(c);
      seen := x;
      if !x.SawVm? {
        ret := FailRestore(c);
        return;
      }
      var verdict := CheckHotplug(x.vm, VolumeName(c));
      VerdictMeans(x.vm, VolumeName(c));
      if verdict.Busy? || verdict.Partial? {
        ret := FailRestore(c);
      } else if verdict.Present? {
        ret := TransitionPhase(c, WaitingForAttachment);
      } else {
        ret := Hotplug(c, x.vm, source);
      }
    }

    /** The read of the VM in phase Hotplugging. */
    method ScanVm(c: Name) returns (x: Outcome)
      requires Valid() && At(c, HotGet) && !w.threads[c].deletion
      modifies this
      ensures Valid() && old(log) < log && sent == old(sent) + [ReadVm] && w.namespace == old(w.namespace)
      ensures InFlight(c) && !w.threads[c].deletion && w.crs[c].spec == old(w.crs[c].spec)
      ensures w.threads[c].pc == if x.SawVm? then ScanLeads(c, old(w.crs[c].spec.source), old(w.namespace), x.vm) else FailPatch
    {
      hide Initial, Exec, ScanLeads, Move, RequestAt;
      ReadRequests(c, w.crs[c], w.threads[c], w.clock);
      ghost var cr, th, v := w.crs[c], w.threads[c], ViewOf(w, c);
      x := GetVm(c);
      ScanCalls(c, cr, th, v, x);
    }

    /** HotplugVolume behind its scan, for a VM that has neither volume nor disk. */
    method Hotplug(c: Name, vm: Vm, source: Source) returns (ret: Ret)
      requires Valid() && InFlight(c) && !w.threads[c].deletion && source == w.crs[c].spec.source
      requires w.threads[c].pc == if source.pvc.Some? then (if CrossNamespace(w.namespace, source.pvc.value) then FailPatch else HotPatch(vm))
                                  else if source.snapshot.Some? then HotDv(vm) else FailPatch
      modifies this
      ensures Ended(c, ret) && old(log) < log && old(sent) < sent
      ensures Plugs(sent, |old(sent)|, c, vm, source, old(w.namespace))
    {
      hide Cleans, Unplugs, Initial, Exec, VolumeName, Plug, Provisions, NoCreate, WithPair, Move;
      if source.pvc.Some? {
        if CrossNamespace(w.namespace, source.pvc.value) {
          ret := FailRestore(c);
        } else {
          ret := AddVolume(c, vm);
        }
      } else if source.snapshot.Some? {
        ret := ProvisionAndAdd(c, vm);
      } else {
        ret := FailRestore(c);
      }
    }

    /** The snapshot branch of HotplugVolume. */
    method ProvisionAndAdd(c: Name, vm: Vm) returns (ret: Ret)
      requires Valid() && At(c, HotDv(vm)) && !w.threads[c].deletion
      modifies this
      ensures Ended(c, ret) && old(log) < log
      ensures Provisions(sent, old(sent), VolumeName(c), old(ViewOf(w, c).dv.None?)) && old(sent) + [ReadDv(VolumeName(c))] <= sent
    {
      hide Provisions, NoCreate, Cleans, Unplugs, Initial, Exec, VolumeName, Move, RequestAt;
      var dv := ViewOf(w, c).dv;
      var ok := Lookup(c, vm);
      if ok && dv.None? {
        ret := CreateAndAdd(c, vm);
        LookedAndCreated(sent, old(sent), VolumeName(c));
        return;
      }
      if !ok {
        ret := FailRestore(c);
      } else {
        ret := WaitOrAdd(c, vm, dv.value);
      }
      OnlyLooked(sent, old(sent), VolumeName(c), dv.None?);
    }

    /** The first read of the DataVolume. */
    method Lookup(c: Name, vm: Vm) returns (ok: bool)
      requires Valid() && At(c, HotDv(vm)) && !w.threads[c].deletion
      modifies this
      ensures Valid() && old(log) < log && sent == old(sent) + [ReadDv(VolumeName(c))]
      ensures var dv := old(ViewOf(w, c).dv);
              && (!ok ==> At(c, FailPatch) && !w.threads[c].deletion)
              && (ok && dv.None? ==> At(c, HotCreate(vm)) && !w.threads[c].deletion)
              && (ok && dv.Some? && dv.value.DvSucceeded? ==> At(c, HotPatch(vm)) && !w.threads[c].deletion)
              && (ok && dv.Some? && !dv.value.DvSucceeded? ==> Ended(c, Waiting(Provisioning, Some(5 * SECOND))))
    {
      hide Initial, Exec, VolumeName, Move, RequestAt;
      ReadRequests(c, w.crs[c], w.threads[c], w.clock);
      FirstReadCalls(c, w.crs[c], w.threads[c], ViewOf(w, c));
      var x := Attempt(c, ReadDv(VolumeName(c)));
      return x.Ok?;
    }

    /** A DataVolume that is not provisioned yet ends the reconcile. */
    method WaitOrAdd(c: Name, vm: Vm, dv: DvPhase) returns (ret: Ret)
      requires Valid()
      requires dv.DvSucceeded? ==> At(c, HotPatch(vm)) && !w.threads[c].deletion
      requires !dv.DvSucceeded? ==> Ended(c, Waiting(Provisioning, Some(5 * SECOND)))
      modifies this
      ensures Ended(c, ret) && old(log) <= log && old(sent) <= sent && NoCreate(sent, |old(sent)|)
      ensures !dv.DvSucceeded? ==> sent == old(sent) && ret == Waiting(Provisioning, Some(5_000_000_000))
      ensures dv.DvSucceeded? ==> old(sent) < sent && sent[|old(sent)|].EditVm?
    {
      hide Initial, Exec, VolumeName, Plug;
      if !dv.DvSucceeded? {
        return Waiting(Provisioning, Some(5 * SECOND));
      }
      ret := AddVolume(c, vm);
    }

    /** Create the DataVolume, then look at it again. */
    method CreateAndAdd(c: Name, vm: Vm) returns (ret: Ret)
      requires Valid() && At(c, HotCreate(vm)) && !w.threads[c].deletion
      modifies this
      ensures Ended(c, ret) && old(log) < log
      ensures old(sent) + [CreateDv(VolumeName(c))] <= sent && NoCreate(sent, |old(sent)| + 1)
    {
      hide Cleans, Unplugs, Initial, Exec, PlugVerdict, VolumeName, Plug, MergePatch, MoveInit, MoveWait, MoveSsh, MoveRestore, MoveDone, MoveClean, MoveFinalize;
      var created := Attempt(c, CreateDv(VolumeName(c)));
      if !created.Ok? {
        ret := FailRestore(c);
        return;
      }
      ret := LookAgain(c, vm);
    }

    method LookAgain(c: Name, vm: Vm) returns (ret: Ret)
      requires Valid() && At(c, HotReget(vm)) && !w.threads[c].deletion
      modifies this
      ensures Ended(c, ret) && old(log) < log
      ensures old(sent) <= sent && NoCreate(sent, |old(sent)|)
    {
      hide NoCreate, Cleans, Unplugs, Initial, Exec, VolumeName, Move, RequestAt;
      var dv := Refetch(c, vm);
      ghost var looked := sent;
      if dv.None? {
        ret := FailRestore(c);
      } else {
        ret := WaitOrAdd(c, vm, dv.value);
      }
      NothingCreated(sent, old(sent), looked[|looked| - 1]);
    }

    /** The read behind the creation; None if it failed. */
    method Refetch(c: Name, vm: Vm) returns (dv: Option<DvPhase>)
      requires Valid() && At(c, HotReget(vm)) && !w.threads[c].deletion
      modifies this
      ensures Valid() && old(log) < log && sent == old(sent) + [ReadDv(VolumeName(c))]
      ensures dv.None? ==> At(c, FailPatch) && !w.threads[c].deletion
      ensures dv.Some? && dv.value.DvSucceeded? ==> At(c, HotPatch(vm)) && !w.threads[c].deletion
      ensures dv.Some? && !dv.value.DvSucceeded? ==> Ended(c, Waiting(Provisioning, Some(5 * SECOND)))
    {
      hide Initial, Exec, VolumeName, Move, RequestAt;
      ReadRequests(c, w.crs[c], w.threads[c], w.clock);
      FirstReadCalls(c, w.crs[c], w.threads[c], ViewOf(w, c));
      dv := ViewOf(w, c).dv;
      var again := Attempt(c, ReadDv(VolumeName(c)));
      if !again.Ok? {
        dv := None;
      }
    }

    /** The end of HotplugVolume: append volume and disk, patch, go on. */
    method AddVolume(c: Name, vm: Vm) returns (ret: Ret)
      requires Valid() && At(c, HotPatch(vm)) && !w.threads[c].deletion
      modifies this
      ensures Ended(c, ret) && old(log) < log
      ensures var s := old(w.crs[c].spec.source);
              old(sent) + [EditVm(vm, WithPair(vm, c, if s.pvc.Some? then s.pvc.value.name else c + "-restore"))] <= sent
      ensures NoCreate(sent, |old(sent)|)
    {
      hide NoCreate, RequestAt, Plug, ClaimName, Cleans, Unplugs, Initial, Exec, VolumeName, WithPair, Move;
      PlugCalls(c, w.crs[c], w.threads[c], ViewOf(w, c));
      var source, name := w.crs[c].spec.source, VolumeName(c);
      var claim := if source.pvc.Some? then source.pvc.value.name else name;
      var volumes := vm.volumes + [Entry(name, claim)];
      var disks := vm.disks + [Entry(name, name)];
      assert Vm(volumes, disks) == WithPair(vm, c, if source.pvc.Some? then source.pvc.value.name else c + "-restore") by { PairIs(vm, c, source); }
      assert RequestAt(c, w.crs[c], w.threads[c], w.clock) == EditVm(vm, Vm(volumes, disks)) by {
        EditRequests(c, w.crs[c], w.threads[c], w.clock);
        PairIs(vm, c, source);
      }
      var x := PatchVm(c, vm, Vm(volumes, disks));
      ret := AfterPlug(c, x.Ok?);
      NothingCreated(sent, old(sent), EditVm(vm, Vm(volumes, disks)));
    }

    method AfterPlug(c: Name, ok: bool) returns (ret: Ret)
      requires Valid() && At(c, if ok then Advance(WaitingForAttachment) else FailPatch) && !w.threads[c].deletion
      modifies this
      ensures Ended(c, ret) && old(log) < log && old(sent) < sent && NoCreate(sent, |old(sent)|)
    {
      hide NoCreate, Cleans, Initial, Exec, Move;
      if !ok {
        ret := FailRestore(c);
      } else {
        ret := TransitionPhase(c, WaitingForAttachment);
        OnePatch(sent, old(sent));
      }
    }

    /** handleWaitingForAttachmentPhase */
    method HandleWaiting(c: Name, vmfr: Cr, now: nat) returns (ret: Ret, ghost seen: Outcome)
      requires Entered(c, vmfr, now) && vmfr.status.phase.WaitingForAttachment?
      modifies this
      ensures Ended(c, ret) && old(log) <= log
      ensures ChecksInTime(sent, old(sent), c, vmfr.status, now, seen, ret)
    {
      hide NoCreate, Cleans, Unplugs, Initial, Exec, VolumeName, FindStatus, Checks, MoveWait, MoveInit, MoveHot, MoveSsh, MoveRestore, MoveDone, MoveClean, MoveFinalize;
      seen := Err;
      if vmfr.status.attachmentRetries >= MAX_ATTACHMENT_RETRIES {
        ret := FailRestore(c);
        return;
      }
      if vmfr.status.lastAttachment.Some? {
        var since := now as int - vmfr.status.lastAttachment.value * SECOND;
        if since < 5 * SECOND {
          return Waiting(RateLimit, Some(5 * SECOND - since)), seen;
        }
      }
      ret, seen := CheckVolume(c);
    }

    /** The checks behind the rate limiter. */
    method CheckVolume(c: Name) returns (ret: Ret, ghost seen: Outcome)
      requires Valid() && At(c, WaitVmi) && !w.threads[c].deletion
      modifies this
      ensures Ended(c, ret) && old(log) < log
      ensures Checks(sent, |old(sent)|, c, old(w.crs[c].status), seen, ret)
    {
      hide NoCreate, Cleans, Unplugs, Initial, Exec, VolumeName, FindStatus, Decisions.AttachedIn, Decisions.NotHotpluggedIn, Records, Move, RequestAt;
      var x := LookForVolume(c);
      seen := x;
      if !x.SawVmi? {
        ret := FailRestore(c);
        return;
      }
      Decisions.CheckMeans(x.vmi, VolumeName(c));
      var found := FindVolumeStatus(x.vmi.volumeStatus, VolumeName(c));
      var check := Attached;
      if found.None? || !found.value.ready || found.value.target == "" {
        check := NotYet;
      } else if !found.value.hotplug {
        check := NotHotplugged;
      }
      ret := RecordCheck(c, check);
    }

    /** The read of the VMI. */
    method LookForVolume(c: Name) returns (x: Outcome)
      requires Valid() && At(c, WaitVmi) && !w.threads[c].deletion
      modifies this
      ensures Valid() && old(log) < log && sent == old(sent) + [ReadVmi]
      ensures At(c, if x.SawVmi? then WaitStamp(CheckAttachment(x.vmi, VolumeName(c))) else FailPatch)
      ensures !w.threads[c].deletion && w.crs[c].status == old(w.crs[c].status)
    {
      hide Initial, Exec, VolumeName, CheckAttachment, Move, RequestAt;
      ReadRequests(c, w.crs[c], w.threads[c], w.clock);
      WaitVmiCalls(c, w.crs[c], w.threads[c], ViewOf(w, c));
      x := Attempt(c, ReadVmi);
    }

    /** Persist the check time first, then act on what was seen. */
    method RecordCheck(c: Name, check: AttachCheck) returns (ret: Ret)
      requires Valid() && At(c, WaitStamp(check)) && !w.threads[c].deletion
      modifies this
      ensures Ended(c, ret) && old(log) < log && old(sent) < sent
      ensures Records(sent, |old(sent)|, old(w.crs[c].status), check, ret)
    {
      hide Cleans, Unplugs, Initial, Exec, VolumeName, ActsOn, Move;
      StampCalls(c, w.crs[c], w.threads[c], ViewOf(w, c));
      var retries := w.crs[c].status.attachmentRetries;
      var stamp := PatchStatus(c, w.crs[c].status.(lastAttachment := Some(Seconds(w.clock))));
      if !stamp.Ok? {
        return Error;
      }
      ret := ActOnCheck(c, check, retries);
    }

    method ActOnCheck(c: Name, check: AttachCheck, retries: int) returns (ret: Ret)
      requires Valid() && InFlight(c) && !w.threads[c].deletion && retries == w.crs[c].status.attachmentRetries
      requires w.threads[c].pc == match check
                                  case NotYet => WaitRetry
                                  case NotHotplugged => FailPatch
                                  case Attached => if retries > 0 then WaitReset else Advance(SshConnecting)
      modifies this
      ensures Ended(c, ret) && old(log) < log && old(sent) < sent
      ensures ActsOn(sent, |old(sent)|, old(w.crs[c].status), check, ret)
    {
      hide NoCreate, Cleans, Unplugs, Initial, Exec, Retries, GoesOn, Move;
      match check {
        case NotYet => ret := RetryAttachment(c);
        case NotHotplugged => ret := FailRestore(c);
        case Attached => ret := Proceed(c, retries);
      }
    }

    method Proceed(c: Name, retries: int) returns (ret: Ret)
      requires Valid() && At(c, if retries > 0 then WaitReset else Advance(SshConnecting)) && !w.threads[c].deletion
      requires retries == w.crs[c].status.attachmentRetries
      modifies this
      ensures Ended(c, ret) && old(log) < log && old(sent) < sent
      ensures GoesOn(sent, |old(sent)|, old(w.crs[c].status), false)
    {
      hide Initial, Exec, Move;
      if retries > 0 {
        ResetAttachment(c);
      }
      ret := TransitionPhase(c, SshConnecting);
    }

    /** Resetting the counter is best effort. */
    method ResetAttachment(c: Name)
      requires Valid() && At(c, WaitReset)
      modifies this
      ensures Valid() && At(c, Advance(SshConnecting)) && old(log) < log
      ensures sent == old(sent) + [SetStatus(old(w.crs[c].status).(attachmentRetries := 0))]
    {
      hide Initial, Exec, VolumeName, MoveInit, MoveHot, MoveSsh, MoveRestore, MoveDone, MoveClean, MoveFinalize;
      var reset := PatchStatus(c, w.crs[c].status.(attachmentRetries := 0));
    }

    method ResetSsh(c: Name)
      requires Valid() && At(c, SshReset)
      modifies this
      ensures Valid() && At(c, Advance(Restoring)) && old(log) < log
      ensures sent == old(sent) + [SetStatus(old(w.crs[c].status).(sshRetries := 0))]
    {
      hide Initial, Exec, MoveInit, MoveHot, MoveWait, MoveRestore, MoveDone, MoveClean, MoveFinalize;
      var reset := PatchStatus(c, w.crs[c].status.(sshRetries := 0));
    }

    /** incrementRetryAndRequeue for the attachment counter. */
    method RetryAttachment(c: Name) returns (ret: Ret)
      requires Valid() && At(c, WaitRetry)
      modifies this
      ensures Ended(c, ret) && old(log) < log && old(sent) < sent
      ensures Retries(sent, |old(sent)|, old(w.crs[c].status), false, ret)
    {
      hide Initial, Exec, Backoff.Delay, Backoff.Schedule, MoveInit, MoveHot, MoveSsh, MoveRestore, MoveDone, MoveClean, MoveFinalize;
      RunningIffInFlight(start, log, c, Err);
      var retries := w.crs[c].status.attachmentRetries + 1;
      var x := PatchStatus(c, w.crs[c].status.(attachmentRetries := retries));
      if !x.Ok? {
        return Error;
      }
      var delay := Backoff.ComputeDelay(Backoff.BASE_DELAY, retries);
      return RequeueAfter(delay * SECOND);
    }

    /** incrementRetryAndRequeue for the SSH counter. */
    method RetrySsh(c: Name) returns (ret: Ret)
      requires Valid() && At(c, SshRetry)
      modifies this
      ensures Ended(c, ret) && old(log) < log && old(sent) < sent
      ensures Retries(sent, |old(sent)|, old(w.crs[c].status), true, ret)
    {
      hide Initial, Exec, Backoff.Delay, Backoff.Schedule, MoveInit, MoveHot, MoveWait, MoveRestore, MoveDone, MoveClean, MoveFinalize;
      RunningIffInFlight(start, log, c, Err);
      var retries := w.crs[c].status.sshRetries + 1;
      var x := PatchStatus(c, w.crs[c].status.(sshRetries := retries));
      if !x.Ok? {
        return Error;
      }
      var delay := Backoff.ComputeDelay(Backoff.BASE_DELAY, retries);
      return RequeueAfter(delay * SECOND);
    }

    /** handleSSHConnectingPhase */
    method HandleSsh(c: Name, vmfr: Cr, now: nat) returns (ret: Ret, ghost seen: Outcome)
      requires Entered(c, vmfr, now) && vmfr.status.phase.SshConnecting?
      modifies this
      ensures Ended(c, ret) && old(log) <= log
      ensures ConnectsInTime(sent, old(sent), vmfr.status, now, seen, ret)
    {
      hide NoCreate, Cleans, Unplugs, Initial, Exec, Connects, MoveSsh, MoveInit, MoveHot, MoveWait, MoveRestore, MoveDone, MoveClean, MoveFinalize;
      seen := Err;
      if vmfr.status.sshRetries >= MAX_SSH_RETRIES {
        ret := FailRestore(c);
        return;
      }
      if vmfr.status.lastSsh.Some? {
        var since := now as int - vmfr.status.lastSsh.value * SECOND;
        if since < 5 * SECOND {
          return Waiting(RateLimit, Some(5 * SECOND - since)), seen;
        }
      }
      ret, seen := ConnectSsh(c);
    }

    /** The connection attempt behind the rate limiter. */
    method ConnectSsh(c: Name) returns (ret: Ret, ghost seen: Outcome)
      requires Valid() && At(c, SshStamp) && !w.threads[c].deletion
      modifies this
      ensures Ended(c, ret) && old(log) < log
      ensures Connects(sent, |old(sent)|, old(w.crs[c].status), seen, ret)
    {
      hide Initial, Exec, Dials, Move;
      SshStampCalls(c, w.crs[c], w.threads[c], ViewOf(w, c));
      seen := Err;
      var stamp := PatchStatus(c, w.crs[c].status.(lastSsh := Some(Seconds(w.clock))));
      if !stamp.Ok? {
        return Error, seen;
      }
      ret, seen := Dial(c);
    }

    /** Address, key and connection, once the attempt is on record. */
    method Dial(c: Name) returns (ret: Ret, ghost seen: Outcome)
      requires Valid() && At(c, SshConnect) && !w.threads[c].deletion
      modifies this
      ensures Ended(c, ret) && old(log) < log && old(sent) < sent
      ensures Dials(sent, |old(sent)|, old(w.crs[c].status), seen, ret)
    {
      hide NoCreate, Cleans, Initial, Exec, Backoff.Schedule, Move, RequestAt;
      var retries := w.crs[c].status.sshRetries;
      var x := TryDial(c);
      seen := x;
      if x.Refused? {
        ret := RetrySsh(c);
        return;
      }
      if !x.Ok? {
        ret := FailRestore(c);
        return;
      }
      ret := ProceedSsh(c, retries);
    }

    method TryDial(c: Name) returns (x: Outcome)
      requires Valid() && At(c, SshConnect) && !w.threads[c].deletion
      modifies this
      ensures Valid() && old(log) < log && sent == old(sent) + [DialGuest]
      ensures At(c, if x.Refused? then SshRetry else if !x.Ok? then FailPatch
                    else if old(w.crs[c].status.sshRetries) > 0 then SshReset else Advance(Restoring))
      ensures !w.threads[c].deletion && w.crs[c].status == old(w.crs[c].status)
    {
      hide Initial, Exec, MoveInit, MoveHot, MoveWait, MoveRestore, MoveDone, MoveClean, MoveFinalize;
      x := Attempt(c, DialGuest);
    }

    method ProceedSsh(c: Name, retries: int) returns (ret: Ret)
      requires Valid() && At(c, if retries > 0 then SshReset else Advance(Restoring)) && !w.threads[c].deletion
      requires retries == w.crs[c].status.sshRetries
      modifies this
      ensures Ended(c, ret) && old(log) < log && old(sent) < sent
      ensures GoesOn(sent, |old(sent)|, old(w.crs[c].status), true)
    {
      hide Initial, Exec, Move;
      if retries > 0 {
        ResetSsh(c);
      }
      ret := TransitionPhase(c, Restoring);
    }

    /** handleRestoringPhase */
    method HandleRestoring(c: Name, vmfr: Cr, now: nat) returns (ret: Ret, ghost seen: Outcome)
      requires Entered(c, vmfr, now) && vmfr.status.phase.Restoring?
      modifies this
      ensures Ended(c, ret) && old(log) < log
      ensures RunsGuest(sent, |old(sent)|, c, vmfr.status, vmfr.spec.sourcePath, seen) && old(sent) < sent
    {
      hide NoCreate, Cleans, Unplugs, Initial, Exec, Reports, VolumeName, Move;
      var x := RunHelper(c, vmfr.spec.sourcePath);
      seen := x;
      if !x.Ran? {
        ret := FailRestore(c);
        return;
      }
      ret := RecordRestore(c, vmfr.spec.sourcePath, x.stdout);
    }

    /** Address, key, connection and command: one call. */
    method RunHelper(c: Name, sourcePath: string) returns (x: Outcome)
      requires Valid() && At(c, RestoreRun) && !w.threads[c].deletion && w.crs[c].status.phase.Restoring? && sourcePath == w.crs[c].spec.sourcePath
      modifies this
      ensures Valid() && old(log) < log && !x.SawVm?
      ensures sent == old(sent) + [GuestRestore(c + "-restore", old(w.crs[c].status.mountPath), sourcePath)]
      ensures At(c, if x.Ran? then RestorePatch(x.stdout) else FailPatch) && !w.threads[c].deletion
      ensures w.crs[c].status == old(w.crs[c].status) && w.crs[c].spec == old(w.crs[c].spec)
    {
      hide Initial, Exec, FileCount.ReportedCount, VolumeName, Commands.BuildRestoreCommand, MoveInit, MoveHot, MoveWait, MoveSsh, MoveDone, MoveClean, MoveFinalize;
      assert w.crs[c].status.mountPath != "" by { MountPathThere(start, log, c); }
      NameIs(c);
      var os: Os := *;
      var command := Commands.BuildRestoreCommand(os, VolumeName(c), w.crs[c].status.mountPath, sourcePath);
      x := Attempt(c, GuestRestore(VolumeName(c), w.crs[c].status.mountPath, sourcePath));
    }

    /** The end of handleRestoringPhase: count and phase in one patch. */
    method RecordRestore(c: Name, sourcePath: string, stdout: string) returns (ret: Ret)
      requires Valid() && At(c, RestorePatch(stdout)) && sourcePath == w.crs[c].spec.sourcePath
      modifies this
      ensures Ended(c, ret) && old(log) < log && old(sent) < sent
      ensures Reports(sent, |old(sent)|, old(w.crs[c].status), sourcePath, stdout)
    {
      hide Initial, Exec, FileCount.RestoredFileCount, Decisions.CountOf, MoveInit, MoveHot, MoveWait, MoveSsh, MoveDone, MoveClean, MoveFinalize;
      Decisions.ReportedIsCountOf(stdout);
      var next := w.crs[c].status;
      if sourcePath == "" {
        next := next.(phase := VolumeReady);
      } else {
        var count := FileCount.ParseRestoredFileCount(stdout);
        if count < 0 {
          count := 0;
        }
        next := next.(count := Some(count), phase := Cleanup);
      }
      var y := PatchStatus(c, next);
      return if y.Ok? then Requeue else Error;
    }

    /** handleCleanupPhase */
    method HandleCleanup(c: Name, vmfr: Cr, now: nat) returns (ret: Ret, ghost seen: Outcome)
      requires Entered(c, vmfr, now) && vmfr.status.phase.Cleanup?
      modifies this
      ensures Ended(c, ret) && old(log) < log
      ensures Finishes(sent, old(sent), c, vmfr, seen, ret)
    {
      hide AsksPhase, Fresh0, Terminal, NoCreate, Cleans, UnplugsAndVerifies, Initial, Exec, VolumeName, Move, RequestAt;
      var x := ReadTarget(c);
      seen := x;
      if !x.SawVm? {
        if x.NotFound? && vmfr.status.count.Some? {
          ret := TransitionPhase(c, Succeeded);
        } else {
          ret := FailRestore(c);
        }
        return;
      }
      ret := UnplugAndVerify(c, x.vm, vmfr.spec);
    }

    /** The read of the VM in phase Cleanup. */
    method ReadTarget(c: Name) returns (x: Outcome)
      requires Valid() && At(c, DoneGet) && !w.threads[c].deletion
      modifies this
      ensures Valid() && old(log) < log && sent == old(sent) + [ReadVm]
      ensures At(c, if x.SawVm? then DonePatch(x.vm) else if x.NotFound? && old(w.crs[c].status.count).Some? then Advance(Succeeded) else FailPatch)
      ensures !w.threads[c].deletion && w.crs[c].spec == old(w.crs[c].spec)
    {
      hide Initial, Exec, Move, RequestAt;
      ReadRequests(c, w.crs[c], w.threads[c], w.clock);
      FirstReadCalls(c, w.crs[c], w.threads[c], ViewOf(w, c));
      x := GetVm(c);
    }

    /** Behind the read of the VM. */
    method UnplugAndVerify(c: Name, vm: Vm, ghost spec: Spec) returns (ret: Ret)
      requires Valid() && At(c, DonePatch(vm)) && !w.threads[c].deletion && spec == w.crs[c].spec
      modifies this
      ensures Ended(c, ret) && old(log) < log && old(sent) <= sent
      ensures UnplugsAndVerifies(sent, old(sent), c, vm, spec, ret)
    {
      hide AsksPhase, Fresh0, Terminal, NoCreate, Cleans, Unplugs, Initial, Exec, VolumeName, Verifies, Move;
      var unplugged := UnplugVolume(c, vm);
      ghost var mid := sent;
      assert Unplugs(mid, old(sent), c, vm, spec, unplugged);
      if !unplugged {
        ret := FailRestore(c);
        return;
      }
      ghost var last;
      ret, last := VerifyDetached(c);
      assert Verifies(sent, |mid|, c, last, ret);
    }

    /** The end of handleCleanupPhase: the VMI must have let go of the volume. */
    method VerifyDetached(c: Name) returns (ret: Ret, ghost seen: Outcome)
      requires Valid() && At(c, DoneVmi) && !w.threads[c].deletion
      modifies this
      ensures Ended(c, ret) && old(log) < log && old(sent) < sent
      ensures Verifies(sent, |old(sent)|, c, seen, ret)
    {
      hide AsksPhase, Fresh0, Terminal, NoCreate, Cleans, Initial, Exec, VolumeName, Lists, Move, RequestAt;
      var y := LookOnceMore(c);
      seen := y;
      if y.SawVmi? {
        var listed := ListsVolume(y.vmi, VolumeName(c));
        if listed {
          return Waiting(Detaching, Some(5 * SECOND)), seen;
        }
      } else if !y.NotFound? {
        ret := FailRestore(c);
        return;
      }
      ret := TransitionPhase(c, Succeeded);
    }

    /** The read of the VMI behind the unplug. */
    method LookOnceMore(c: Name) returns (y: Outcome)
      requires Valid() && At(c, DoneVmi) && !w.threads[c].deletion
      modifies this
      ensures Valid() && old(log) < log && sent == old(sent) + [ReadVmi]
      ensures if y.SawVmi? && Lists(y.vmi, VolumeName(c)) then Ended(c, Waiting(Detaching, Some(5 * SECOND)))
              else At(c, if y.SawVmi? || y.NotFound? then Advance(Succeeded) else FailPatch) && !w.threads[c].deletion
    {
      hide Initial, Exec, VolumeName, Lists, Move, RequestAt;
      ReadRequests(c, w.crs[c], w.threads[c], w.clock);
      VmiReadCalls(c, w.crs[c], w.threads[c], ViewOf(w, c));
      y := Attempt(c, ReadVmi);
    }

    // -------------------------------------------------------------------------
    // Finalizer and dispatch
    // -------------------------------------------------------------------------

    /** Refetch (after the first attempt), drop the finalizer, update. */
    method UpdateFinalizer(c: Name) returns (x: Outcome)
      requires Valid() && c in w.threads && w.threads[c].pc.Finalize?
      modifies this
      ensures Valid() && old(log) < log && sent == old(sent) + [SetFinalizer(false)]
      ensures x.Ok? ==> old(c in w.crs) && c !in w.threads && last == Finished
      ensures !x.Ok? && old(w.threads[c].pc.attempt) + 1 < FINALIZER_ATTEMPTS ==>
                c in w.threads && w.threads[c].pc == Finalize(old(w.threads[c].pc.attempt) + 1)
      ensures !x.Ok? && old(w.threads[c].pc.attempt) + 1 >= FINALIZER_ATTEMPTS ==> c !in w.threads && last == Error
    {
      hide Initial, Exec, Step;
      x := *;
      if !Applied(x) || c !in w.crs { x := Err; }
      ExecSnoc(start, log, Act(c, x));
      FinalizeCalls(w, c, x);
      assert c in w.crs ==> RequestAt(c, w.crs[c], w.threads[c], w.clock) == SetFinalizer(false);
      sent := sent + [SetFinalizer(false)];
      last := if x.Ok? then Finished else if w.threads[c].pc.attempt + 1 < FINALIZER_ATTEMPTS then Running else Error;
      w := Step(w, Act(c, x));
      log := log + [Act(c, x)];
      Yield(c);
    }

    /** The finalizer loop; it ends normally only behind an update that succeeded. */
    method RemoveFinalizer(c: Name) returns (ret: Ret, ghost updated: bool)
      requires Valid() && c in w.threads && w.threads[c].pc == Finalize(0)
      modifies this
      ensures Ended(c, ret) && (ret.Finished? || ret.Error?) && old(log) < log
      ensures ret.Finished? <==> updated
      ensures !updated ==> |sent| == |old(sent)| + 3
      ensures |old(sent)| < |sent| <= |old(sent)| + FINALIZER_ATTEMPTS && old(sent) <= sent
      ensures forall i :: |old(sent)| <= i < |sent| ==> sent[i] == SetFinalizer(false)
    {
      hide Initial, Exec, Step;
      updated := false;
      for attempt := 0 to FINALIZER_ATTEMPTS
        invariant Valid() && !updated && old(log) <= log && (attempt > 0 ==> old(log) < log)
        invariant |sent| == |old(sent)| + attempt && old(sent) <= sent
        invariant forall i :: |old(sent)| <= i < |sent| ==> sent[i] == SetFinalizer(false)
        invariant attempt < FINALIZER_ATTEMPTS ==> c in w.threads && w.threads[c].pc == Finalize(attempt)
        invariant attempt == FINALIZER_ATTEMPTS ==> c !in w.threads && last == Error
      {
        var x := UpdateFinalizer(c);
        if x.Ok? {
          updated := true;
          return Finished, updated;
        }
      }
      return Error, updated;
    }

    /** The read of the object at the start of Reconcile, with the dispatch it decides. */
    method GetCr(c: Name) returns (vmfr: Option<Cr>, now: nat, failed: bool)
      requires Valid() && c !in w.threads
      modifies this
      ensures Valid() && old(log) <= log && sent == old(sent) && w.namespace == old(w.namespace) && now == old(w.clock)
      ensures vmfr.None? ==> c !in w.threads && log == old(log)
      ensures vmfr.Some? ==> c in old(w.crs) && vmfr.value == old(w.crs)[c]
      ensures vmfr.Some? ==>
                var e := Dispatch(vmfr.value, View("", now, false, None));
                && last == e.ret && now == old(w.clock) && old(log) < log
                && (e.thread.None? ==> c !in w.threads)
                && (e.thread.Some? ==> c in w.threads && w.threads[c] == e.thread.value)
                && (e.thread.Some? && vmfr.value.finalizer ==> InFlight(c) && SameCr(w.crs[c], vmfr.value))
    {
      hide Initial, Exec, Step;
      now := w.clock;
      failed := *;
      if failed || c !in w.crs {
        return None, now, failed;
      }
      vmfr := Some(w.crs[c]);
      ghost var e := Dispatch(w.crs[c], ViewOf(w, c));
      ExecSnoc(start, log, Start(c));
      StartCalls(w, c);
      w := Step(w, Start(c));
      log := log + [Start(c)];
      last := e.ret;
      Yield(c);
    }

    /** The update that adds the finalizer; the object may be gone by then. */
    method AddFinalizerTo(c: Name) returns (ret: Ret)
      requires Valid() && c in w.threads && w.threads[c].pc.AddFinalizer?
      modifies this
      ensures Ended(c, ret) && (ret.Requeue? || ret.Error?) && old(log) < log
      ensures sent == old(sent) + [SetFinalizer(true)]
    {
      hide Initial, Exec, Step;
      var x: Outcome := *;
      if !Applied(x) || c !in w.crs { x := Err; }
      ExecSnoc(start, log, Act(c, x));
      AddFinalizerCalls(w, c, x);
      assert c in w.crs ==> RequestAt(c, w.crs[c], w.threads[c], w.clock) == SetFinalizer(true);
      sent := sent + [SetFinalizer(true)];
      ret := if x.Ok? then Requeue else Error;
      w := Step(w, Act(c, x));
      log := log + [Act(c, x)];
      last := ret;
      Yield(c);
    }

    /**
     Reconcile.  Whatever the calls return and whatever happens between them, the cluster goes
     through a run of the machine and no reconcile of c is left in flight.
     */
    method Reconcile(c: Name) returns (ret: Ret, ghost read: Option<Cr>, ghost seen: Outcome)
      requires Valid() && c !in w.threads
      modifies this
      ensures Valid() && c !in w.threads && old(log) <= log && !ret.Running?
      ensures log != old(log) ==> ret == last
      ensures read.Some? ==> c in old(w.crs) && read.value == old(w.crs)[c]
      ensures Reconciles(sent, old(sent), c, read, old(w.clock), old(w.namespace), seen, ret)
    {
      hide NoCreate, Cleans, Deletes, Unplugs, Initial, Exec, Move, Handles;
      seen := Err;
      var got, now, failed := GetCr(c);
      read := got;
      if got.None? {
        return if failed then Error else Finished, read, seen;
      }
      var vmfr := got.value;
      if vmfr.deleting {
        if vmfr.finalizer {
          ret := HandleDeletion(c, vmfr);
          return;
        }
        return Finished, read, seen;
      }
      if !vmfr.finalizer {
        ret := AddFinalizerTo(c);
        return;
      }
      if Terminal(vmfr.status.phase) {
        return Finished, read, seen;
      }
      ret, seen := HandlePhase(c, vmfr, now);
    }

    /** The deletion branch: cleanup, whatever it achieves, then the finalizer. */
    method HandleDeletion(c: Name, ghost vmfr: Cr) returns (ret: Ret)
      requires Valid() && At(c, CleanGuest) && w.threads[c].deletion && SameCr(w.crs[c], vmfr)
      modifies this
      ensures Ended(c, ret) && old(log) < log && Deletes(sent, old(sent), c, vmfr, ret)
    {
      hide Cleans, Initial, Exec, Move;
      RunCleanup(c);
      ghost var mid := sent;
      ghost var updated;
      ret, updated := RemoveFinalizer(c);
      assert Cleans(mid, old(sent), c, vmfr.status.mountPath, vmfr.spec);
    }

    /** getPhaseHandler and the call of what it returns. */
    method HandlePhase(c: Name, vmfr: Cr, now: nat) returns (ret: Ret, ghost seen: Outcome)
      requires Entered(c, vmfr, now)
      modifies this
      ensures Valid() && c !in w.threads && old(log) <= log && !ret.Running? && ret == last
      ensures Handles(sent, old(sent), c, vmfr, now, old(w.namespace), seen, ret)
    {
      hide NoCreate, Cleans, Unplugs, Initial, Exec, Move, Inits, Scans, ChecksInTime, ConnectsInTime, RunsGuest, Finishes;
      seen := Err;
      match vmfr.status.phase {
        case Unset => ret, seen := HandleInit(c, vmfr, now);
        case New => ret, seen := HandleInit(c, vmfr, now);
        case Init => ret, seen := HandleInit(c, vmfr, now);
        case Hotplugging => ret, seen := HandleHotplugging(c, vmfr, now);
        case WaitingForAttachment => ret, seen := HandleWaiting(c, vmfr, now);
        case SshConnecting => ret, seen := HandleSsh(c, vmfr, now);
        case Restoring => ret, seen := HandleRestoring(c, vmfr, now);
        case VolumeReady => ret := Waiting(ManualHold, None);
        case Cleanup => ret, seen := HandleCleanup(c, vmfr, now);
        case Unknown(_) => ret := FailRestore(c);
      }
    }
  }

  method FindVolumeStatus(vs: seq<VolumeStatus>, name: string) returns (found: Option<VolumeStatus>)
    ensures found == FindStatus(vs, name)
  {
    for i := 0 to |vs|
      invariant FindStatus(vs, name) == FindStatus(vs[i..], name)
    {
      assert vs[i..][1..] == vs[i + 1..];
      if vs[i].name == name {
        return Some(vs[i]);
      }
    }
    return None;
  }

  method ListsVolume(vmi: Vmi, name: string) returns (listed: bool)
    ensures listed == Lists(vmi, name)
  {
    for i := 0 to |vmi.volumeStatus|
      invariant forall k :: 0 <= k < i ==> vmi.volumeStatus[k].name != name
    {
      if vmi.volumeStatus[i].name == name {
        return true;
      }
    }
    return false;
  }

  /** Where the reconcile goes when the unplug is through or has failed. */
  predicate UnplugOver(cr: Cr, th: Thread, e: Effect, ok: bool) {
    && e.cr == cr && !e.gone
    && (if th.pc.DonePatch? || th.pc.DoneDv? then e.thread == Some(th.(pc := if ok then DoneVmi else FailPatch)) && e.ret.Running?
        else if th.deletion then e.thread.Some? && e.thread.value.pc == Finalize(0) && e.thread.value.deletion
        else e.thread.None? && e.ret.Finished?)
  }

  /** The scan's verdict in terms of the list it reads. */
  lemma VerdictMeans(vm: Vm, name: string)
    ensures PlugVerdict(vm, name).Busy? <==> Decisions.OtherRestoreIn(vm, name)
    ensures PlugVerdict(vm, name).Present? <==> !Decisions.OtherRestoreIn(vm, name) && Holds(vm, name)
    ensures PlugVerdict(vm, name).Partial? <==> !Decisions.OtherRestoreIn(vm, name) && !Holds(vm, name) && Mentions(vm, name)
  {
    hide IsRestoreName, Has;
    if HeldByOther(vm, name) {
      var v :| v in vm.volumes && IsRestoreName(v.name) && v.name != name;
      var i :| 0 <= i < |vm.volumes| && vm.volumes[i] == v;
    }
  }

  lemma NameIs(c: Name)
    ensures VolumeName(c) == c + "-restore"
  {
  }

  lemma MountPathThere(start: World, log: seq<Event>, c: Name)
    requires Initial(start)
    requires var w := Exec(start, log); c in w.crs && w.crs[c].status.phase.Restoring?
    ensures Exec(start, log).crs[c].status.mountPath != ""
  {
    PersistedStatus(start, log, c);
  }

  lemma PairIs(vm: Vm, c: Name, s: Source)
    ensures var name, claim := VolumeName(c), if s.pvc.Some? then s.pvc.value.name else VolumeName(c);
            && Vm(vm.volumes + [Entry(name, claim)], vm.disks + [Entry(name, name)]) == WithPair(vm, c, if s.pvc.Some? then s.pvc.value.name else c + "-restore")
            && claim == ClaimName(c, s)
  {
  }

  /** The edits of the VM, spelled out. */
  lemma EditRequests(c: Name, cr: Cr, th: Thread, clock: nat)
    ensures th.pc.HotPatch? ==>
              var vm, name := th.pc.base, VolumeName(c);
              RequestAt(c, cr, th, clock) == EditVm(vm, Plug(vm, name, ClaimName(c, cr.spec.source)))
              && Plug(vm, name, ClaimName(c, cr.spec.source))
                 == Vm(vm.volumes + [Entry(name, ClaimName(c, cr.spec.source))], vm.disks + [Entry(name, name)])
    ensures th.pc.DonePatch? || th.pc.CleanPatch? ==>
              var vm, name := th.pc.base, VolumeName(c);
              RequestAt(c, cr, th, clock) == EditVm(vm, Vm(Without(vm.volumes, name), Without(vm.disks, name)))
  {
    hide VolumeName, ClaimName;
  }

  lemma UnplugCalls(c: Name, cr: Cr, th: Thread, v: View)
    requires th.pc.DonePatch? || th.pc.CleanPatch?
    ensures forall y: Outcome :: y.Ok? && v.vmThere && cr.spec.source.snapshot.Some? ==>
              var e := Move(c, cr, th, v, y);
              e.cr == cr && !e.gone && e.thread == Some(th.(pc := if th.pc.DonePatch? then DoneDv else CleanDv))
    ensures forall y: Outcome :: !(y.Ok? && v.vmThere && cr.spec.source.snapshot.Some?) ==>
              UnplugOver(cr, th, Move(c, cr, th, v, y), y.Ok? && v.vmThere)
  {
    hide VolumeName, Unplug;
  }

  /** What the update of the finalizer loop leads to when the object exists. */
  lemma FinalizeMoves(c: Name, cr: Cr, th: Thread, v: View, x: Outcome)
    requires th.pc.Finalize?
    ensures var e := Move(c, cr, th, v, x);
            if x.Ok? || th.pc.attempt + 1 >= FINALIZER_ATTEMPTS then e.thread.None?
            else e.thread == Some(th.(pc := Finalize(th.pc.attempt + 1)))
  {
  }

  /** One attempt of the finalizer loop, whether or not the object still exists. */
  lemma FinalizeCalls(w: World, c: Name, x: Outcome)
    requires c in w.threads && w.threads[c].pc.Finalize? && (x.Ok? ==> c in w.crs) && !x.Crash? && !x.SawVm?
    ensures var w' := Step(w, Act(c, x)); var next := w.threads[c].pc.attempt + 1;
            && (x.Ok? ==> c !in w'.threads)
            && (!x.Ok? && next < FINALIZER_ATTEMPTS ==> c in w'.threads && w'.threads[c].pc == Finalize(next))
            && (!x.Ok? && next >= FINALIZER_ATTEMPTS ==> c !in w'.threads)
  {
    hide Step, FINALIZER_ATTEMPTS;
    if c in w.crs { FinalizeCallsThere(w, c, x); } else { FinalizeCallsGone(w, c, x); }
  }

  /** Where the finalizer loop goes on. */
  predicate LoopsOn(w: World, w': World, c: Name, x: Outcome)
    requires c in w.threads && w.threads[c].pc.Finalize?
  {
    var next := w.threads[c].pc.attempt + 1;
    && (x.Ok? ==> c !in w'.threads)
    && (!x.Ok? && next < FINALIZER_ATTEMPTS ==> c in w'.threads && w'.threads[c].pc == Finalize(next))
    && (!x.Ok? && next >= FINALIZER_ATTEMPTS ==> c !in w'.threads)
  }

  lemma FinalizeCallsThere(w: World, c: Name, x: Outcome)
    requires c in w.threads && w.threads[c].pc.Finalize? && c in w.crs && !x.Crash? && !x.SawVm?
    ensures LoopsOn(w, Step(w, Act(c, x)), c, x)
  {
    hide Commit, Move, VolumeName, FINALIZER_ATTEMPTS;
    FinalizeMoves(c, w.crs[c], w.threads[c], ViewOf(w, c), x);
    CommitThreads(w, c, EffectOf(w, c, x), w.threads[c].clean);
  }

  lemma FinalizeCallsGone(w: World, c: Name, x: Outcome)
    requires c in w.threads && w.threads[c].pc.Finalize? && c !in w.crs && !x.Ok? && !x.Crash? && !x.SawVm?
    ensures LoopsOn(w, Step(w, Act(c, x)), c, x)
  {
    hide Commit, EffectOf, FINALIZER_ATTEMPTS;
  }

  /** Reading the object puts the reconcile where Dispatch sends it and writes nothing. */
  lemma StartCalls(w: World, c: Name)
    requires c in w.crs && c !in w.threads
    ensures var e, w' := Dispatch(w.crs[c], ViewOf(w, c)), Step(w, Start(c));
            && e.ret == Dispatch(w.crs[c], View("", w.clock, false, None)).ret
            && e.thread == Dispatch(w.crs[c], View("", w.clock, false, None)).thread
            && (e.thread.None? ==> c !in w'.threads)
            && (e.thread.Some? ==> c in w'.threads && w'.threads[c] == e.thread.value)
            && (e.thread.Some? ==> c in w'.crs && w'.crs[c] == w.crs[c]) && w'.namespace == w.namespace
  {
    hide MergePatch, VolumeName;
  }

  lemma AddFinalizerCalls(w: World, c: Name, x: Outcome)
    requires c in w.threads && w.threads[c].pc.AddFinalizer? && !x.Crash? && !x.SawVm?
    ensures c !in Step(w, Act(c, x)).threads
  {
  }

  lemma CommitThreads(w: World, c: Name, e: Effect, clean: bool)
    requires c in w.crs
    ensures Commit(w, c, e, clean).threads == if e.thread.Some? then w.threads[c := e.thread.value] else w.threads - {c}
  {
    hide MergePatch, VolumeName, Woken;
  }

  /** What failRestore's patch asks for and leads to. */
  lemma FailPatchCalls(c: Name, cr: Cr, th: Thread, v: View)
    requires th.pc.FailPatch?
    ensures var failed := cr.status.(phase := Failed, completionTime := Some(Seconds(v.clock)));
            && RequestAt(c, cr, th, v.clock) == SetStatus(failed)
            && Move(c, cr, th, v, Ok) == Goto(cr.(status := failed), th, CleanGuest)
    ensures forall y: Outcome :: !y.Ok? ==> Move(c, cr, th, v, y).thread.None? && Move(c, cr, th, v, y).ret.Error?
  {
    hide VolumeName, Plug, Unplug, MoveInit, MoveHot, MoveWait, MoveSsh, MoveRestore, MoveDone, MoveClean;
  }

  /** What the reads ask for. */
  lemma ReadRequests(c: Name, cr: Cr, th: Thread, clock: nat)
    ensures th.pc.InitRead? || th.pc.WaitVmi? || th.pc.DoneVmi? ==> RequestAt(c, cr, th, clock) == ReadVmi
    ensures th.pc.HotGet? || th.pc.DoneGet? ==> RequestAt(c, cr, th, clock) == ReadVm
    ensures th.pc.HotDv? || th.pc.HotReget? ==> RequestAt(c, cr, th, clock) == ReadDv(VolumeName(c))
  {
    hide VolumeName, Plug, Unplug;
  }

  /** What the reads in Init, Hotplugging and Cleanup lead to. */
  lemma FirstReadCalls(c: Name, cr: Cr, th: Thread, v: View)
    ensures th.pc.InitRead? ==> forall y: Outcome ::
              var ok := y.SawVmi? && (cr.spec.source.pvc.Some? || cr.spec.source.snapshot.Some?);
              Move(c, cr, th, v, y) == Goto(cr, th, if ok then InitMount(MountPath(DetectGuestOs(y.vmi), SourceName(c, cr.spec.source))) else FailPatch)
    ensures th.pc.DoneGet? ==> forall y: Outcome ::
              Move(c, cr, th, v, y) == if y.SawVm? then Goto(cr, th, DonePatch(y.vm))
                                       else if y.NotFound? && cr.status.count.Some? then Goto(cr, th.(vmGone := true), Advance(Succeeded))
                                       else Goto(cr, th, FailPatch)
    ensures th.pc.HotDv? ==> forall y: Outcome ::
              Move(c, cr, th, v, y) == if !y.Ok? then Goto(cr, th, FailPatch) else if v.dv.None? then Goto(cr, th, HotCreate(th.pc.base))
                                       else ProvisionedOrWait(cr, th, th.pc.base, v.dv.value)
    ensures th.pc.HotReget? ==> forall y: Outcome ::
              Move(c, cr, th, v, y) == if !y.Ok? || v.dv.None? then Goto(cr, th, FailPatch) else ProvisionedOrWait(cr, th, th.pc.base, v.dv.value)
  {
    hide VolumeName, Plug, Unplug, AfterScan, ProvisionedOrWait, MountPath, DetectGuestOs, SourceName, MoveWait, MoveSsh, MoveRestore, MoveClean;
  }

  /** The call a scan of vm leads to. */
  function ScanLeads(c: Name, source: Source, namespace: string, vm: Vm): Pc {
    match PlugVerdict(vm, VolumeName(c))
    case Busy => FailPatch
    case Present => Advance(WaitingForAttachment)
    case Partial => FailPatch
    case Absent =>
      if source.pvc.Some? then (if CrossNamespace(namespace, source.pvc.value) then FailPatch else HotPatch(vm))
      else if source.snapshot.Some? then HotDv(vm) else FailPatch
  }

  lemma ScanCalls(c: Name, cr: Cr, th: Thread, v: View, y: Outcome)
    requires th.pc.HotGet?
    ensures var e := Move(c, cr, th, v, y);
            && e.cr == cr && !e.gone && e.thread.Some? && e.thread.value.deletion == th.deletion
            && e.thread.value.pc == if y.SawVm? then ScanLeads(c, cr.spec.source, v.namespace, y.vm) else FailPatch
  {
    hide VolumeName, PlugVerdict, MoveInit, MoveWait, MoveSsh, MoveRestore, MoveDone, MoveClean;
  }

  /** What the VMI read behind the unplug leads to. */
  lemma VmiReadCalls(c: Name, cr: Cr, th: Thread, v: View)
    requires th.pc.DoneVmi?
    ensures forall y: Outcome ::
              var e := Move(c, cr, th, v, y); var listed := y.SawVmi? && Lists(y.vmi, VolumeName(c));
              && e.cr == cr && !e.gone
              && (listed ==> e.thread.None? && e.ret == Waiting(Detaching, Some(5 * SECOND)))
              && (!listed ==> e.thread == Some(th.(pc := if y.SawVmi? || y.NotFound? then Advance(Succeeded) else FailPatch)))
  {
    hide VolumeName, Lists, MoveInit, MoveHot, MoveWait, MoveSsh, MoveRestore, MoveClean;
  }

  lemma WaitVmiCalls(c: Name, cr: Cr, th: Thread, v: View)
    requires th.pc.WaitVmi?
    ensures forall y: Outcome ::
              Move(c, cr, th, v, y) == Goto(cr, th, if y.SawVmi? then WaitStamp(CheckAttachment(y.vmi, VolumeName(c))) else FailPatch)
  {
    hide VolumeName, CheckAttachment, MoveInit, MoveHot, MoveSsh, MoveRestore, MoveDone, MoveClean;
  }

  /** What the patch of the check time leads to. */
  lemma StampCalls(c: Name, cr: Cr, th: Thread, v: View)
    requires th.pc.WaitStamp?
    ensures var e := Move(c, cr, th, v, Ok);
            && e.cr.status == cr.status.(lastAttachment := Some(Seconds(v.clock))) && e.cr.finalizer == cr.finalizer && !e.gone
            && e.thread == Some(th.(pc := match th.pc.check
                                          case NotYet => WaitRetry
                                          case NotHotplugged => FailPatch
                                          case Attached => if cr.status.attachmentRetries > 0 then WaitReset else Advance(SshConnecting)))
    ensures forall y: Outcome :: !y.Ok? ==> Move(c, cr, th, v, y).thread.None? && Move(c, cr, th, v, y).ret.Error?
  {
    hide MoveInit, MoveHot, MoveSsh, MoveRestore, MoveDone, MoveClean;
  }

  lemma SshStampCalls(c: Name, cr: Cr, th: Thread, v: View)
    requires th.pc.SshStamp?
    ensures var e := Move(c, cr, th, v, Ok);
            && e.cr.status == cr.status.(lastSsh := Some(Seconds(v.clock))) && e.cr.finalizer == cr.finalizer && !e.gone
            && e.thread == Some(th.(pc := SshConnect))
    ensures forall y: Outcome :: !y.Ok? ==> Move(c, cr, th, v, y).thread.None? && Move(c, cr, th, v, y).ret.Error?
  {
    hide MoveInit, MoveHot, MoveWait, MoveRestore, MoveDone, MoveClean;
  }

  /** What the hotplug patch leads to. */
  lemma PlugCalls(c: Name, cr: Cr, th: Thread, v: View)
    requires th.pc.HotPatch?
    ensures forall y: Outcome ::
              var e := Move(c, cr, th, v, y);
              e.cr == cr && !e.gone && e.thread == Some(th.(pc := if y.Ok? && v.vmThere then Advance(WaitingForAttachment) else FailPatch))
  {
    hide VolumeName, Plug, ClaimName, MoveInit, MoveWait, MoveSsh, MoveRestore, MoveDone, MoveClean;
  }

  lemma DvDeleteCalls(c: Name, cr: Cr, th: Thread, v: View)
    requires th.pc.DoneDv? || th.pc.CleanDv?
    ensures forall y: Outcome :: UnplugOver(cr, th, Move(c, cr, th, v, y), y.Ok?)
  {
  }

  /** In every reachable state a call leaves a reconcile running exactly when it has a next call. */
  lemma RunningIffInFlight(start: World, log: seq<Event>, c: Name, x: Outcome)
    requires Initial(start)
    requires var w := Exec(start, log); c in w.crs && c in w.threads
    ensures var e := EffectOf(Exec(start, log), c, x); e.ret.Running? <==> e.thread.Some?
    ensures var w := Exec(start, log); ThreadOk(w.crs[c], w.threads[c], w.clock) && StatusOk(w.crs[c], w.clock)
  {
    hide Move, StatusOk, ThreadOk;
    Reachable(start, log);
    var w := Exec(start, log);
    assert OwnOk(w, c);
    MoveKeeps(c, w.crs[c], w.threads[c], ViewOf(w, c), x);
  }
}
