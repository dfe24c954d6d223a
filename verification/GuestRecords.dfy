/** When every cloned volume group stays on record, so that a later cleanup can find it. */
module GuestRecords {
  import opened Text
  import opened GuestScript
  import opened GuestLvm
  import opened GuestRestore

  predicate IsClone(v: string) { HasPrefix(v, CLONE_PREFIX) }

  ghost predicate NamedBy(g: Guest, v: string, k: string) { k in g.files && g.files[k] == v }

  /** Every cloned group is named by some state file. */
  ghost predicate Recorded(g: Guest) {
    forall v :: v in g.vgs && IsClone(v) ==> exists k :: NamedBy(g, v, k)
  }

  /** The failures that can orphan a clone: of write and emergency removal, or of a read with errexit off. */
  ghost predicate Excused(log: seq<Call>, strict: bool) { (!strict && ReadFails(log)) || EmergencyFailed(log) }

  /** Named by a state file that does not lie in the directory m. */
  ghost predicate NamedOutside(g: Guest, v: string, m: string) {
    exists k :: NamedBy(g, v, k) && !Inside(k, m)
  }

  /** Named by a state file that is neither m's own nor in the directory m. */
  ghost predicate NamedElsewhere(g: Guest, v: string, m: string) {
    exists k :: NamedBy(g, v, k) && k != m && !Inside(k, m)
  }

  ghost predicate CleanupSafe(g: Guest, m: string) {
    forall v :: v in g.vgs && IsClone(v) ==> NamedOutside(g, v, m)
  }

  ghost predicate CloneSafe(g: Guest, job: Job) {
    forall v :: v in g.vgs && IsClone(v) && v != CloneName(job.serial) ==> NamedElsewhere(g, v, job.mnt)
  }

  lemma CloneIsClone(serial: string)
    ensures IsClone(CloneName(serial)) && CloneName(serial) != ""
  {
  }

  // ---------------------------------------------------------------------------
  // Sufficiency
  // ---------------------------------------------------------------------------

  /** A part of a run that only settles keeps everything on record. */
  lemma SettledStaysRecorded(o: Oracle, r: Run, e: Run, m: string, vs: set<string>, strict: bool)
    requires Passes(o, r, e, m, vs, strict) && CleanupSafe(r.g, m)
    ensures Recorded(e.g) || (!strict && ReadFails(e.log))
  {
    hide CarefulFrom, Truthful, Inside, ReadFails, IsClone;
    if strict || !ReadFails(e.log) {
      forall v | v in e.g.vgs && IsClone(v) ensures exists k :: NamedBy(e.g, v, k) {
        assert NamedOutside(r.g, v, m);
        var k :| NamedBy(r.g, v, k) && !Inside(k, m);
        assert v != "" by { NotEmpty(v); }
        assert NamedBy(e.g, v, k);
      }
    }
  }

  lemma NotEmpty(v: string)
    requires IsClone(v)
    ensures v != ""
  {
  }

  /** What is named elsewhere stays named, whatever the run does. */
  lemma ElsewhereStays(o: Oracle, r: Run, e: Run, job: Job, v: string, strict: bool)
    requires Good(o, r, e, job.mnt, {CloneName(job.serial)}, strict) && CloneSafe(r.g, job)
    requires v in e.g.vgs && IsClone(v) && v != CloneName(job.serial)
    ensures exists k :: NamedBy(e.g, v, k)
  {
    hide CarefulFrom, Truthful, Inside, IsClone, CloneName;
    assert v in r.g.vgs;
    assert NamedElsewhere(r.g, v, job.mnt);
    var k :| NamedBy(r.g, v, k) && k != job.mnt && !Inside(k, job.mnt);
    assert NamedBy(e.g, v, k);
  }

  lemma LvmStaysRecorded(o: Oracle, r: Run, e: Run, job: Job, strict: bool)
    requires Recorded(r.g) && CloneSafe(r.g, job) && LvmShape(o, r, e, job, strict)
    ensures Recorded(e.g) || Excused(e.log, strict)
  {
    var v, m := CloneName(job.serial), job.mnt;
    hide Good, Settles, CloneResult, EmergencyFailed, ReadFails;
    if e.g != r.g {
      var c: Run, ok: bool :| && Good(o, r, c, m, {v}, strict) && CloneResult(r.g, c, ok, m, v)
                              && (ok ==> Passes(o, c, e, m, {v}, strict)) && (!ok ==> e == c);
      if ok { GoodTransitive(o, r, c, e, m, {v}, strict); }
      if !Excused(e.log, strict) {
        forall x | x in e.g.vgs && IsClone(x) ensures exists k :: NamedBy(e.g, x, k) {
          if x == v { OwnStays(o, r, c, ok, e, job, strict); } else { ElsewhereStays(o, r, e, job, x, strict); }
        }
      }
    }
  }

  /** The run's own clone, if it is left, is named. */
  lemma OwnStays(o: Oracle, r: Run, c: Run, ok: bool, e: Run, job: Job, strict: bool)
    requires var v, m := CloneName(job.serial), job.mnt;
             && Recorded(r.g) && CloneResult(r.g, c, ok, m, v)
             && (ok ==> Passes(o, c, e, m, {v}, strict)) && (!ok ==> e == c)
             && v in e.g.vgs && !Excused(e.log, strict)
    ensures exists k :: NamedBy(e.g, CloneName(job.serial), k)
  {
    var v, m := CloneName(job.serial), job.mnt;
    CloneIsClone(job.serial);
    hide Good, CloneName, IsClone, ReadFails, EmergencyFailed;
    if ok {
      assert NamedBy(e.g, v, m);
    } else {
      var k :| NamedBy(r.g, v, k);
      assert NamedBy(e.g, v, k);
    }
  }

  /** A manual run on a plain filesystem leaves groups and state files alone. */
  lemma PlainManual(o: Oracle, g: Guest, job: Job)
    requires job.device != Some(Lvm) && job.source == ""
    ensures var e := Restore(o, Run(g, []), job).0; e.g.vgs == g.vgs && e.g.files == g.files
  {
  }

  // ---------------------------------------------------------------------------
  // Necessity: runs that do lose a record
  // ---------------------------------------------------------------------------

  predicate FineFrom(o: Oracle, n: nat, k: nat) { k >= n ==> o(k).ok }

  /** When nothing fails from here on, a cleanup ends by emptying the mount directory. */
  lemma CleanupSweeps(o: Oracle, r: Run, m: string, strict: bool)
    requires forall k: nat :: FineFrom(o, |r.log|, k)
    ensures var e := Cleanup(o, r, m, strict).0;
            && |e.log| > 0 && e.log[|e.log| - 1].cmd == RmTree(m)
            && forall k :: k in e.g.files ==> !Inside(k, m)
  {
    var a := ReleaseVg(o, r, m, strict);
    var vs := if m in r.g.files then {r.g.files[m]} else {};
    ReleaseVgPasses(o, r, m, strict, vs);
    assert !a.2 by { NeverAborts(o, r, m, strict); }
    assert FineFrom(o, |r.log|, |a.0.log|);
    hide ReleaseVg, Passes, Inside;
    assert RmTries(o, a.0, m, RM_TRIES) == Do(o, a.0, RmTree(m));
  }

  lemma NeverAborts(o: Oracle, r: Run, m: string, strict: bool)
    requires forall k: nat :: FineFrom(o, |r.log|, k)
    ensures !ReleaseVg(o, r, m, strict).2
  {
    if m in r.g.files {
      var vs := {r.g.files[m]};
      var c := Do(o, r, ReadState(m));
      assert c.1 by { assert FineFrom(o, |r.log|, |r.log|); }
      hide Passes, DropVg, DetachTree, TryUmount, After;
      var t := if r.g.files[m] == "" then TryUmount(o, c.0, m) else DropVg(o, DetachTree(o, c.0, m), r.g.files[m]).0;
      assert |t.log| >= |r.log| by {
        if r.g.files[m] == "" { TryUmountGrows(o, c.0, m); } else { DropGrows(o, c.0, m, r.g.files[m]); }
      }
      assert FineFrom(o, |r.log|, |t.log|);
    }
  }

  lemma TryUmountGrows(o: Oracle, r: Run, m: string)
    ensures |TryUmount(o, r, m).log| >= |r.log|
  {
  }

  lemma DropGrows(o: Oracle, r: Run, m: string, v: string)
    ensures |DropVg(o, DetachTree(o, r, m), v).0.log| >= |r.log|
  {
    DetachTreePasses(o, r, m, {v}, true);
    DropVgPasses(o, DetachTree(o, r, m), v, m, {v}, true);
  }

  /** A cleanup without failures loses a group that only files in the mount directory name. */
  lemma SweepLoses(o: Oracle, b: Run, m: string, strict: bool, v: string)
    requires forall k: nat :: FineFrom(o, |b.log|, k)
    requires forall i :: 0 <= i < |b.log| ==> !b.log[i].cmd.ReadState?
    requires v in b.g.vgs && IsClone(v) && !NamedOutside(b.g, v, m)
    ensures var e := Cleanup(o, b, m, strict).0; !Recorded(e.g) && !ReadFails(e.log) && !EmergencyFailed(e.log)
  {
    var e := Cleanup(o, b, m, strict).0;
    var vs := if m in b.g.files then {b.g.files[m]} else {};
    CleanupPasses(o, b, m, strict, vs);
    CleanupSweeps(o, b, m, strict);
    hide Cleanup, IsClone, CarefulFrom, Others, EmergencyFailed, ReadFails, Truthful;
    InsideIsElsewhere(m);
    assert forall k :: NamedBy(b.g, v, k) ==> Inside(k, m);
    assert v !in vs && v in e.g.vgs;
    assert forall k :: NamedBy(e.g, v, k) ==> NamedBy(b.g, v, k);
    NoReadFails(o, b.log, e.log);
  }

  lemma NoReadFails(o: Oracle, before: seq<Call>, log: seq<Call>)
    requires before <= log && Truthful(o, log)
    requires forall k: nat :: FineFrom(o, |before|, k)
    requires forall i :: 0 <= i < |before| ==> !before[i].cmd.ReadState?
    ensures !ReadFails(log)
  {
    assert forall i :: 0 <= i < |before| ==> log[i] == before[i];
    forall i | |before| <= i < |log| && log[i].cmd.ReadState? ensures log[i].ok {
      assert FineFrom(o, |before|, i);
    }
  }

  function Lucky(): Oracle { (n: nat) => Outcome(true, {}) }

  /** Only the n-th command fails. */
  function Unlucky(n: nat): Oracle { (k: nat) => Outcome(k != n, {}) }

  /** The number of commands before the clone is activated. */
  function ActivateAt(g: Guest, job: Job): nat { if CloneName(job.serial) in g.vgs then 6 else 4 }

  lemma CloneWorks(o: Oracle, g: Guest, job: Job)
    requires job.device == Some(Lvm) && job.tools
    requires forall k: nat :: k < ActivateAt(g, job) ==> o(k).ok
    ensures var v := CloneName(job.serial);
            var d := Do(o, Run(g, []), Mkdir(job.mnt));
            var c := Clone(o, d.0, job);
            && d.1 && c.1 && |c.0.log| == ActivateAt(g, job)
            && c.0.g == g.(vgs := g.vgs + {v}, files := g.files[job.mnt := v])
            && forall i :: 0 <= i < |c.0.log| ==> !c.0.log[i].cmd.ReadState?
  {
    hide CloneName;
    var v, n := CloneName(job.serial), ActivateAt(g, job);
    var d := Do(o, Run(g, []), Mkdir(job.mnt));
    var h := Do(o, d.0, HasVg(v));
    assert d.1 && h.0.g == g && h.1 == (v in g.vgs) && |h.0.log| == 2;
    var s := if h.1 then DropVg(o, h.0, v) else (h.0, true);
    assert s.1 && s.0.g == g.(vgs := g.vgs - {v}) && |s.0.log| == n - 2;
    var i := Do(o, s.0, ImportClone(v));
    assert i.1 && i.0.g == g.(vgs := g.vgs + {v}) && |i.0.log| == n - 1;
    assert Do(o, i.0, WriteState(job.mnt, v)).1;
  }

  /** Activation fails and so does the read of the state file: the clone stays, on record, with nothing mounted. */
  lemma StuckRestore(o: Oracle, g: Guest, job: Job)
    requires job.device == Some(Lvm) && job.tools
    requires forall k: nat :: k < ActivateAt(g, job) ==> o(k).ok
    requires !o(ActivateAt(g, job)).ok && !o(ActivateAt(g, job) + 1).ok
    ensures var v := CloneName(job.serial);
            Restore(o, Run(g, []), job).0.g == g.(vgs := g.vgs + {v}, files := g.files[job.mnt := v])
  {
    CloneWorks(o, g, job);
    var c := Clone(o, Do(o, Run(g, []), Mkdir(job.mnt)).0, job);
    var a := Do(o, c.0, Activate(CloneName(job.serial)));
    assert !a.1 && a.0.g == c.0.g && |a.0.log| == ActivateAt(g, job) + 1;
    var f := Do(o, a.0, ReadState(job.mnt));
    assert !f.1 && f.0.g == a.0.g;
    assert Restore(o, Run(g, []), job).0 == Cleanup(o, a.0, job.mnt, true).0 == f.0;
  }

  lemma LvmLoses(g: Guest, job: Job, v: string)
    requires job.device == Some(Lvm) && job.tools
    requires v in g.vgs && IsClone(v) && v != CloneName(job.serial) && !NamedElsewhere(g, v, job.mnt)
    ensures var e := Restore(Unlucky(ActivateAt(g, job)), Run(g, []), job).0; !Recorded(e.g) && !ReadFails(e.log) && !EmergencyFailed(e.log)
  {
    var n, m := ActivateAt(g, job), job.mnt;
    var o := Unlucky(n);
    CloneWorks(o, g, job);
    var c := Clone(o, Do(o, Run(g, []), Mkdir(m)).0, job);
    var a := Do(o, c.0, Activate(CloneName(job.serial)));
    assert !a.1 && a.0.g == c.0.g && |a.0.log| == n + 1;
    assert Restore(o, Run(g, []), job).0 == Cleanup(o, a.0, m, true).0;
    hide Restore, Clone, Cleanup, ActivateAt, Do, CloneName, IsClone;
    assert forall k :: NamedBy(a.0.g, v, k) ==> k != m && NamedBy(g, v, k);
    SweepLoses(o, a.0, m, true, v);
  }

  lemma CopyBackLoses(k: Run, job: Job, v: string)
    requires job.device == Some(Plain) && job.source != ""
    requires forall i :: 0 <= i < |k.log| ==> !k.log[i].cmd.ReadState?
    requires v in k.g.vgs && IsClone(v) && !NamedOutside(k.g, v, job.mnt)
    ensures var e := CopyBack(Lucky(), k, job).0; !Recorded(e.g) && !ReadFails(e.log) && !EmergencyFailed(e.log)
  {
    hide Cleanup, IsClone, Inside, Recorded, Excused, NamedOutside, Traverses;
    var o, m := Lucky(), job.mnt;
    if Traverses(job.source) {
      SweepLoses(o, k, m, true, v);
    } else {
      var path := m + "/." + job.source;
      var x := Do(o, Do(o, k, Exists(path)).0, Rsync(path));
      assert x.1 && x.0.g == k.g;
      SweepLoses(o, x.0, m, false, v);
      assert CopyBack(o, k, job).0 == Cleanup(o, x.0, m, false).0;
    }
  }

  lemma PlainLoses(g: Guest, job: Job, v: string)
    requires job.device == Some(Plain) && job.source != ""
    requires v in g.vgs && IsClone(v) && !NamedOutside(g, v, job.mnt)
    ensures var e := Restore(Lucky(), Run(g, []), job).0; !Recorded(e.g) && !ReadFails(e.log) && !EmergencyFailed(e.log)
  {
    hide CopyBack, IsClone, Inside, Recorded, Excused;
    var o, m := Lucky(), job.mnt;
    var k := Do(o, Do(o, Run(g, []), Mkdir(m)).0, Mount(m));
    assert k.1 && k.0.g == g.(mounts := g.mounts + [m]) && |k.0.log| == 2;
    assert forall j :: NamedBy(k.0.g, v, j) ==> NamedBy(g, v, j);
    CopyBackLoses(k.0, job, v);
  }

  // ---------------------------------------------------------------------------
  // Main results
  // ---------------------------------------------------------------------------

  /** When this holds at the start, no outcome of any command can lose a record. */
  ghost predicate RestoreSafe(g: Guest, job: Job) {
    match job.device
    case None => true
    case Some(Lvm) => job.tools ==> CloneSafe(g, job)
    case Some(Plain) => job.source != "" ==> CleanupSafe(g, job.mnt)
  }

  /** Every clone is on record at the end of the run, unless a failure excuses it. */
  ghost predicate OnRecord(e: Run, strict: bool) { Recorded(e.g) || Excused(e.log, strict) }

  /** A restore that exits with failure had errexit on all the way. */
  ghost predicate RestoreOnRecord(o: Oracle, g: Guest, job: Job) {
    var e := Restore(o, Run(g, []), job);
    OnRecord(e.0, !e.1)
  }

  ghost predicate CleanupOnRecord(o: Oracle, g: Guest, m: string, strict: bool) {
    OnRecord(Cleanup(o, Run(g, []), m, strict).0, strict)
  }

  lemma RestoreKeepsRecords(o: Oracle, g: Guest, job: Job)
    requires Recorded(g) && RestoreSafe(g, job)
    ensures RestoreOnRecord(o, g, job)
  {
    hide CloneSafe, CleanupSafe;
    match job.device {
      case None =>
      case Some(Lvm) =>
        if job.tools {
          hide Restore;
          LvmRun(o, g, job);
          var e := Restore(o, Run(g, []), job);
          LvmStaysRecorded(o, Run(g, []), e.0, job, !e.1);
        }
      case Some(Plain) =>
        if job.source == "" {
          PlainManual(o, g, job);
          hide Restore;
          SameRecords(g, Restore(o, Run(g, []), job).0.g);
        } else {
          hide Restore, Passes, EmergencyFailed;
          PlainRun(o, g, job);
          var e := Restore(o, Run(g, []), job);
          SettledStaysRecorded(o, Run(g, []), e.0, job.mnt, Touched(g, job), !e.1);
        }
    }
  }

  lemma SameRecords(a: Guest, b: Guest)
    requires Recorded(a) && a.vgs == b.vgs && a.files == b.files
    ensures Recorded(b)
  {
    forall v | v in b.vgs && IsClone(v) ensures exists k :: NamedBy(b, v, k) {
      var k :| NamedBy(a, v, k);
      assert NamedBy(b, v, k);
    }
  }

  /**
   Starting with every clone on record, a restore ends that way under every outcome of every
   command (short of the excused failures) exactly when the start is RestoreSafe.  The state
   file of the mount path is overwritten blindly, so it must not be another clone's only record.
   */
  lemma RestoreRecordsAll(g: Guest, job: Job)
    requires Recorded(g)
    ensures (forall o: Oracle :: RestoreOnRecord(o, g, job)) <==> RestoreSafe(g, job)
  {
    hide Restore, Recorded, EmergencyFailed;
    if RestoreSafe(g, job) {
      forall o: Oracle ensures RestoreOnRecord(o, g, job) {
        RestoreKeepsRecords(o, g, job);
      }
    } else if job.device == Some(Lvm) {
      var v :| v in g.vgs && IsClone(v) && v != CloneName(job.serial) && !NamedElsewhere(g, v, job.mnt);
      LvmLoses(g, job, v);
      assert !RestoreOnRecord(Unlucky(ActivateAt(g, job)), g, job);
    } else {
      var v :| v in g.vgs && IsClone(v) && !NamedOutside(g, v, job.mnt);
      PlainLoses(g, job, v);
      assert !RestoreOnRecord(Lucky(), g, job);
    }
  }

  /** The same for a cleanup: only a state file inside the directory it deletes is in danger. */
  lemma CleanupRecordsAll(g: Guest, m: string, strict: bool)
    requires Recorded(g)
    ensures (forall o: Oracle :: CleanupOnRecord(o, g, m, strict)) <==> CleanupSafe(g, m)
  {
    var vs := if m in g.files then {g.files[m]} else {};
    if CleanupSafe(g, m) {
      forall o: Oracle ensures CleanupOnRecord(o, g, m, strict) {
        CleanupPasses(o, Run(g, []), m, strict, vs);
        hide Cleanup, Passes, CleanupSafe, EmergencyFailed;
        SettledStaysRecorded(o, Run(g, []), Cleanup(o, Run(g, []), m, strict).0, m, vs, strict);
      }
    } else {
      var v :| v in g.vgs && IsClone(v) && !NamedOutside(g, v, m);
      var o := Lucky();
      assert forall k: nat :: FineFrom(o, 0, k);
      SweepLoses(o, Run(g, []), m, strict, v);
      assert !CleanupOnRecord(o, g, m, strict);
    }
  }

  /** Two restores of one source in a row: the second overwrites the only record of the first clone. */
  lemma SecondRestoreOrphansFirst(a: string, job: Job)
    requires a != job.serial && job.device == Some(Lvm) && job.tools
    ensures var g := Guest({CloneName(a)}, map[job.mnt := CloneName(a)], []);
            Recorded(g) && exists o: Oracle :: !RestoreOnRecord(o, g, job)
  {
    var g := Guest({CloneName(a)}, map[job.mnt := CloneName(a)], []);
    if CloneName(a) == CloneName(job.serial) { PrependCancels(CLONE_PREFIX, a, job.serial); }
    CloneIsClone(a);
    assert NamedBy(g, CloneName(a), job.mnt);
    hide Restore, EmergencyFailed, IsClone, CloneName;
    LvmLoses(g, job, CloneName(a));
    assert !RestoreOnRecord(Unlucky(ActivateAt(g, job)), g, job);
  }

  /** Where errexit is off, a state file that cannot be read is deleted although its group lives. */
  lemma UnreadableStateIsForgotten(g: Guest, m: string, v: string)
    requires NamedBy(g, v, m) && v in g.vgs && v != ""
    ensures var e := Cleanup(Unlucky(0), Run(g, []), m, false).0; v in e.g.vgs && m !in e.g.files
  {
  }

  /** The state file is kept as long as its group exists. */
  predicate KeepsTrack(o: Oracle, g: Guest, m: string, strict: bool)
    requires m in g.files
  {
    var e := Cleanup(o, Run(g, []), m, strict).0;
    m in e.g.files || g.files[m] !in e.g.vgs
  }

  /** The exact condition: a cleanup never forgets a living group, whatever fails, if and only if errexit is on. */
  lemma TracksExactlyUnderErrexit(g: Guest, m: string, strict: bool)
    requires m in g.files && g.files[m] != "" && g.files[m] in g.vgs
    ensures (forall o: Oracle :: KeepsTrack(o, g, m, strict)) <==> strict
  {
    if strict {
      forall o: Oracle ensures KeepsTrack(o, g, m, strict) {
        CleanupPasses(o, Run(g, []), m, strict, {g.files[m]});
        hide Cleanup, Good;
      }
    } else {
      UnreadableStateIsForgotten(g, m, g.files[m]);
      assert !KeepsTrack(Unlucky(0), g, m, strict);
    }
  }
}
