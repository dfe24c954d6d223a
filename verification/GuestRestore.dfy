/** Restore runs of the helper script: which clones stay on record, and exactly when. */
module GuestRestore {
  import opened Text
  import opened GuestMounts
  import opened GuestScript
  import opened GuestLvm

  // ---------------------------------------------------------------------------
  // Every restore run is careful and stays within its own mount path and groups
  // ---------------------------------------------------------------------------

  lemma {:induction false} MountLvsPasses(o: Oracle, r: Run, job: Job, lvs: seq<Lv>, n: nat, vs: set<string>, strict: bool)
    ensures Passes(o, r, MountLvs(o, r, job, lvs, n).0, job.mnt, vs, strict)
    decreases |lvs|
  {
    hide Passes, Do, LvTarget;
    if lvs == [] {
      PassesReflexive(o, r, job.mnt, vs, strict);
    } else if !lvs[0].filesystem {
      MountLvsPasses(o, r, job, lvs[1..], n, vs, strict);
    } else {
      var t := LvTarget(job, lvs[0]);
      var d := if Mountable(job.lvs) == 1 then (r, true) else Do(o, r, Mkdir(t));
      PassesReflexive(o, r, job.mnt, vs, strict);
      DoPasses(o, r, Mkdir(t), job.mnt, vs, strict);
      if d.1 {
        LvTargetBelow(job, lvs[0]);
        var k := Do(o, d.0, Mount(t));
        DoPasses(o, d.0, Mount(t), job.mnt, vs, strict);
        PassesTransitive(o, r, d.0, k.0, job.mnt, vs, strict);
        var n1 := if k.1 then n + 1 else n;
        MountLvsPasses(o, k.0, job, lvs[1..], n1, vs, strict);
        PassesTransitive(o, r, k.0, MountLvs(o, k.0, job, lvs[1..], n1).0, job.mnt, vs, strict);
      }
    }
  }

  lemma LvTargetBelow(job: Job, lv: Lv)
    ensures AtOrBelow(LvTarget(job, lv), job.mnt)
  {
  }

  lemma {:induction false} FindSourcePasses(o: Oracle, r: Run, job: Job, lvs: seq<Lv>, vs: set<string>, strict: bool)
    ensures Passes(o, r, FindSource(o, r, job, lvs).0, job.mnt, vs, strict)
    decreases |lvs|
  {
    hide Passes, Do;
    if lvs == [] {
      PassesReflexive(o, r, job.mnt, vs, strict);
    } else {
      var path := job.mnt + "/" + lvs[0].name + "/." + job.source;
      var e := Do(o, r, Exists(path));
      DoPasses(o, r, Exists(path), job.mnt, vs, strict);
      if !e.1 {
        FindSourcePasses(o, e.0, job, lvs[1..], vs, strict);
        PassesTransitive(o, r, e.0, FindSource(o, e.0, job, lvs[1..]).0, job.mnt, vs, strict);
      }
    }
  }

  /** What the state file of the mount path names, if anything, may be touched. */
  predicate Covers(g: Guest, m: string, vs: set<string>) { m in g.files ==> g.files[m] in vs }

  /** A run that got from r to b under errexit may still clean up, with errexit on or off. */
  lemma CleanupAfter(o: Oracle, r: Run, b: Run, m: string, strict: bool, vs: set<string>)
    requires Covers(r.g, m, vs) && Passes(o, r, b, m, vs, true)
    ensures Passes(o, r, Cleanup(o, b, m, strict).0, m, vs, strict)
  {
    CleanupPasses(o, b, m, strict, vs);
    hide Passes, Cleanup;
    StrictIsMore(o, r, b, m, vs, strict);
    PassesTransitive(o, r, b, Cleanup(o, b, m, strict).0, m, vs, strict);
  }

  lemma OpenClonePasses(o: Oracle, r: Run, job: Job, vs: set<string>)
    requires Covers(r.g, job.mnt, vs)
    ensures Passes(o, r, OpenClone(o, r, job).0, job.mnt, vs, true)
  {
    hide Passes, Do, Cleanup, MountLvs, Covers;
    var m, v := job.mnt, CloneName(job.serial);
    var a := Do(o, r, Activate(v));
    DoPasses(o, r, Activate(v), m, vs, true);
    CleanupAfter(o, r, a.0, m, true, vs);
    if a.1 {
      var l := Do(o, a.0, ListLvs(v));
      DoPasses(o, a.0, ListLvs(v), m, vs, true);
      PassesTransitive(o, r, a.0, l.0, m, vs, true);
      CleanupAfter(o, r, l.0, m, true, vs);
      if l.1 {
        var k := MountLvs(o, l.0, job, job.lvs, 0);
        MountLvsPasses(o, l.0, job, job.lvs, 0, vs, true);
        PassesTransitive(o, r, l.0, k.0, m, vs, true);
        CleanupAfter(o, r, k.0, m, true, vs);
      }
    }
  }

  /** Only a run that exits with success has gone through a cleanup with errexit off. */
  lemma CopyBackPasses(o: Oracle, r: Run, job: Job, vs: set<string>)
    requires Covers(r.g, job.mnt, vs)
    ensures var c := CopyBack(o, r, job); Passes(o, r, c.0, job.mnt, vs, !c.1)
  {
    hide Passes, Do, Cleanup, FindSource, Covers, Traverses, Mountable;
    var m := job.mnt;
    PassesReflexive(o, r, m, vs, true);
    PassesReflexive(o, r, m, vs, false);
    CleanupAfter(o, r, r, m, true, vs);
    if job.source != "" && !Traverses(job.source) {
      var f := if job.device == Some(Lvm) && Mountable(job.lvs) > 1 then FindSource(o, r, job, job.lvs) else (r, Some(m));
      FindSourcePasses(o, r, job, job.lvs, vs, true);
      CleanupAfter(o, r, f.0, m, true, vs);
      if f.1.Some? { TransferPasses(o, r, f.0, job, f.1.value + "/." + job.source, vs); }
    }
  }

  /** The last stretch: the source exists, rsync, final cleanup. */
  lemma TransferPasses(o: Oracle, r: Run, f: Run, job: Job, path: string, vs: set<string>)
    requires Covers(r.g, job.mnt, vs) && Passes(o, r, f, job.mnt, vs, true)
    ensures var e := Do(o, f, Exists(path));
            var c := Do(o, e.0, Rsync(path));
            && Passes(o, r, Bail(o, e.0, job).0, job.mnt, vs, true)
            && Passes(o, r, Bail(o, c.0, job).0, job.mnt, vs, true)
            && Passes(o, r, Cleanup(o, c.0, job.mnt, false).0, job.mnt, vs, false)
  {
    hide Passes, Do, Cleanup, Covers;
    var m := job.mnt;
    var e := Do(o, f, Exists(path));
    DoPasses(o, f, Exists(path), m, vs, true);
    PassesTransitive(o, r, f, e.0, m, vs, true);
    CleanupAfter(o, r, e.0, m, true, vs);
    var c := Do(o, e.0, Rsync(path));
    DoPasses(o, e.0, Rsync(path), m, vs, true);
    PassesTransitive(o, r, e.0, c.0, m, vs, true);
    CleanupAfter(o, r, c.0, m, true, vs);
    CleanupAfter(o, r, c.0, m, false, vs);
  }

  /** Writing the state file failed, and so did taking the clone away again. */
  predicate EmergencyFailed(log: seq<Call>) {
    && |log| >= 3
    && log[|log| - 3].cmd.WriteState? && !log[|log| - 3].ok
    && log[|log| - 1].cmd.Remove? && !log[|log| - 1].ok
  }

  /** What is on record after cloning, whether it worked or not. */
  predicate CloneResult(a: Guest, b: Run, ok: bool, m: string, v: string) {
    if ok then m in b.g.files && b.g.files[m] == v
    else
      && ((b.g.files == a.files && b.g.vgs <= a.vgs) || v !in b.g.vgs || EmergencyFailed(b.log))
      && SameOrBlank(a, b.g, m)
  }

  /** The state file of m, if there is one, is as before or empty. */
  predicate SameOrBlank(a: Guest, b: Guest, m: string) {
    m in b.files ==> b.files[m] == "" || (m in a.files && b.files[m] == a.files[m])
  }

  /** Taking away a stale clone of the same name. */
  lemma ClearStale(o: Oracle, r: Run, v: string, m: string)
    requires !Hot(r.log, v)
    ensures var stale := Do(o, r, HasVg(v));
            var cleared := if stale.1 then DropVg(o, stale.0, v) else (stale.0, true);
            && Good(o, r, cleared.0, m, {v}, true) && !Hot(cleared.0.log, v)
            && cleared.0.g.files == r.g.files && cleared.0.g.vgs <= r.g.vgs
  {
    var stale := Do(o, r, HasVg(v));
    DoGood(o, r, HasVg(v), m, {v}, true);
    ColdStays(o, r, HasVg(v), v);
    if stale.1 {
      DropVgPasses(o, stale.0, v, m, {v}, true);
      assert DropVg(o, stale.0, v).0.g.vgs <= r.g.vgs;
      hide Good, Hot, Frame, Settles;
      GoodTransitive(o, r, stale.0, DropVg(o, stale.0, v).0, m, {v}, true);
      ColdStays(o, stale.0, Deactivate(v), v);
      ColdStays(o, Do(o, stale.0, Deactivate(v)).0, Remove(v), v);
    }
  }

  lemma ColdStays(o: Oracle, r: Run, cmd: Cmd, v: string)
    requires !Hot(r.log, v) && cmd != Activate(v)
    ensures !Hot(Do(o, r, cmd).0.log, v)
  {
    hide After, Allowed;
  }

  lemma Emergency(o: Oracle, r: Run, m: string, v: string)
    requires !Hot(r.log, v)
    ensures var w := Do(o, r, WriteState(m, v));
            var e := Do(o, Do(o, w.0, Deactivate(v)).0, Remove(v));
            && Good(o, r, w.0, m, {v}, true) && Good(o, r, e.0, m, {v}, true)
            && (w.1 ==> w.0.g.files == r.g.files[m := v])
            && (!w.1 ==> v !in e.0.g.vgs || EmergencyFailed(e.0.log))
            && (!w.1 ==> SameOrBlank(r.g, e.0.g, m))
  {
    var w := Do(o, r, WriteState(m, v));
    var d := Do(o, w.0, Deactivate(v));
    var e := Do(o, d.0, Remove(v));
    hide Good, Hot;
    DoGood(o, r, WriteState(m, v), m, {v}, true);
    DoGood(o, w.0, Deactivate(v), m, {v}, true);
    ColdStays(o, r, WriteState(m, v), v);
    ColdStays(o, w.0, Deactivate(v), v);
    DoGood(o, d.0, Remove(v), m, {v}, true);
    GoodTransitive(o, r, w.0, d.0, m, {v}, true);
    GoodTransitive(o, r, d.0, e.0, m, {v}, true);
  }

  lemma ImportGood(o: Oracle, r: Run, m: string, v: string)
    requires !Hot(r.log, v)
    ensures var c := ImportAndRecord(o, r, m, v);
            && Good(o, r, c.0, m, {v}, true)
            && (c.1 ==> m in c.0.g.files && c.0.g.files[m] == v)
            && (!c.1 ==> c.0.g == r.g || v !in c.0.g.vgs || EmergencyFailed(c.0.log))
            && (!c.1 ==> SameOrBlank(r.g, c.0.g, m))
  {
    var i := Do(o, r, ImportClone(v));
    assert i.0.g.files == r.g.files && (!i.1 ==> i.0.g == r.g);
    hide Good, Hot, Do, EmergencyFailed;
    DoGood(o, r, ImportClone(v), m, {v}, true);
    ColdStays(o, r, ImportClone(v), v);
    if i.1 {
      Emergency(o, i.0, m, v);
      var w := Do(o, i.0, WriteState(m, v));
      var e := Do(o, Do(o, w.0, Deactivate(v)).0, Remove(v));
      GoodTransitive(o, r, i.0, w.0, m, {v}, true);
      GoodTransitive(o, r, i.0, e.0, m, {v}, true);
    }
  }

  lemma CloneGood(o: Oracle, r: Run, job: Job)
    requires !Hot(r.log, CloneName(job.serial))
    ensures var v := CloneName(job.serial);
            var c := Clone(o, r, job);
            Good(o, r, c.0, job.mnt, {v}, true) && CloneResult(r.g, c.0, c.1, job.mnt, v)
  {
    hide Good, Hot, DropVg, CloneName, Do, EmergencyFailed;
    var m, v := job.mnt, CloneName(job.serial);
    var stale := Do(o, r, HasVg(v));
    var cleared := if stale.1 then DropVg(o, stale.0, v) else (stale.0, true);
    ClearStale(o, r, v, m);
    if cleared.1 {
      ImportGood(o, cleared.0, m, v);
      GoodTransitive(o, r, cleared.0, ImportAndRecord(o, cleared.0, m, v).0, m, {v}, true);
    }
  }

  /** The groups a restore run may touch. */
  function Touched(g: Guest, job: Job): set<string> {
    if job.device == Some(Lvm) then {CloneName(job.serial)}
    else if job.mnt in g.files then {g.files[job.mnt]} else {}
  }

  /** The rest of a run behind its preparation p. */
  function Finish(o: Oracle, p: (Run, bool), job: Job): (Run, bool) { if p.1 then CopyBack(o, p.0, job) else p }

  lemma FinishPasses(o: Oracle, r: Run, p: (Run, bool), job: Job, vs: set<string>)
    requires Covers(r.g, job.mnt, vs) && Passes(o, r, p.0, job.mnt, vs, true)
    ensures var e := Finish(o, p, job); Passes(o, r, e.0, job.mnt, vs, !e.1)
  {
    assert Covers(p.0.g, job.mnt, vs);
    hide Passes, CopyBack;
    CopyBackPasses(o, p.0, job, vs);
    var e := Finish(o, p, job);
    StrictIsMore(o, r, p.0, job.mnt, vs, !e.1);
    if p.1 { PassesTransitive(o, r, p.0, e.0, job.mnt, vs, !e.1); }
  }

  /** An LVM run is its cloning part followed by a part that settles; or it stops before or there. */
  ghost predicate LvmShape(o: Oracle, r: Run, e: Run, job: Job, strict: bool) {
    var v, m := CloneName(job.serial), job.mnt;
    || (e.g == r.g && Passes(o, r, e, m, {v}, strict))
    || exists c: Run, ok: bool ::
         && Good(o, r, c, m, {v}, strict) && CloneResult(r.g, c, ok, m, v)
         && (ok ==> Passes(o, c, e, m, {v}, strict)) && (!ok ==> e == c)
  }

  lemma LvmRun(o: Oracle, g: Guest, job: Job)
    requires job.device == Some(Lvm)
    ensures var e := Restore(o, Run(g, []), job); LvmShape(o, Run(g, []), e.0, job, !e.1)
  {
    var v, m, r := CloneName(job.serial), job.mnt, Run(g, []);
    var d := Do(o, r, Mkdir(m));
    var e := Restore(o, r, job);
    DoPasses(o, r, Mkdir(m), m, {v}, true);
    ColdStays(o, r, Mkdir(m), v);
    assert d.0.g == g;
    hide Do, Good, Passes, Hot, CloneName, CloneResult, Clone, OpenClone, CopyBack;
    if d.1 && job.tools {
      CloneGood(o, d.0, job);
      var c := Clone(o, d.0, job);
      assert Good(o, r, c.0, m, {v}, true) by { MkdirFirst(o, r, d.0, c.0, m, {v}); }
      StrictIsMore(o, r, c.0, m, {v}, !e.1);
      if c.1 {
        assert m in c.0.g.files && c.0.g.files[m] == v by { CloneRecords(g, c.0, m, v); }
        OpenClonePasses(o, c.0, job, {v});
        FinishPasses(o, c.0, OpenClone(o, c.0, job), job, {v});
      }
    }
  }

  lemma MkdirFirst(o: Oracle, r: Run, d: Run, c: Run, m: string, vs: set<string>)
    requires Passes(o, r, d, m, vs, true) && Good(o, d, c, m, vs, true)
    ensures Good(o, r, c, m, vs, true)
  {
    hide Good, Settles;
    GoodTransitive(o, r, d, c, m, vs, true);
  }

  lemma CloneRecords(a: Guest, b: Run, m: string, v: string)
    requires CloneResult(a, b, true, m, v)
    ensures m in b.g.files && b.g.files[m] == v
  {
  }

  lemma PlainRun(o: Oracle, g: Guest, job: Job)
    requires job.device != Some(Lvm)
    ensures var e := Restore(o, Run(g, []), job); Passes(o, Run(g, []), e.0, job.mnt, Touched(g, job), !e.1)
  {
    var r, vs, m := Run(g, []), Touched(g, job), job.mnt;
    if job.device.None? {
      PassesReflexive(o, r, m, vs, true);
    } else {
      var d := Do(o, r, Mkdir(m));
      DoPasses(o, r, Mkdir(m), m, vs, true);
      assert d.0.g == g;
      hide Do, Passes, CopyBack;
      if d.1 {
        var p := Do(o, d.0, Mount(m));
        DoPasses(o, d.0, Mount(m), m, vs, true);
        PassesTransitive(o, r, d.0, p.0, m, vs, true);
        FinishPasses(o, r, p, job, vs);
      }
    }
  }

  /**
   In every restore run: no group is removed while hot, no state file is deleted while the group
   it names exists (a run that exits with success may do so if reading the file failed), and
   nothing outside the run's own mount path, its state file and its group changes.
   */
  lemma RestoreIsCareful(o: Oracle, g: Guest, job: Job)
    ensures var e := Restore(o, Run(g, []), job);
            Careful(e.0.log, !e.1) && Frame(g, e.0.g, job.mnt, Touched(g, job))
  {
    var r, e := Run(g, []), Restore(o, Run(g, []), job);
    hide CarefulFrom, Frame, Restore, CloneResult, Settles;
    if job.device == Some(Lvm) {
      var v := CloneName(job.serial);
      LvmRun(o, g, job);
      if !Passes(o, r, e.0, job.mnt, {v}, !e.1) {
        var c: Run, ok: bool :| && Good(o, r, c, job.mnt, {v}, !e.1) && CloneResult(g, c, ok, job.mnt, v)
                                && (ok ==> Passes(o, c, e.0, job.mnt, {v}, !e.1)) && (!ok ==> e.0 == c);
        if ok { GoodTransitive(o, r, c, e.0, job.mnt, {v}, !e.1); }
      }
    } else {
      PlainRun(o, g, job);
    }
  }

  /** The same for a cleanup run; its group is the one its state file names. */
  lemma CleanupIsCareful(o: Oracle, g: Guest, m: string, strict: bool)
    ensures var e := Cleanup(o, Run(g, []), m, strict).0;
            Careful(e.log, strict) && Frame(g, e.g, m, if m in g.files then {g.files[m]} else {})
  {
    CleanupPasses(o, Run(g, []), m, strict, if m in g.files then {g.files[m]} else {});
  }

  /** After a restore the state file of its mount path names its own clone, or is as before, or is empty. */
  lemma RestoreStateFile(o: Oracle, g: Guest, job: Job)
    ensures var e := Restore(o, Run(g, []), job).0.g;
            SameOrBlank(g, e, job.mnt) || (job.mnt in e.files && e.files[job.mnt] == CloneName(job.serial))
  {
    var r, e := Run(g, []), Restore(o, Run(g, []), job);
    hide Restore, Good, CloneName;
    if job.device == Some(Lvm) {
      var v := CloneName(job.serial);
      LvmRun(o, g, job);
      if e.0.g != g {
        var c: Run, ok: bool :| && Good(o, r, c, job.mnt, {v}, !e.1) && CloneResult(g, c, ok, job.mnt, v)
                                && (ok ==> Passes(o, c, e.0, job.mnt, {v}, !e.1)) && (!ok ==> e.0 == c);
      }
    } else {
      PlainRun(o, g, job);
    }
  }
}
