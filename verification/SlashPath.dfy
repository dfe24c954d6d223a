/**
 What becomes of a restore whose source path is made of slashes: the operator waits for a copy
 that the helper, in manual mode, never makes.
 */
module SlashPath {
  import opened Text
  import opened GuestMounts
  import opened GuestScript
  import Commands
  import FileCount
  import GuestOs
  import RestoreModel

  /** Nothing is copied from step n of the log on. */
  predicate NoCopy(log: seq<Call>, n: nat) { forall i :: n <= i < |log| ==> !log[i].cmd.Rsync? }

  /** The run added mounts, at or below mnt, and took none away. */
  predicate AddsMounts(a: Guest, b: Guest, mnt: string, count: nat) {
    && a.mounts <= b.mounts && |b.mounts| == |a.mounts| + count
    && forall i :: |a.mounts| <= i < |b.mounts| ==> AtOrBelow(b.mounts[i], mnt)
  }

  lemma {:induction false} MountLvsLeaves(o: Oracle, r: Run, job: Job, lvs: seq<Lv>, n: nat)
    ensures var k := MountLvs(o, r, job, lvs, n);
            n <= k.1 && r.log <= k.0.log && NoCopy(k.0.log, |r.log|) && AddsMounts(r.g, k.0.g, job.mnt, k.1 - n)
    decreases |lvs|
  {
    hide LvTarget, AtOrBelow, Mountable;
    if lvs != [] {
      if !lvs[0].filesystem {
        MountLvsLeaves(o, r, job, lvs[1..], n);
      } else {
        var t := LvTarget(job, lvs[0]);
        assert AtOrBelow(t, job.mnt) by { TargetBelow(job, lvs[0]); }
        var d := if Mountable(job.lvs) == 1 then (r, true) else Do(o, r, Mkdir(t));
        if d.1 {
          var k := Do(o, d.0, Mount(t));
          MountLvsLeaves(o, k.0, job, lvs[1..], if k.1 then n + 1 else n);
        }
      }
    }
  }

  lemma TargetBelow(job: Job, lv: Lv)
    ensures AtOrBelow(LvTarget(job, lv), job.mnt)
  {
    var t := job.mnt + "/" + lv.name;
    assert t[..|job.mnt| + 1] == job.mnt + "/";
  }

  /** A command that is no copy and no mount. */
  lemma StepLeaves(o: Oracle, r: Run, cmd: Cmd)
    requires !cmd.Rsync? && !cmd.Mount? && !cmd.Umount? && !cmd.LazyUmount?
    ensures var d := Do(o, r, cmd); r.log <= d.0.log && NoCopy(d.0.log, |r.log|) && d.0.g.mounts == r.g.mounts
  {
  }

  lemma DropLeaves(o: Oracle, r: Run, v: string)
    ensures var d := DropVg(o, r, v); r.log <= d.0.log && NoCopy(d.0.log, |r.log|) && d.0.g.mounts == r.g.mounts
  {
    hide Do, NoCopy;
    var d := Do(o, r, Deactivate(v));
    StepLeaves(o, r, Deactivate(v));
    StepLeaves(o, d.0, Remove(v));
    if d.1 { NoCopyJoins(d.0.log, Do(o, d.0, Remove(v)).0.log, |r.log|); }
  }

  lemma ImportLeaves(o: Oracle, r: Run, m: string, v: string)
    requires ImportAndRecord(o, r, m, v).1
    ensures var d := ImportAndRecord(o, r, m, v).0; r.log <= d.log && NoCopy(d.log, |r.log|) && d.g.mounts == r.g.mounts
  {
    hide Do, NoCopy;
    var i := Do(o, r, ImportClone(v));
    StepLeaves(o, r, ImportClone(v));
    StepLeaves(o, i.0, WriteState(m, v));
    NoCopyJoins(i.0.log, Do(o, i.0, WriteState(m, v)).0.log, |r.log|);
  }

  lemma CloneLeaves(o: Oracle, r: Run, job: Job)
    requires Clone(o, r, job).1
    ensures var c := Clone(o, r, job).0; r.log <= c.log && NoCopy(c.log, |r.log|) && c.g.mounts == r.g.mounts
  {
    hide Do, NoCopy, DropVg, ImportAndRecord, CloneName;
    var v := CloneName(job.serial);
    var stale := Do(o, r, HasVg(v));
    StepLeaves(o, r, HasVg(v));
    DropLeaves(o, stale.0, v);
    var cleared := if stale.1 then DropVg(o, stale.0, v) else (stale.0, true);
    if stale.1 { NoCopyJoins(stale.0.log, cleared.0.log, |r.log|); }
    ImportLeaves(o, cleared.0, job.mnt, v);
    NoCopyJoins(cleared.0.log, ImportAndRecord(o, cleared.0, job.mnt, v).0.log, |r.log|);
  }

  lemma NoCopyJoins(a: seq<Call>, b: seq<Call>, n: nat)
    requires a <= b && n <= |a| && NoCopy(a, n) && NoCopy(b, |a|)
    ensures NoCopy(b, n)
  {
    forall i | n <= i < |b| ensures !b[i].cmd.Rsync? {
      if i < |a| { assert b[i] == a[i]; }
    }
  }

  /** A manual run that exits with success has copied nothing and leaves its mounts behind. */
  lemma ManualRunLeavesMounts(o: Oracle, g: Guest, job: Job)
    requires job.source == ""
    ensures var e := Restore(o, Run(g, []), job);
            e.1 ==> NoCopy(e.0.log, 0) && exists count: nat :: count > 0 && AddsMounts(g, e.0.g, job.mnt, count)
  {
    var r := Run(g, []);
    if Restore(o, r, job).1 {
      if job.device == Some(Lvm) {
        ManualLvmRun(o, g, job);
      } else {
        assert AddsMounts(g, Restore(o, r, job).0.g, job.mnt, 1);
      }
    }
  }

  lemma ManualLvmRun(o: Oracle, g: Guest, job: Job)
    requires job.source == "" && job.device == Some(Lvm) && Restore(o, Run(g, []), job).1
    ensures var e := Restore(o, Run(g, []), job);
            NoCopy(e.0.log, 0) && exists count: nat :: count > 0 && AddsMounts(g, e.0.g, job.mnt, count)
  {
    var d := Do(o, Run(g, []), Mkdir(job.mnt));
    assert NoCopy(d.0.log, 0) && d.0.g == g;
    hide Clone, OpenClone, Do;
    var c := Clone(o, d.0, job);
    var p := OpenClone(o, c.0, job);
    assert Restore(o, Run(g, []), job) == p;
    CloneLeaves(o, d.0, job);
    NoCopyJoins(d.0.log, c.0.log, 0);
    OpenLeaves(o, c.0, job);
    NoCopyJoins(c.0.log, p.0.log, 0);
    var count: nat :| count > 0 && AddsMounts(c.0.g, p.0.g, job.mnt, count);
    assert AddsMounts(g, p.0.g, job.mnt, count);
  }

  lemma OpenLeaves(o: Oracle, r: Run, job: Job)
    ensures var p := OpenClone(o, r, job);
            p.1 ==> r.log <= p.0.log && NoCopy(p.0.log, |r.log|) && exists count: nat :: count > 0 && AddsMounts(r.g, p.0.g, job.mnt, count)
  {
    hide Cleanup, CloneName, MountLvs;
    var v := CloneName(job.serial);
    var a := Do(o, r, Activate(v));
    var l := Do(o, a.0, ListLvs(v));
    var k := MountLvs(o, l.0, job, job.lvs, 0);
    MountLvsLeaves(o, l.0, job, job.lvs, 0);
    if OpenClone(o, r, job).1 { assert AddsMounts(r.g, k.0.g, job.mnt, k.1); }
  }

  /** A line that carries no number right behind the script's mark, as every line logged before the copy. */
  predicate Wordy(line: string) {
    var t := FileCount.TrimSpace(line);
    HasPrefix(t, FileCount.PREFIX) ==> |t| > |FileCount.PREFIX| && 'A' <= t[|FileCount.PREFIX|] <= 'Z'
  }

  lemma WordyDoesNotCount(line: string)
    requires Wordy(line)
    ensures FileCount.LineCount(line).None?
  {
    hide FileCount.TrimSpace;
  }

  /** What the manual mode of the helper prints. */
  predicate ManualOutput(stdout: string) { forall i :: 0 <= i < |FileCount.Lines(stdout)| ==> Wordy(FileCount.Lines(stdout)[i]) }

  /**
   For a source path of slashes only: the helper is asked for a manual mount; when it succeeds it has
   copied nothing and leaves mounts behind; and the operator, which takes the restore for automatic,
   records 0 restored files and goes on to Cleanup.
   */
  lemma SlashPathRestoresNothing(serial: string, name: string, path: string, o: Oracle, g: Guest, job: Job, cr: RestoreModel.Cr, stdout: string)
    requires serial != "" && Commands.Plain(serial) && Commands.IsObjectName(name)
    requires path != "" && All(path, Commands.IsSlash) && cr.spec.sourcePath == path && ManualOutput(stdout)
    requires var mnt := GuestOs.MountPath(GuestOs.Linux, name);
             job.mnt == mnt && Commands.HelperParse(Commands.BuildRestoreCommand(GuestOs.Linux, serial, mnt, path))
                               == Some(Commands.Request("restore", job.serial, job.mnt, job.source))
    ensures job.serial == serial && job.source == ""
    ensures var e := Restore(o, Run(g, []), job);
            e.1 ==> NoCopy(e.0.log, 0) && exists count: nat :: count > 0 && AddsMounts(g, e.0.g, job.mnt, count)
    ensures var st := RestoreModel.RestoredCr(cr, stdout).status; st.phase.Cleanup? && st.count == Some(0)
  {
    hide Restore, FileCount.ReportedCount, FileCount.RestoredFileCount, FileCount.LineCount;
    Commands.SlashPathIsManual(serial, name, path);
    ManualRunLeavesMounts(o, g, job);
    forall i | 0 <= i < |FileCount.Lines(stdout)| ensures FileCount.LineCount(FileCount.Lines(stdout)[i]).None? {
      WordyDoesNotCount(FileCount.Lines(stdout)[i]);
    }
    FileCount.NoCountLine(stdout);
  }
}
