/** The helper script in its own form: commands, loops and early exits (filerestore.sh). */
module GuestHelper {
  import opened Text
  import opened GuestMounts
  import opened GuestScript
  import opened GuestLvm
  import opened GuestRestore
  import GuestDetach
  import GuestCleanup
  import GuestCopy

  class Shell {
    var r: Run
    const o: Oracle

    constructor (g: Guest, o: Oracle)
      ensures r == Run(g, []) && this.o == o
    {
      this.r := Run(g, []);
      this.o := o;
    }

    /** Run one external command. */
    method Command(cmd: Cmd) returns (ok: bool)
      modifies this
      ensures (r, ok) == Do(o, old(r), cmd)
    {
      var n := Do(o, r, cmd);
      r := n.0;
      return n.1;
    }

    /** try_umount */
    method TryToUmount(target: string)
      modifies this
      ensures r == TryUmount(o, old(r), target)
      ensures GuestDetach.OneMountLess(old(r), r, target)
    {
      hide Do, GuestDetach.OneMountLess;
      GuestDetach.TryUmountMeans(o, r, target);
      var ok := Command(Umount(target));
      if !ok {
        ok := Command(LazyUmount(target));
      }
    }

    /** The loop over the submounts, deepest first. */
    method UmountSubmounts(submounts: seq<string>)
      modifies this
      ensures r == UmountAll(o, old(r), submounts)
    {
      hide TryUmount, GuestDetach.OneMountLess;
      var i := 0;
      while i < |submounts|
        invariant 0 <= i <= |submounts|
        invariant UmountAll(o, r, submounts[i..]) == UmountAll(o, old(r), submounts)
      {
        assert submounts[i..][1..] == submounts[i + 1..];
        if submounts[i] != "" {
          TryToUmount(submounts[i]);
        }
        i := i + 1;
      }
    }

    /** The LVM part of unmount_and_cleanup. */
    method DetachAndDrop(mnt: string, vg: string) returns (ok: bool)
      modifies this
      ensures (r, ok) == DropVg(o, DetachTree(o, old(r), mnt), vg)
    {
      hide Do, UmountAll, TryUmount, DetachOrder, GuestDetach.OneMountLess;
      var listed := Command(ListMounts);
      if !listed {
        TryToUmount(mnt);
      } else {
        var submounts := DetachOrder(r.g.mounts, mnt);
        UmountSubmounts(submounts);
      }
      ok := Command(Deactivate(vg));
      if ok {
        ok := Command(Remove(vg));
      }
    }

    /** unmount_and_cleanup; `strict` says whether errexit is in force at the call. */
    method UnmountAndCleanup(mnt: string, strict: bool) returns (ok: bool)
      modifies this
      ensures (r, ok) == Cleanup(o, old(r), mnt, strict)
      ensures Passes(o, old(r), r, mnt, if mnt in old(r).g.files then {old(r).g.files[mnt]} else {}, strict)
      ensures ok ==> GroupGone(old(r).g, r, mnt, strict)
      ensures GuestCleanup.Reports(old(r), r, mnt, strict, ok)
    {
      hide Do, UmountAll, TryUmount, DropVg, DetachTree, Passes, GroupGone, GuestDetach.OneMountLess, GuestCleanup.Reports, GuestCleanup.Attempts;
      GuestCleanup.CleanupReports(o, r, mnt, strict);
      CleanupPasses(o, r, mnt, strict, if mnt in r.g.files then {r.g.files[mnt]} else {});
      CleanupSucceeds(o, r, mnt, strict);
      var cleanupOk := true;
      if mnt in r.g.files {
        var content := r.g.files[mnt];
        var readable := Command(ReadState(mnt));
        if strict && !readable {
          return false;
        }
        var vg := if readable then content else "";
        if vg == "" {
          TryToUmount(mnt);
        } else {
          cleanupOk := DetachAndDrop(mnt, vg);
        }
        if cleanupOk {
          var deleted := Command(RmState(mnt));
          if strict && !deleted {
            return false;
          }
        }
      } else {
        TryToUmount(mnt);
      }
      ghost var released := ReleaseVg(o, old(r), mnt, strict);
      assert released == (r, cleanupOk, false);
      ok := RemoveMountPoint(mnt);
      ok := ok && cleanupOk;
    }

    /** Three attempts to remove the mount point. */
    method RemoveMountPoint(mnt: string) returns (ok: bool)
      modifies this
      ensures (r, ok) == RmTries(o, old(r), mnt, RM_TRIES)
      ensures GuestCleanup.Attempts(r.log, |old(r).log|, mnt, 3, ok)
    {
      hide Do, GuestCleanup.Attempts;
      GuestCleanup.RmTriesAttempts(o, r, mnt, RM_TRIES);
      ok := false;
      var tries := 0;
      while tries < RM_TRIES && !ok
        invariant 0 <= tries <= RM_TRIES
        invariant if ok then (r, true) == RmTries(o, old(r), mnt, RM_TRIES)
                  else RmTries(o, r, mnt, RM_TRIES - tries) == RmTries(o, old(r), mnt, RM_TRIES)
      {
        ok := Command(RmTree(mnt));
        tries := tries + 1;
      }
    }

    /** Clone the volume group under the run's own name and record it. */
    method CloneVolumeGroup(job: Job) returns (ok: bool)
      modifies this
      ensures (r, ok) == Clone(o, old(r), job)
      ensures var vg := CloneName(job.serial);
              !Hot(old(r).log, vg) ==>
                Good(o, old(r), r, job.mnt, {vg}, true) && CloneResult(old(r).g, r, ok, job.mnt, vg)
    {
      hide Do, CloneName, Hot, Good, CloneResult;
      if !Hot(r.log, CloneName(job.serial)) { CloneGood(o, r, job); }
      var vg := CloneName(job.serial);
      var stale := Command(HasVg(vg));
      if stale {
        ok := Command(Deactivate(vg));
        if !ok {
          return;
        }
        ok := Command(Remove(vg));
        if !ok {
          return;
        }
      }
      ok := Command(ImportClone(vg));
      if !ok {
        return;
      }
      ok := Command(WriteState(job.mnt, vg));
      if !ok {
        var cold := Command(Deactivate(vg));
        var gone := Command(Remove(vg));
      }
    }

    /** The first loop over the logical volumes. */
    method CountMountable(lvs: seq<Lv>) returns (count: nat)
      ensures count == Mountable(lvs)
      ensures count == |set i | 0 <= i < |lvs| && lvs[i].filesystem|
    {
      count := 0;
      var i := 0;
      while i < |lvs|
        invariant 0 <= i <= |lvs| && count == Mountable(lvs[..i])
      {
        assert lvs[..i + 1][..i] == lvs[..i];
        if lvs[i].filesystem {
          count := count + 1;
        }
        i := i + 1;
      }
      assert lvs[..i] == lvs;
      MountableCounts(lvs);
    }

    /** The second loop: mount each of them, skipping what has no filesystem. */
    method MountVolumes(job: Job) returns (mounted: nat, aborted: bool)
      modifies this
      ensures (r, mounted, aborted) == MountLvs(o, old(r), job, job.lvs, 0)
    {
      hide Do, Mountable;
      var mountable := CountMountable(job.lvs);
      mounted, aborted := 0, false;
      var i := 0;
      while i < |job.lvs|
        invariant 0 <= i <= |job.lvs|
        invariant MountLvs(o, r, job, job.lvs[i..], mounted) == MountLvs(o, old(r), job, job.lvs, 0)
      {
        assert job.lvs[i..][1..] == job.lvs[i + 1..];
        var lv := job.lvs[i];
        i := i + 1;
        if lv.filesystem {
          var target := job.mnt;
          if mountable != 1 {
            target := job.mnt + "/" + lv.name;
            var made := Command(Mkdir(target));
            if !made {
              return mounted, true;
            }
          }
          var done := Command(Mount(target));
          if done {
            mounted := mounted + 1;
          }
        }
      }
    }

    /** Activate the clone, list and mount its volumes. */
    method ActivateAndMount(job: Job) returns (ok: bool)
      modifies this
      ensures (r, ok) == OpenClone(o, old(r), job)
    {
      hide Do, Cleanup, MountLvs, CloneName, Passes, GroupGone;
      var vg := CloneName(job.serial);
      var active := Command(Activate(vg));
      if !active {
        var clean := UnmountAndCleanup(job.mnt, true);
        return false;
      }
      var listed := Command(ListLvs(vg));
      if !listed {
        var clean := UnmountAndCleanup(job.mnt, true);
        return false;
      }
      var mounted, aborted := MountVolumes(job);
      if aborted {
        return false;
      }
      if mounted == 0 {
        var clean := UnmountAndCleanup(job.mnt, true);
        return false;
      }
      return true;
    }

    /** Which submount has the source path. */
    method SearchSource(job: Job) returns (found: Option<string>)
      modifies this
      ensures (r, found) == FindSource(o, old(r), job, job.lvs)
    {
      hide Do;
      var i := 0;
      while i < |job.lvs|
        invariant 0 <= i <= |job.lvs|
        invariant FindSource(o, r, job, job.lvs[i..]) == FindSource(o, old(r), job, job.lvs)
      {
        assert job.lvs[i..][1..] == job.lvs[i + 1..];
        var target := job.mnt + "/" + job.lvs[i].name;
        var there := Command(Exists(target + "/." + job.source));
        if there {
          return Some(target);
        }
        i := i + 1;
      }
      return None;
    }

    /** From the mount to the end of the script. */
    method CopyFiles(job: Job) returns (ok: bool)
      modifies this
      ensures (r, ok) == CopyBack(o, old(r), job)
      ensures Passes(o, old(r), r, job.mnt, if job.mnt in old(r).g.files then {old(r).g.files[job.mnt]} else {}, !ok)
      ensures GuestCopy.Still(old(r).log) ==> GuestCopy.CopyDecides(r.log, ok)
      ensures GuestCopy.Still(old(r).log) && ok && job.source != "" ==> GuestCopy.Copied(job, r.log) && GuestCopy.Leaves(o, r, job.mnt, false, true)
    {
      hide Passes, GroupGone, GuestCopy.Still, GuestCopy.CopyDecides, GuestCopy.Copied, GuestCopy.Leaves, GuestCleanup.Reports, CopyBack;
      CopyBackPasses(o, r, job, if job.mnt in r.g.files then {r.g.files[job.mnt]} else {});
      CopyEffects(o, r, job);
      ok := Copy(job);
    }

    method Copy(job: Job) returns (ok: bool)
      modifies this
      ensures (r, ok) == CopyBack(o, old(r), job)
    {
      hide Passes, GroupGone, GuestCleanup.Reports;
      hide Do, Cleanup, FindSource, Traverses, Mountable;
      if job.source == "" {
        return true;
      }
      if Traverses(job.source) {
        var clean := UnmountAndCleanup(job.mnt, true);
        return false;
      }
      var found := Some(job.mnt);
      if job.device == Some(Lvm) && Mountable(job.lvs) > 1 {
        found := SearchSource(job);
      }
      if found.None? {
        var clean := UnmountAndCleanup(job.mnt, true);
        return false;
      }
      var path := found.value + "/." + job.source;
      var there := Command(Exists(path));
      if !there {
        var clean := UnmountAndCleanup(job.mnt, true);
        return false;
      }
      var copied := Command(Rsync(path));
      if !copied {
        var clean := UnmountAndCleanup(job.mnt, true);
        return false;
      }
      var clean := UnmountAndCleanup(job.mnt, false);
      return true;
    }

    /** Restore mode from device discovery on, in a fresh shell. */
    method RunRestore(job: Job) returns (ok: bool)
      requires r.log == []
      modifies this
      ensures (r, ok) == Restore(o, old(r), job)
      ensures Careful(r.log, !ok) && Frame(old(r).g, r.g, job.mnt, Touched(old(r).g, job))
      ensures ok && job.source != "" ==> GuestCopy.Copied(job, r.log) && GuestCopy.Leaves(o, r, job.mnt, false, true)
      ensures ok ==> GuestCopy.Tried(r.log) == GuestCopy.Targets(job)
      ensures ok <==> && job.device.Some? && (job.device == Some(Lvm) ==> job.tools && GuestCopy.HasFilesystem(job.lvs))
                      && (job.source != "" ==> !GuestCopy.DotDot(job.source)) && !GuestCopy.FatalFailed(job, r.log)
                      && (GuestCopy.SomeMount(r.log, false) ==> GuestCopy.SomeMount(r.log, true)) && !GuestCopy.LastLookFailed(r.log)
    {
      hide Careful, Frame, Touched, Restore, GuestCopy.Copied, GuestCopy.Leaves, GuestCopy.Tried, GuestCopy.Targets,
           GuestCopy.HasFilesystem, GuestCopy.DotDot, GuestCopy.FatalFailed, GuestCopy.SomeMount, GuestCopy.LastLookFailed;
      assert r == Run(r.g, []);
      RestoreIsCareful(o, r.g, job);
      GuestCopy.RestoreSucceedsExactly(o, r.g, job);
      GuestCopy.MountsEveryVolume(o, r.g, job);
      if job.source != "" { GuestCopy.AutomaticRunCopies(o, r.g, job); }
      ok := RestoreFiles(job);
    }

    /** The body of restore mode. */
    method RestoreFiles(job: Job) returns (ok: bool)
      modifies this
      ensures (r, ok) == Restore(o, old(r), job)
    {
      hide Do, Clone, OpenClone, CopyBack, Passes, Good, CloneResult, Hot, GuestCopy.Still, GuestCopy.CopyDecides, GuestCopy.Copied, GuestCopy.Leaves;
      if job.device.None? {
        return false;
      }
      var made := Command(Mkdir(job.mnt));
      if !made {
        return false;
      }
      if job.device == Some(Lvm) {
        if !job.tools {
          return false;
        }
        var cloned := CloneVolumeGroup(job);
        if !cloned {
          return false;
        }
        var mounted := ActivateAndMount(job);
        if !mounted {
          return false;
        }
      } else {
        var mounted := Command(Mount(job.mnt));
        if !mounted {
          return false;
        }
      }
      ok := CopyFiles(job);
    }

    /** Cleanup mode, in a fresh shell; errexit is off inside the condition. */
    method RunCleanup(mnt: string) returns (ok: bool)
      requires r.log == []
      modifies this
      ensures (r, ok) == Cleanup(o, old(r), mnt, false)
      ensures Careful(r.log, false)
      ensures Frame(old(r).g, r.g, mnt, if mnt in old(r).g.files then {old(r).g.files[mnt]} else {})
    {
      hide Careful, Frame;
      CleanupIsCareful(o, r.g, mnt, false);
      assert r == Run(r.g, []);
      ok := UnmountAndCleanup(mnt, false);
    }
  }

  /** What the copying part means for a run that has not copied yet. */
  lemma CopyEffects(o: Oracle, r: Run, job: Job)
    ensures var c := CopyBack(o, r, job);
            && (GuestCopy.Still(r.log) ==> GuestCopy.CopyDecides(c.0.log, c.1))
            && (GuestCopy.Still(r.log) && c.1 && job.source != "" ==> GuestCopy.Copied(job, c.0.log) && GuestCopy.Leaves(o, c.0, job.mnt, false, true))
  {
    hide CopyBack, GuestCopy.Still, GuestCopy.CopyDecides, GuestCopy.Copied, GuestCopy.Leaves;
    if GuestCopy.Still(r.log) {
      GuestCopy.CopyBackDecides(o, r, job);
      if CopyBack(o, r, job).1 && job.source != "" { GuestCopy.CopyBackCopies(o, r, job); }
    }
  }

  lemma {:induction false} MountableCounts(lvs: seq<Lv>)
    ensures Mountable(lvs) == |set i | 0 <= i < |lvs| && lvs[i].filesystem|
  {
    if lvs != [] {
      var n := |lvs| - 1;
      MountableCounts(lvs[..n]);
      var a, b := set i | 0 <= i < n && lvs[..n][i].filesystem, set i | 0 <= i < |lvs| && lvs[i].filesystem;
      assert b == if lvs[n].filesystem then a + {n} else a;
    }
  }
}
