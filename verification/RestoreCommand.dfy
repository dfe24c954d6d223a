/** What the helper is asked for in phase Restoring, from the restore object to the parsed command line. */
module RestoreCommand {
  import opened Text
  import opened VmSpec
  import opened GuestOs
  import opened RestoreModel
  import opened RestoreStatus
  import opened RestoreDecisions
  import opened RestoreClaims
  import Commands

  lemma VolumeNamePlain(c: Name)
    requires Commands.Plain(c)
    ensures Commands.Plain(VolumeName(c))
  {
    AllAppend(c, "-restore", Commands.IsPlainChar);
  }

  /**
   Over all runs, for a restore past New on a Linux guest whose source has a Kubernetes name: the helper
   reads restore mode, the serial "<name>-restore", the mount path "/backup-<source>" and the source
   path without trailing slashes; cleanup addresses the same mount path; and the disk of that restore
   in the VM, if it is there, carries that serial.
   */
  lemma HelperIsAskedRight(w: World, events: seq<Event>, c: Name, name: string)
    requires Initial(w) && c in Exec(w, events).crs && Started(Exec(w, events).crs[c].status.phase)
    requires var s := Exec(w, events).crs[c].spec.source;
             if s.pvc.Some? then s.pvc.value.name == name else s.snapshot.Some? && s.snapshot.value.name == name
    requires Known(w, events, c).init.Some? ==> !WindowsGuest(Known(w, events, c).init.value)
    requires Commands.Plain(c) && Commands.IsObjectName(name) && Commands.Plain(Exec(w, events).crs[c].spec.sourcePath)
    ensures var now := Exec(w, events); var cr := now.crs[c]; var mount, source := "/backup-" + name, TrimRight(cr.spec.sourcePath, Commands.SLASHES);
            && cr.status.mountPath == mount
            && Commands.HelperParse(Commands.BuildRestoreCommand(Linux, VolumeName(c), mount, cr.spec.sourcePath))
               == Some(Commands.Request("restore", c + "-restore", mount, source))
            && Commands.HelperParse(Commands.BuildCleanupCommand(Linux, mount)) == Some(Commands.Request("cleanup", "", mount, ""))
            && (cr.spec.target in now.vms ==>
                  forall i :: 0 <= i < |now.vms[cr.spec.target].disks| && now.vms[cr.spec.target].disks[i].name == VolumeName(c) ==>
                    now.vms[cr.spec.target].disks[i].ref == c + "-restore")
  {
    hide Exec, Known, Commands.HelperParse, Commands.BuildRestoreCommand, Commands.BuildCleanupCommand, TrimRight, WindowsGuest, Commands.Plain, LastPlug;
    var now := Exec(w, events);
    MountPathIsRight(w, events, c);
    VolumeNamePlain(c);
    assert MountPath(Linux, name) == "/backup-" + name by { assert "/backup" + "-" == "/backup-"; }
    Commands.CleanupRoundTrip(name, VolumeName(c), now.crs[c].spec.sourcePath);
    if now.crs[c].spec.target in now.vms { VolumePointsAtSource(w, events, now.crs[c].spec.target); }
  }
}
