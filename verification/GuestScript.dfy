/**
 The Linux helper script as a function of what its commands report (filerestore.sh).  A guest is
 its volume groups, its LVM state files and its mount table; a run logs every command together
 with the guest as it was before it and whether the command succeeded.
 */
module GuestScript {
  import opened Text
  import opened GuestMounts
  import GuestOs

  const STATE_SUFFIX: string := ".lvm_vg"
  const CLONE_PREFIX: string := "filerestore_"

  /** files maps a mount path to the content of the state file next to it. */
  datatype Guest = Guest(vgs: set<string>, files: map<string, string>, mounts: seq<string>)

  datatype Cmd =
    | Umount(target: string)
    | LazyUmount(target: string)
    | ListMounts
    | ReadState(mnt: string)
    | WriteState(mnt: string, vg: string)
    | RmState(mnt: string)
    | RmTree(mnt: string)
    | HasVg(vg: string)
    | ImportClone(vg: string)
    | Activate(vg: string)
    | Deactivate(vg: string)
    | Remove(vg: string)
    | ListLvs(vg: string)
    | Mkdir(path: string)
    | Mount(target: string)
    | Exists(path: string)
    | Rsync(path: string)

  /** Whether a command succeeds, and which state files a failing one spoils on its way. */
  datatype Outcome = Outcome(ok: bool, damaged: set<string>)

  /** The outcome of the n-th command of a run. */
  type Oracle = nat -> Outcome

  datatype Call = Call(before: Guest, cmd: Cmd, ok: bool)

  datatype Run = Run(g: Guest, log: seq<Call>)

  function CloneName(serial: string): string { CLONE_PREFIX + serial }

  /** The state file of mount path k lies in the directory mnt. */
  predicate Inside(k: string, mnt: string) { HasPrefix(k + STATE_SUFFIX, mnt + "/") }

  // ---------------------------------------------------------------------------
  // Commands
  // ---------------------------------------------------------------------------

  /** The topmost mount at t is gone. */
  function DropLast(s: seq<string>, t: string): seq<string> {
    if s == [] then []
    else if s[0] == t && t !in s[1..] then s[1..]
    else [s[0]] + DropLast(s[1..], t)
  }

  function DropBelow(s: seq<string>, t: string): seq<string> {
    if s == [] then []
    else if StrictlyBelow(s[0], t) then DropBelow(s[1..], t)
    else [s[0]] + DropBelow(s[1..], t)
  }

  /** What kernel and LVM insist on, however lucky the command. */
  predicate Allowed(g: Guest, cmd: Cmd) {
    match cmd
    case Umount(t) => t in g.mounts && forall u :: u in g.mounts ==> !StrictlyBelow(u, t)
    case LazyUmount(t) => t in g.mounts
    case HasVg(v) => v in g.vgs
    case Activate(v) => v in g.vgs
    case Deactivate(v) => v in g.vgs
    case Remove(v) => v in g.vgs
    case ListLvs(v) => v in g.vgs
    case ImportClone(v) => v !in g.vgs
    case _ => true
  }

  function InsideFiles(g: Guest, mnt: string): set<string> { set k | k in g.files && Inside(k, mnt) }

  function After(g: Guest, cmd: Cmd, ok: bool, damaged: set<string>): Guest {
    match cmd
    case Umount(t) => if ok then g.(mounts := DropLast(g.mounts, t)) else g
    case LazyUmount(t) => if ok then g.(mounts := DropLast(DropBelow(g.mounts, t), t)) else g
    case WriteState(m, v) =>
      if ok then g.(files := g.files[m := v]) else if m in damaged then g.(files := g.files[m := ""]) else g
    case RmState(m) => if ok then g.(files := g.files - {m}) else g
    case RmTree(m) => g.(files := g.files - if ok then InsideFiles(g, m) else InsideFiles(g, m) * damaged)
    case ImportClone(v) => if ok then g.(vgs := g.vgs + {v}) else g
    case Remove(v) => if ok then g.(vgs := g.vgs - {v}) else g
    case Mount(t) => if ok then g.(mounts := g.mounts + [t]) else g
    case _ => g
  }

  function Do(o: Oracle, r: Run, cmd: Cmd): (Run, bool) {
    var x := o(|r.log|);
    var ok := x.ok && Allowed(r.g, cmd);
    (Run(After(r.g, cmd, ok, x.damaged), r.log + [Call(r.g, cmd, ok)]), ok)
  }

  // ---------------------------------------------------------------------------
  // unmount_and_cleanup
  // ---------------------------------------------------------------------------

  function TryUmount(o: Oracle, r: Run, t: string): Run {
    var u := Do(o, r, Umount(t));
    if u.1 then u.0 else Do(o, u.0, LazyUmount(t)).0
  }

  function UmountAll(o: Oracle, r: Run, ts: seq<string>): Run
    decreases |ts|
  {
    if ts == [] then r
    else UmountAll(o, if ts[0] == "" then r else TryUmount(o, r, ts[0]), ts[1..])
  }

  function DetachTree(o: Oracle, r: Run, m: string): Run {
    var l := Do(o, r, ListMounts);
    if l.1 then UmountAll(o, l.0, DetachOrder(l.0.g.mounts, m)) else TryUmount(o, l.0, m)
  }

  /** Deactivate, and only then remove. */
  function DropVg(o: Oracle, r: Run, v: string): (Run, bool) {
    var d := Do(o, r, Deactivate(v));
    if d.1 then Do(o, d.0, Remove(v)) else d
  }

  /** The clone is gone or the file was empty: delete the state file. */
  function Forget(o: Oracle, r: Run, m: string, strict: bool): (Run, bool, bool) {
    var f := Do(o, r, RmState(m));
    (f.0, true, strict && !f.1)
  }

  /**
   The part of the cleanup before the mount point goes: the new run, whether LVM is clean, and
   whether errexit ended the script.  Errexit is off (strict is false) inside a condition.
   */
  function ReleaseVg(o: Oracle, r: Run, m: string, strict: bool): (Run, bool, bool) {
    if m !in r.g.files then (TryUmount(o, r, m), true, false)
    else
      var c := Do(o, r, ReadState(m));
      if strict && !c.1 then (c.0, false, true)
      else
        var v := if c.1 then r.g.files[m] else "";
        if v == "" then Forget(o, TryUmount(o, c.0, m), m, strict)
        else
          var d := DropVg(o, DetachTree(o, c.0, m), v);
          if d.1 then Forget(o, d.0, m, strict) else (d.0, false, false)
  }

  function RmTries(o: Oracle, r: Run, m: string, tries: nat): (Run, bool)
    decreases tries
  {
    if tries == 0 then (r, false)
    else
      var t := Do(o, r, RmTree(m));
      if t.1 then t else RmTries(o, t.0, m, tries - 1)
  }

  const RM_TRIES: nat := 3

  function Cleanup(o: Oracle, r: Run, m: string, strict: bool): (Run, bool) {
    var a := ReleaseVg(o, r, m, strict);
    if a.2 then (a.0, false)
    else
      var t := RmTries(o, a.0, m, RM_TRIES);
      (t.0, a.1 && t.1)
  }

  // ---------------------------------------------------------------------------
  // Restore mode
  // ---------------------------------------------------------------------------

  datatype Device = Plain | Lvm

  datatype Lv = Lv(name: string, filesystem: bool)

  /** One restore request, with what device discovery, blkid and lvs find; source "" is manual mode. */
  datatype Job = Job(serial: string, mnt: string, source: string, device: Option<Device>, tools: bool, lvs: seq<Lv>)

  /** Import the clone and write down its name, or take it away again. */
  function ImportAndRecord(o: Oracle, r: Run, m: string, v: string): (Run, bool) {
    var i := Do(o, r, ImportClone(v));
    if !i.1 then i
    else
      var w := Do(o, i.0, WriteState(m, v));
      if w.1 then w else (Do(o, Do(o, w.0, Deactivate(v)).0, Remove(v)).0, false)
  }

  /** A stale clone of the same name has to go first. */
  function Clone(o: Oracle, r: Run, job: Job): (Run, bool) {
    var v := CloneName(job.serial);
    var stale := Do(o, r, HasVg(v));
    var cleared := if stale.1 then DropVg(o, stale.0, v) else (stale.0, true);
    if cleared.1 then ImportAndRecord(o, cleared.0, job.mnt, v) else cleared
  }

  function Mountable(lvs: seq<Lv>): nat {
    if lvs == [] then 0 else Mountable(lvs[..|lvs| - 1]) + if lvs[|lvs| - 1].filesystem then 1 else 0
  }

  function LvTarget(job: Job, lv: Lv): string {
    if Mountable(job.lvs) == 1 then job.mnt else job.mnt + "/" + lv.name
  }

  /** The mounting loop: run, number mounted, and whether a failing mkdir ended the script. */
  function MountLvs(o: Oracle, r: Run, job: Job, lvs: seq<Lv>, n: nat): (Run, nat, bool)
    decreases |lvs|
  {
    if lvs == [] then (r, n, false)
    else if !lvs[0].filesystem then MountLvs(o, r, job, lvs[1..], n)
    else
      var t := LvTarget(job, lvs[0]);
      var d := if Mountable(job.lvs) == 1 then (r, true) else Do(o, r, Mkdir(t));
      if !d.1 then (d.0, n, true)
      else
        var k := Do(o, d.0, Mount(t));
        MountLvs(o, k.0, job, lvs[1..], if k.1 then n + 1 else n)
  }

  /** Leave through unmount_and_cleanup with exit 1. */
  function Bail(o: Oracle, r: Run, job: Job): (Run, bool) {
    (Cleanup(o, r, job.mnt, true).0, false)
  }

  /** Activate the clone and mount its volumes. */
  function OpenClone(o: Oracle, r: Run, job: Job): (Run, bool) {
    var v := CloneName(job.serial);
    var a := Do(o, r, Activate(v));
    if !a.1 then Bail(o, a.0, job)
    else
      var l := Do(o, a.0, ListLvs(v));
      if !l.1 then Bail(o, l.0, job)
      else
        var k := MountLvs(o, l.0, job, job.lvs, 0);
        if k.2 then (k.0, false)
        else if k.1 == 0 then Bail(o, k.0, job)
        else (k.0, true)
  }

  /** The case pattern for parent-directory components. */
  predicate Traverses(path: string) {
    GuestOs.Contains(path, "/../") || HasSuffix(path, "/..") || path == ".." || HasPrefix(path, "../")
  }

  /** The first logical volume that has the source path. */
  function FindSource(o: Oracle, r: Run, job: Job, lvs: seq<Lv>): (Run, Option<string>)
    decreases |lvs|
  {
    if lvs == [] then (r, None)
    else
      var t := job.mnt + "/" + lvs[0].name;
      var e := Do(o, r, Exists(t + "/." + job.source));
      if e.1 then (e.0, Some(t)) else FindSource(o, e.0, job, lvs[1..])
  }

  /** Everything after the mount: stop in manual mode, otherwise copy and clean up. */
  function CopyBack(o: Oracle, r: Run, job: Job): (Run, bool) {
    if job.source == "" then (r, true)
    else if Traverses(job.source) then Bail(o, r, job)
    else
      var f := if job.device == Some(Lvm) && Mountable(job.lvs) > 1 then FindSource(o, r, job, job.lvs) else (r, Some(job.mnt));
      if f.1.None? then Bail(o, f.0, job)
      else
        var e := Do(o, f.0, Exists(f.1.value + "/." + job.source));
        if !e.1 then Bail(o, e.0, job)
        else
          var c := Do(o, e.0, Rsync(f.1.value + "/." + job.source));
          if !c.1 then Bail(o, c.0, job)
          else (Cleanup(o, c.0, job.mnt, false).0, true)
  }

  /** Clone, activate, mount. */
  function Prepare(o: Oracle, r: Run, job: Job): (Run, bool) {
    if job.device == Some(Lvm) then
      if !job.tools then (r, false)
      else
        var c := Clone(o, r, job);
        if c.1 then OpenClone(o, c.0, job) else c
    else Do(o, r, Mount(job.mnt))
  }

  function Restore(o: Oracle, r: Run, job: Job): (Run, bool) {
    if job.device.None? then (r, false)
    else
      var d := Do(o, r, Mkdir(job.mnt));
      if !d.1 then d
      else
        var p := Prepare(o, d.0, job);
        if p.1 then CopyBack(o, p.0, job) else p
  }
}
