/**
 What a restore run of the helper achieves, read off its log: when it exits with success, which
 volumes it mounts, what it copies, and that it leaves through a cleanup.
 */
module GuestCopy {
  import opened Text
  import opened GuestScript
  import GuestMounts
  import GuestCleanup
  import GuestOs

  // ---------------------------------------------------------------------------
  // Reading a log
  // ---------------------------------------------------------------------------

  /** A parent-directory component: two dots between slashes or ends. */
  predicate DotDotAt(path: string, i: nat) {
    && i + 2 <= |path| && path[i..i + 2] == ".."
    && (i == 0 || path[i - 1] == '/') && (i + 2 == |path| || path[i + 2] == '/')
  }
  predicate DotDot(path: string) { exists i: nat :: i < |path| && DotDotAt(path, i) }

  predicate HasFilesystem(lvs: seq<Lv>) { exists i :: 0 <= i < |lvs| && lvs[i].filesystem }

  predicate SomeImport(log: seq<Call>) { exists i :: 0 <= i < |log| && log[i].cmd.ImportClone? }

  /** The state file of a clone has been written. */
  predicate SomeRecord(log: seq<Call>) { exists i :: 0 <= i < |log| && log[i].cmd.WriteState? && log[i].ok }

  /** The commands whose failure ends a restore run; a stale clone is dropped before the import. */
  predicate Fatal(job: Job, log: seq<Call>, i: nat)
    requires i < |log|
  {
    var cmd := log[i].cmd;
    || cmd.Mkdir? || cmd.ImportClone? || cmd.WriteState? || cmd.Activate? || cmd.ListLvs? || cmd.Rsync?
    || ((cmd.Deactivate? || cmd.Remove?) && job.device == Some(Lvm) && !SomeImport(log[..i]))
  }

  predicate FatalFailed(job: Job, log: seq<Call>) { exists i: nat :: i < |log| && Fatal(job, log, i) && !log[i].ok }
  predicate SomeMount(log: seq<Call>, ok: bool) { exists i :: 0 <= i < |log| && log[i].cmd.Mount? && log[i].ok == ok }

  /** The last look for the source path was in vain. */
  predicate LastLookFailed(log: seq<Call>) {
    exists i :: 0 <= i < |log| && log[i].cmd.Exists? && !log[i].ok && forall j :: i < j < |log| ==> !log[j].cmd.Exists?
  }

  /** The targets of the mount commands, in order. */
  function Tried(log: seq<Call>): seq<string> {
    if log == [] then [] else
      var c := log[|log| - 1];
      Tried(log[..|log| - 1]) + if c.cmd.Mount? then [c.cmd.target] else []
  }

  /** The names of the volumes with a filesystem, in order. */
  function Usable(lvs: seq<Lv>): seq<string> {
    if lvs == [] then [] else (if lvs[0].filesystem then [lvs[0].name] else []) + Usable(lvs[1..])
  }

  /** One volume goes to the mount path itself, several go below it. */
  function Below(mnt: string, names: seq<string>): (ts: seq<string>)
    ensures |ts| == |names| && forall i :: 0 <= i < |ts| ==> ts[i] == mnt + "/" + names[i]
  {
    if names == [] then [] else [mnt + "/" + names[0]] + Below(mnt, names[1..])
  }
  function Targets(job: Job): seq<string> {
    if job.device == Some(Lvm) && |Usable(job.lvs)| != 1 then Below(job.mnt, Usable(job.lvs)) else [job.mnt]
  }

  predicate Looks(cmd: Cmd) { cmd.Exists? || cmd.Rsync? }
  predicate Still(s: seq<Call>) { forall i :: 0 <= i < |s| ==> !Looks(s[i].cmd) }

  /** Where the source path is on one of several volumes. */
  function SourceOn(job: Job, lv: Lv): string { job.mnt + "/" + lv.name + "/." + job.source }

  /** Look i of a search over lvs; only the last look of a search that finds something succeeds. */
  predicate LookedAt(job: Job, lvs: seq<Lv>, s: seq<Call>, found: Option<string>, i: nat) {
    i < |s| && i < |lvs| && s[i].cmd == Exists(SourceOn(job, lvs[i])) && (s[i].ok <==> found.Some? && i == |s| - 1)
  }

  /** What the search over lvs adds to the log. */
  predicate SearchAdds(job: Job, lvs: seq<Lv>, s: seq<Call>, found: Option<string>) {
    && (forall i: nat :: i < |s| ==> LookedAt(job, lvs, s, found, i))
    && (found.Some? ==> 1 <= |s| <= |lvs| && found.value == job.mnt + "/" + lvs[|s| - 1].name)
  }

  /** The search over several volumes: all looks but the last fail, and the last names the volume. */
  predicate Searches(job: Job, s: seq<Call>, head: string) {
    if job.device == Some(Lvm) && |Usable(job.lvs)| > 1 then
      SearchAdds(job, job.lvs, s, Some(head))
    else s == [] && head == job.mnt
  }

  /** One look that succeeds, then one copy that succeeds, of the same path; no other copy, no other look but the search. */
  ghost predicate Copied(job: Job, log: seq<Call>) {
    exists before: seq<Call>, search: seq<Call>, look: Call, copy: Call, rest: seq<Call>, head: string ::
      CopiedAs(job, log, before, search, look, copy, rest, head)
  }

  predicate CopiedAs(job: Job, log: seq<Call>, before: seq<Call>, search: seq<Call>, look: Call, copy: Call, rest: seq<Call>, head: string) {
    && log == before + search + [look, copy] + rest
    && Still(before) && Still(rest) && Searches(job, search, head)
    && look.cmd == Exists(head + "/." + job.source) && look.ok
    && copy.cmd == Rsync(head + "/." + job.source) && copy.ok
  }

  // ---------------------------------------------------------------------------
  // The log as a running tally
  // ---------------------------------------------------------------------------

  datatype Tally = Tally(imported: bool, recorded: bool, broken: bool, mounted: bool, unmounted: bool, lost: bool, tried: seq<string>, looks: nat)

  function Count(lvm: bool, t: Tally, c: Call): Tally {
    var cmd := c.cmd;
    var ends := cmd.Mkdir? || cmd.ImportClone? || cmd.WriteState? || cmd.Activate? || cmd.ListLvs? || cmd.Rsync?
                || ((cmd.Deactivate? || cmd.Remove?) && lvm && !t.imported);
    Tally(t.imported || cmd.ImportClone?, t.recorded || (cmd.WriteState? && c.ok), t.broken || (ends && !c.ok),
          t.mounted || (cmd.Mount? && c.ok), t.unmounted || (cmd.Mount? && !c.ok),
          if cmd.Exists? then !c.ok else t.lost, if cmd.Mount? then t.tried + [cmd.target] else t.tried,
          if Looks(cmd) then t.looks + 1 else t.looks)
  }

  function Tallied(lvm: bool, log: seq<Call>): Tally {
    if log == [] then Tally(false, false, false, false, false, false, [], 0)
    else Count(lvm, Tallied(lvm, log[..|log| - 1]), log[|log| - 1])
  }

  lemma {:induction false} TallyMeans(job: Job, log: seq<Call>)
    ensures var t := Tallied(job.device == Some(Lvm), log);
            && (t.imported <==> SomeImport(log))
            && (t.broken <==> FatalFailed(job, log))
            && (t.mounted <==> SomeMount(log, true)) && (t.unmounted <==> SomeMount(log, false))
            && (t.lost <==> LastLookFailed(log)) && t.tried == Tried(log)
            && (t.looks == 0 <==> Still(log)) && (t.recorded <==> SomeRecord(log))
  {
    hide FatalFailed, SomeMount, LastLookFailed, SomeImport, SomeRecord;
    if log == [] {
      NothingRead(job);
    } else {
      var n, init := |log| - 1, log[..|log| - 1];
      TallyMeans(job, init);
      BrokenSnoc(job, log);
      MountSnoc(log);
      LookSnoc(log);
      assert log == init + [log[n]];
      ImportSnoc(log);
      RecordSnoc(log);
    }
  }

  lemma NothingRead(job: Job)
    ensures !FatalFailed(job, []) && !SomeMount([], true) && !SomeMount([], false) && !LastLookFailed([]) && !SomeImport([]) && !SomeRecord([]) && Still([])
  {
  }

  lemma BrokenSnoc(job: Job, log: seq<Call>)
    requires log != []
    ensures var n := |log| - 1; FatalFailed(job, log) <==> FatalFailed(job, log[..n]) || (Fatal(job, log, n) && !log[n].ok)
  {
    var n, init := |log| - 1, log[..|log| - 1];
    forall i: nat | i < n ensures Fatal(job, init, i) <==> Fatal(job, log, i) {
      assert init[..i] == log[..i];
    }
    if FatalFailed(job, init) { var i: nat :| i < n && Fatal(job, init, i) && !init[i].ok; assert Fatal(job, log, i) && !log[i].ok; }
    if FatalFailed(job, log) { var i: nat :| i <= n && Fatal(job, log, i) && !log[i].ok; if i < n { assert Fatal(job, init, i) && !init[i].ok; } }
  }

  lemma ImportSnoc(log: seq<Call>)
    requires log != []
    ensures var n := |log| - 1; SomeImport(log) <==> SomeImport(log[..n]) || log[n].cmd.ImportClone?
  {
    var n, init := |log| - 1, log[..|log| - 1];
    if SomeImport(log) { var i :| 0 <= i < |log| && log[i].cmd.ImportClone?; if i < n { assert init[i].cmd.ImportClone?; } }
    if SomeImport(init) { var i :| 0 <= i < |init| && init[i].cmd.ImportClone?; assert log[i].cmd.ImportClone?; }
  }

  lemma RecordSnoc(log: seq<Call>)
    requires log != []
    ensures var n := |log| - 1; SomeRecord(log) <==> SomeRecord(log[..n]) || (log[n].cmd.WriteState? && log[n].ok)
  {
    var n, init := |log| - 1, log[..|log| - 1];
    if SomeRecord(log) { var i :| 0 <= i < |log| && log[i].cmd.WriteState? && log[i].ok; if i < n { assert init[i] == log[i]; } }
    if SomeRecord(init) { var i :| 0 <= i < |init| && init[i].cmd.WriteState? && init[i].ok; assert log[i] == init[i]; }
  }

  lemma MountSnoc(log: seq<Call>)
    requires log != []
    ensures forall ok :: SomeMount(log, ok) <==> SomeMount(log[..|log| - 1], ok) || (log[|log| - 1].cmd.Mount? && log[|log| - 1].ok == ok)
  {
    var n, init := |log| - 1, log[..|log| - 1];
    forall ok ensures SomeMount(log, ok) <==> SomeMount(init, ok) || (log[n].cmd.Mount? && log[n].ok == ok) {
      if SomeMount(init, ok) { var i :| 0 <= i < n && init[i].cmd.Mount? && init[i].ok == ok; assert log[i] == init[i]; }
      if SomeMount(log, ok) { var i :| 0 <= i <= n && log[i].cmd.Mount? && log[i].ok == ok; if i < n { assert log[i] == init[i]; } }
    }
  }

  lemma LookSnoc(log: seq<Call>)
    requires log != []
    ensures var c := log[|log| - 1]; LastLookFailed(log) <==> if c.cmd.Exists? then !c.ok else LastLookFailed(log[..|log| - 1])
  {
    var n, init := |log| - 1, log[..|log| - 1];
    if LastLookFailed(log) {
      var i :| 0 <= i <= n && log[i].cmd.Exists? && !log[i].ok && forall j :: i < j < |log| ==> !log[j].cmd.Exists?;
      if i < n { assert init[i] == log[i] && forall j :: i < j < n ==> init[j] == log[j]; }
    }
    if LastLookFailed(init) && !log[n].cmd.Exists? {
      var i :| 0 <= i < n && init[i].cmd.Exists? && !init[i].ok && forall j :: i < j < n ==> !init[j].cmd.Exists?;
      assert log[i] == init[i] && forall j :: i < j < n ==> log[j] == init[j];
    }
  }

  // ---------------------------------------------------------------------------
  // Cleanups leave the tally alone
  // ---------------------------------------------------------------------------

  predicate Housekeeping(cmd: Cmd) {
    cmd.Umount? || cmd.LazyUmount? || cmd.ListMounts? || cmd.ReadState? || cmd.RmState? || cmd.RmTree? || cmd.Deactivate? || cmd.Remove?
  }

  /** From a to b only commands of a cleanup were run. */
  predicate Tidies(a: Run, b: Run) {
    a.log <= b.log && forall i :: |a.log| <= i < |b.log| ==> Housekeeping(b.log[i].cmd)
  }

  lemma TidiesDo(o: Oracle, r: Run, cmd: Cmd)
    requires Housekeeping(cmd)
    ensures Tidies(r, Do(o, r, cmd).0)
  {
  }

  lemma TidiesJoin(a: Run, b: Run, c: Run)
    requires Tidies(a, b) && Tidies(b, c)
    ensures Tidies(a, c)
  {
    forall i | |a.log| <= i < |c.log| ensures Housekeeping(c.log[i].cmd) {
      if i < |b.log| { assert c.log[i] == b.log[i]; }
    }
  }

  lemma TryUmountTidies(o: Oracle, r: Run, t: string)
    ensures Tidies(r, TryUmount(o, r, t))
  {
    hide Do, Tidies;
    var u := Do(o, r, Umount(t));
    TidiesDo(o, r, Umount(t));
    TidiesDo(o, u.0, LazyUmount(t));
    if !u.1 { TidiesJoin(r, u.0, Do(o, u.0, LazyUmount(t)).0); }
  }

  lemma {:induction false} UmountAllTidies(o: Oracle, r: Run, ts: seq<string>)
    ensures Tidies(r, UmountAll(o, r, ts))
    decreases |ts|
  {
    if ts != [] {
      hide TryUmount, Tidies;
      var b := if ts[0] == "" then r else TryUmount(o, r, ts[0]);
      assert Tidies(r, b) by { if ts[0] == "" { TidiesRefl(r); } else { TryUmountTidies(o, r, ts[0]); } }
      UmountAllTidies(o, b, ts[1..]);
      TidiesJoin(r, b, UmountAll(o, b, ts[1..]));
    }
  }

  lemma TidiesRefl(r: Run)
    ensures Tidies(r, r)
  {
  }

  lemma DetachTreeTidies(o: Oracle, r: Run, m: string)
    ensures Tidies(r, DetachTree(o, r, m))
  {
    hide Do, TryUmount, UmountAll, Tidies;
    var l := Do(o, r, ListMounts);
    TidiesDo(o, r, ListMounts);
    TryUmountTidies(o, l.0, m);
    UmountAllTidies(o, l.0, DetachOrderOf(l.0, m));
    TidiesJoin(r, l.0, DetachTree(o, r, m));
  }

  function DetachOrderOf(r: Run, m: string): seq<string> { GuestMounts.DetachOrder(r.g.mounts, m) }

  lemma DropVgTidies(o: Oracle, r: Run, v: string)
    ensures Tidies(r, DropVg(o, r, v).0)
  {
    hide Do, Tidies;
    var d := Do(o, r, Deactivate(v));
    TidiesDo(o, r, Deactivate(v));
    TidiesDo(o, d.0, Remove(v));
    if d.1 { TidiesJoin(r, d.0, Do(o, d.0, Remove(v)).0); }
  }

  lemma ForgetTidies(o: Oracle, a: Run, r: Run, m: string, strict: bool)
    requires Tidies(a, r)
    ensures Tidies(a, Forget(o, r, m, strict).0)
  {
    hide Do, Tidies;
    TidiesDo(o, r, RmState(m));
    TidiesJoin(a, r, Do(o, r, RmState(m)).0);
  }

  lemma ReleaseVgTidies(o: Oracle, r: Run, m: string, strict: bool)
    ensures Tidies(r, ReleaseVg(o, r, m, strict).0)
  {
    hide Do, Tidies, TryUmount, DropVg, DetachTree, Forget;
    TryUmountTidies(o, r, m);
    var c := Do(o, r, ReadState(m)).0;
    TidiesDo(o, r, ReadState(m));
    var t := TryUmount(o, c, m);
    TryUmountTidies(o, c, m);
    TidiesJoin(r, c, t);
    ForgetTidies(o, r, t, m, strict);
    if m in r.g.files {
      var d := DetachTree(o, c, m);
      DetachTreeTidies(o, c, m);
      TidiesJoin(r, c, d);
      var v := DropVg(o, d, r.g.files[m]).0;
      DropVgTidies(o, d, r.g.files[m]);
      TidiesJoin(r, d, v);
      ForgetTidies(o, r, v, m, strict);
    }
  }

  lemma {:induction false} RmTriesTidies(o: Oracle, r: Run, m: string, tries: nat)
    ensures Tidies(r, RmTries(o, r, m, tries).0)
    decreases tries
  {
    if tries > 0 {
      hide Do, Tidies;
      var t := Do(o, r, RmTree(m));
      TidiesDo(o, r, RmTree(m));
      RmTriesTidies(o, t.0, m, tries - 1);
      TidiesJoin(r, t.0, RmTries(o, t.0, m, tries - 1).0);
    }
  }

  lemma CleanupTidies(o: Oracle, r: Run, m: string, strict: bool)
    ensures Tidies(r, Cleanup(o, r, m, strict).0)
  {
    hide Tidies, ReleaseVg, RmTries;
    var a := ReleaseVg(o, r, m, strict);
    ReleaseVgTidies(o, r, m, strict);
    RmTriesTidies(o, a.0, m, RM_TRIES);
    TidiesJoin(r, a.0, RmTries(o, a.0, m, RM_TRIES).0);
  }

  lemma {:induction false} TidyingIsNotCounted(lvm: bool, log: seq<Call>, more: seq<Call>)
    requires log <= more && (forall i :: |log| <= i < |more| ==> Housekeeping(more[i].cmd))
    requires lvm ==> Tallied(lvm, log).imported
    ensures Tallied(lvm, more) == Tallied(lvm, log)
    decreases |more|
  {
    if |more| == |log| {
      assert more == log;
    } else {
      TidyingIsNotCounted(lvm, log, more[..|more| - 1]);
    }
  }

  lemma CleanupNotCounted(o: Oracle, r: Run, job: Job, strict: bool)
    requires var lvm := job.device == Some(Lvm); lvm ==> Tallied(lvm, r.log).imported
    ensures var lvm := job.device == Some(Lvm); Tallied(lvm, Cleanup(o, r, job.mnt, strict).0.log) == Tallied(lvm, r.log)
  {
    hide Tallied, Cleanup;
    CleanupTidies(o, r, job.mnt, strict);
    TidyingIsNotCounted(job.device == Some(Lvm), r.log, Cleanup(o, r, job.mnt, strict).0.log);
  }

  lemma Counted(lvm: bool, o: Oracle, r: Run, cmd: Cmd)
    ensures var d := Do(o, r, cmd); Tallied(lvm, d.0.log) == Count(lvm, Tallied(lvm, r.log), Call(r.g, cmd, d.1)) && |d.0.log| == |r.log| + 1
  {
    hide After, Allowed;
  }

  // ---------------------------------------------------------------------------
  // Cloning and mounting
  // ---------------------------------------------------------------------------

  /** No command of the restore so far has failed for good. */
  predicate Fine(t: Tally) { !t.broken && (t.unmounted ==> t.mounted) && !t.lost }

  lemma DropCounted(o: Oracle, r: Run, v: string)
    requires var t := Tallied(true, r.log); !t.imported && !t.broken
    ensures var d := DropVg(o, r, v); Tallied(true, d.0.log) == Tallied(true, r.log).(broken := !d.1)
  {
    hide Do, Tallied;
    var d := Do(o, r, Deactivate(v));
    Counted(true, o, r, Deactivate(v));
    Counted(true, o, d.0, Remove(v));
  }

  lemma ImportCounted(o: Oracle, r: Run, m: string, v: string)
    requires !Tallied(true, r.log).broken
    ensures var i := ImportAndRecord(o, r, m, v); var t := Tallied(true, r.log); Tallied(true, i.0.log) == t.(imported := true, recorded := t.recorded || i.1, broken := !i.1)
  {
    hide Do, Tallied;
    var i := Do(o, r, ImportClone(v));
    Counted(true, o, r, ImportClone(v));
    var w := Do(o, i.0, WriteState(m, v));
    Counted(true, o, i.0, WriteState(m, v));
    var d := Do(o, w.0, Deactivate(v));
    Counted(true, o, w.0, Deactivate(v));
    Counted(true, o, d.0, Remove(v));
  }

  /** Cloning ends with the clone recorded, or a fatal command has failed. */
  lemma CloneCounted(o: Oracle, r: Run, job: Job)
    requires var t := Tallied(true, r.log); !t.imported && !t.broken
    ensures var c := Clone(o, r, job); var t, t' := Tallied(true, r.log), Tallied(true, c.0.log);
            if c.1 then t' == t.(imported := true, recorded := true) else t' == t.(imported := t'.imported, broken := true)
  {
    hide Do, Tallied, DropVg, ImportAndRecord, CloneName;
    var v := CloneName(job.serial);
    var stale := Do(o, r, HasVg(v));
    Counted(true, o, r, HasVg(v));
    DropCounted(o, stale.0, v);
    var cleared := if stale.1 then DropVg(o, stale.0, v) else (stale.0, true);
    if cleared.1 { ImportCounted(o, cleared.0, job.mnt, v); }
  }

  lemma {:induction false} MountableIsUsable(lvs: seq<Lv>)
    ensures Mountable(lvs) == |Usable(lvs)| && (Usable(lvs) != [] <==> HasFilesystem(lvs))
  {
    if lvs != [] {
      MountableFirst(lvs);
      MountableIsUsable(lvs[1..]);
      if lvs[0].filesystem { assert HasFilesystem(lvs); }
      if HasFilesystem(lvs[1..]) { var i :| 0 <= i < |lvs| - 1 && lvs[1..][i].filesystem; assert lvs[i + 1].filesystem; }
      if HasFilesystem(lvs) { var i :| 0 <= i < |lvs| && lvs[i].filesystem; if i > 0 { assert lvs[1..][i - 1].filesystem; } }
    }
  }

  lemma {:induction false} MountableFirst(lvs: seq<Lv>)
    requires lvs != []
    ensures Mountable(lvs) == (if lvs[0].filesystem then 1 else 0) + Mountable(lvs[1..])
  {
    var n := |lvs| - 1;
    if n > 0 {
      MountableFirst(lvs[..n]);
      assert lvs[..n][1..] == lvs[1..][..n - 1];
    }
  }

  /** The targets of the volumes in lvs, when all of them together are job.lvs. */
  function TargetsOf(job: Job, lvs: seq<Lv>): seq<string> {
    if Mountable(job.lvs) != 1 then Below(job.mnt, Usable(lvs)) else seq(|Usable(lvs)|, _ => job.mnt)
  }

  /** What mounting the volumes adds to the tally; a failing mkdir is fatal. */
  predicate Mounts(t: Tally, t': Tally, usable: bool, n: nat, k: nat, aborted: bool) {
    && n <= k && (aborted <==> t'.broken) && t'.imported == t.imported && t'.lost == t.lost && t'.looks == t.looks
    && (t'.mounted <==> t.mounted || k > n)
    && (t.unmounted ==> t'.unmounted) && (k > n ==> usable)
    && (!aborted && k == n && usable ==> t'.unmounted)
  }

  lemma {:induction false} MountLvsCounted(o: Oracle, r: Run, job: Job, lvs: seq<Lv>, n: nat)
    requires !Tallied(true, r.log).broken
    ensures var k := MountLvs(o, r, job, lvs, n);
            && Mounts(Tallied(true, r.log), Tallied(true, k.0.log), HasFilesystem(lvs), n, k.1, k.2)
            && (!k.2 ==> Tallied(true, k.0.log).tried == Tallied(true, r.log).tried + TargetsOf(job, lvs))
    decreases |lvs|
  {
    hide Do, Tallied, Mountable, HasFilesystem, TargetsOf, LvTarget;
    UsableStep(job, lvs);
    if lvs != [] {
      if !lvs[0].filesystem {
        MountLvsCounted(o, r, job, lvs[1..], n);
      } else {
        var t := LvTarget(job, lvs[0]);
        var d := if Mountable(job.lvs) == 1 then (r, true) else Do(o, r, Mkdir(t));
        Counted(true, o, r, Mkdir(t));
        if d.1 {
          var k := Do(o, d.0, Mount(t));
          var n1 := if k.1 then n + 1 else n;
          Counted(true, o, d.0, Mount(t));
          MountLvsCounted(o, k.0, job, lvs[1..], n1);
          assert MountLvs(o, r, job, lvs, n) == MountLvs(o, k.0, job, lvs[1..], n1);
          Regroup(Tallied(true, r.log).tried, t, TargetsOf(job, lvs[1..]));
        }
      }
    }
  }

  lemma Regroup(a: seq<string>, t: string, b: seq<string>)
    ensures a + [t] + b == a + ([t] + b)
  {
  }

  lemma UsableStep(job: Job, lvs: seq<Lv>)
    ensures lvs == [] ==> TargetsOf(job, lvs) == [] && !HasFilesystem(lvs)
    ensures lvs != [] && lvs[0].filesystem ==> TargetsOf(job, lvs) == [LvTarget(job, lvs[0])] + TargetsOf(job, lvs[1..]) && HasFilesystem(lvs)
    ensures lvs != [] && !lvs[0].filesystem ==> TargetsOf(job, lvs) == TargetsOf(job, lvs[1..]) && (HasFilesystem(lvs) <==> HasFilesystem(lvs[1..]))
  {
    if lvs != [] && !lvs[0].filesystem {
      if HasFilesystem(lvs[1..]) { var i :| 0 <= i < |lvs| - 1 && lvs[1..][i].filesystem; assert lvs[i + 1].filesystem; }
      if HasFilesystem(lvs) { var i :| 0 <= i < |lvs| && lvs[i].filesystem; assert lvs[1..][i - 1].filesystem; }
    }
  }

  lemma OpenCounted(o: Oracle, r: Run, job: Job)
    requires var t := Tallied(true, r.log); t.imported && Fine(t) && !t.mounted && t.tried == [] && job.device == Some(Lvm)
    ensures var c := OpenClone(o, r, job); var t := Tallied(true, c.0.log);
            && t.imported && !t.lost && t.looks == Tallied(true, r.log).looks
            && (c.1 ==> Fine(t) && HasFilesystem(job.lvs) && t.tried == TargetsOf(job, job.lvs))
            && (!c.1 ==> !HasFilesystem(job.lvs) || t.broken || (t.unmounted && !t.mounted))
  {
    hide Do, Tallied, MountLvs, Cleanup, CloneName, TargetsOf, HasFilesystem;
    var v := CloneName(job.serial);
    var a := Do(o, r, Activate(v));
    Counted(true, o, r, Activate(v));
    CleanupNotCounted(o, a.0, job, true);
    var l := Do(o, a.0, ListLvs(v));
    Counted(true, o, a.0, ListLvs(v));
    CleanupNotCounted(o, l.0, job, true);
    if a.1 && l.1 {
      var k := MountLvs(o, l.0, job, job.lvs, 0);
      MountLvsCounted(o, l.0, job, job.lvs, 0);
      CleanupNotCounted(o, k.0, job, true);
      assert [] + TargetsOf(job, job.lvs) == TargetsOf(job, job.lvs);
    }
  }

  /** Up to the mounts: success, or one of the reasons to fail. */
  lemma PrepareCounted(o: Oracle, r: Run, job: Job)
    requires job.device.Some? && Tallied(job.device == Some(Lvm), r.log) == Tally(false, false, false, false, false, false, [], 0)
    ensures var lvm := job.device == Some(Lvm); var c := Prepare(o, r, job); var t := Tallied(lvm, c.0.log);
            && !t.lost && t.looks == 0
            && (c.1 ==> Fine(t) && (lvm ==> t.imported && job.tools && HasFilesystem(job.lvs)) && t.tried == if lvm then TargetsOf(job, job.lvs) else [job.mnt])
            && (!c.1 ==> (lvm && (!job.tools || !HasFilesystem(job.lvs))) || t.broken || (t.unmounted && !t.mounted))
  {
    hide Do, Tallied, Clone, OpenClone, TargetsOf, HasFilesystem;
    if job.device == Some(Lvm) {
      var c := Clone(o, r, job);
      CloneCounted(o, r, job);
      if c.1 { OpenCounted(o, c.0, job); }
    } else {
      Counted(false, o, r, Mount(job.mnt));
    }
  }

  // ---------------------------------------------------------------------------
  // Finding and copying the source
  // ---------------------------------------------------------------------------

  /** The case pattern catches exactly the paths with a parent-directory component. */
  lemma TraversesIsDotDot(path: string)
    ensures Traverses(path) <==> DotDot(path)
  {
    hide GuestOs.Contains, GuestOs.Occurs;
    GuestOs.ContainsAt(path, "/../");
    if Traverses(path) {
      if HasPrefix(path, "../") {
        assert path[0..2] == path[..3][..2] == ".." && path[2] == path[..3][2];
        assert DotDotAt(path, 0);
      } else if path == ".." {
        assert DotDotAt(path, 0);
      } else if HasSuffix(path, "/..") {
        var n := |path|;
        assert path[n - 2..n] == path[n - 3..][1..] && path[n - 3] == path[n - 3..][0];
        assert DotDotAt(path, n - 2);
      } else {
        var i: nat :| GuestOs.Occurs(path, "/../", i);
        OccursIs(path, i);
        assert DotDotAt(path, i + 1);
      }
    }
    if DotDot(path) {
      var i: nat :| i < |path| && DotDotAt(path, i);
      DotDotTraverses(path, i);
    }
  }

  lemma DotDotTraverses(path: string, i: nat)
    requires i < |path| && DotDotAt(path, i)
    ensures Traverses(path)
  {
    hide GuestOs.Contains, GuestOs.Occurs;
    GuestOs.ContainsAt(path, "/../");
    assert path[i] == path[i..i + 2][0] == '.' && path[i + 1] == path[i..i + 2][1] == '.';
    if i == 0 && |path| == 2 {
      assert path == "..";
    } else if i == 0 {
      assert path[..3] == "../";
    } else if i + 2 == |path| {
      assert path[|path| - 3..] == "/..";
    } else {
      assert path[i - 1..i - 1 + 4] == "/../";
      assert GuestOs.Occurs(path, "/../", i - 1) by { OccursIf(path, i - 1); }
    }
  }

  lemma OccursIs(path: string, i: nat)
    requires GuestOs.Occurs(path, "/../", i)
    ensures i + 4 <= |path| && path[i] == '/' && path[i + 3] == '/' && path[i + 1..i + 3] == ".."
  {
    var p := path[i..i + 4];
    assert p == "/../" && p[0] == path[i] && p[1] == path[i + 1] && p[2] == path[i + 2] && p[3] == path[i + 3];
  }

  lemma OccursIf(path: string, i: nat)
    requires i + 4 <= |path| && path[i..i + 4] == "/../"
    ensures GuestOs.Occurs(path, "/../", i)
  {
  }

  lemma {:induction false} FindSourceAdds(o: Oracle, r: Run, job: Job, lvs: seq<Lv>)
    ensures var f := FindSource(o, r, job, lvs); r.log <= f.0.log && SearchAdds(job, lvs, f.0.log[|r.log|..], f.1)
    decreases |lvs|
  {
    if lvs != [] {
      var path := job.mnt + "/" + lvs[0].name + "/." + job.source;
      var e := Do(o, r, Exists(path));
      var f := FindSource(o, r, job, lvs);
      if e.1 {
        assert f.0.log[|r.log|..] == [Call(r.g, Exists(path), true)];
      } else {
        FindSourceAdds(o, e.0, job, lvs[1..]);
        var s := f.0.log[|e.0.log|..];
        assert f.0.log[|r.log|..] == [Call(r.g, Exists(path), false)] + s;
        hide FindSource, Do;
        SearchAddsOne(job, lvs, Call(r.g, Exists(path), false), s, f.1);
      }
    }
  }

  /** One look in vain in front of a search. */
  lemma SearchAddsOne(job: Job, lvs: seq<Lv>, look: Call, s: seq<Call>, found: Option<string>)
    requires lvs != [] && SearchAdds(job, lvs[1..], s, found) && !look.ok
    requires look.cmd == Exists(SourceOn(job, lvs[0]))
    ensures SearchAdds(job, lvs, [look] + s, found)
  {
    hide SourceOn;
    var more, rest := [look] + s, lvs[1..];
    forall i: nat | i < |more| ensures LookedAt(job, lvs, more, found, i) {
      if i > 0 {
        assert LookedAt(job, rest, s, found, i - 1);
        assert more[i] == s[i - 1] && rest[i - 1] == lvs[i];
      }
    }
    if found.Some? { assert rest[|s| - 1] == lvs[|more| - 1]; }
  }

  lemma {:induction false} FindSourceCounted(o: Oracle, r: Run, job: Job, lvs: seq<Lv>, lvm: bool)
    ensures var f := FindSource(o, r, job, lvs); var t := Tallied(lvm, r.log);
            Tallied(lvm, f.0.log) == t.(lost := if f.1.Some? then false else lvs != [] || t.lost, looks := Tallied(lvm, f.0.log).looks)
    decreases |lvs|
  {
    if lvs != [] {
      hide Do, Tallied;
      var path := job.mnt + "/" + lvs[0].name + "/." + job.source;
      Counted(lvm, o, r, Exists(path));
      FindSourceCounted(o, Do(o, r, Exists(path)).0, job, lvs[1..], lvm);
    }
  }

  /** From the mounts to the exit: success unless a reason to fail has turned up. */
  lemma CopyCounted(o: Oracle, r: Run, job: Job)
    requires var lvm := job.device == Some(Lvm); var t := Tallied(lvm, r.log); Fine(t) && (lvm ==> t.imported && HasFilesystem(job.lvs))
    ensures var lvm := job.device == Some(Lvm); var c := CopyBack(o, r, job); var t, t' := Tallied(lvm, r.log), Tallied(lvm, c.0.log);
            && t'.tried == t.tried
            && (c.1 ==> Fine(t') && (job.source != "" ==> !DotDot(job.source)))
            && (!c.1 ==> job.source != "" && (DotDot(job.source) || t'.broken || t'.lost))
  {
    hide Do, Tallied, Cleanup, FindSource, Traverses, Mountable, DotDot;
    var lvm := job.device == Some(Lvm);
    TraversesIsDotDot(job.source);
    CleanupNotCounted(o, r, job, true);
    if job.source != "" && !Traverses(job.source) {
      var f := if lvm && Mountable(job.lvs) > 1 then FindSource(o, r, job, job.lvs) else (r, Some(job.mnt));
      FindSourceCounted(o, r, job, job.lvs, lvm);
      CleanupNotCounted(o, f.0, job, true);
      if f.1.Some? {
        var path := f.1.value + "/." + job.source;
        var e := Do(o, f.0, Exists(path));
        Counted(lvm, o, f.0, Exists(path));
        CleanupNotCounted(o, e.0, job, true);
        var c := Do(o, e.0, Rsync(path));
        Counted(lvm, o, e.0, Rsync(path));
        CleanupNotCounted(o, c.0, job, true);
        CleanupNotCounted(o, c.0, job, false);
      }
    }
  }

  /** The inputs allow the run to succeed. */
  predicate Possible(job: Job) {
    && job.device.Some? && (job.device == Some(Lvm) ==> job.tools && HasFilesystem(job.lvs))
    && (job.source != "" ==> !DotDot(job.source))
  }

  lemma RestoreCounted(o: Oracle, g: Guest, job: Job)
    ensures var e := Restore(o, Run(g, []), job); var t := Tallied(job.device == Some(Lvm), e.0.log);
            && (e.1 ==> Possible(job) && Fine(t) && t.tried == if job.device == Some(Lvm) then TargetsOf(job, job.lvs) else [job.mnt])
            && (!e.1 ==> !Possible(job) || t.broken || (t.unmounted && !t.mounted) || t.lost)
  {
    hide Do, Tallied, Prepare, CopyBack, TargetsOf, HasFilesystem, DotDot;
    var lvm, r := job.device == Some(Lvm), Run(g, []);
    assert Tallied(lvm, []) == Tally(false, false, false, false, false, false, [], 0) by { Unread(lvm); }
    if job.device.Some? {
      var d := Do(o, r, Mkdir(job.mnt));
      Counted(lvm, o, r, Mkdir(job.mnt));
      if d.1 {
        PrepareCounted(o, d.0, job);
        var p := Prepare(o, d.0, job);
        if p.1 { CopyCounted(o, p.0, job); }
      }
    }
  }

  lemma Unread(lvm: bool)
    ensures Tallied(lvm, []) == Tally(false, false, false, false, false, false, [], 0)
  {
  }

  // ---------------------------------------------------------------------------
  // Main results
  // ---------------------------------------------------------------------------

  /**
   Exact, for every guest and whatever its commands report: a restore run exits with success if and
   only if there is a device, and for LVM the tools and a volume with a filesystem; the source path
   has no parent-directory component; no fatal command failed; some mount succeeded if any failed;
   and the last look for the source path was not in vain.
   */
  lemma RestoreSucceedsExactly(o: Oracle, g: Guest, job: Job)
    ensures var e := Restore(o, Run(g, []), job); var log := e.0.log;
            e.1 <==> && job.device.Some? && (job.device == Some(Lvm) ==> job.tools && HasFilesystem(job.lvs))
                     && (job.source != "" ==> !DotDot(job.source))
                     && !FatalFailed(job, log) && (SomeMount(log, false) ==> SomeMount(log, true)) && !LastLookFailed(log)
  {
    hide Restore, Tallied, FatalFailed, SomeMount, LastLookFailed, HasFilesystem, DotDot;
    RestoreCounted(o, g, job);
    TallyMeans(job, Restore(o, Run(g, []), job).0.log);
  }

  /** A successful run has tried to mount every volume with a filesystem, once, in order, each where it belongs. */
  lemma MountsEveryVolume(o: Oracle, g: Guest, job: Job)
    ensures var e := Restore(o, Run(g, []), job); e.1 ==> Tried(e.0.log) == Targets(job)
  {
    hide Restore, Tallied, FatalFailed, SomeMount, LastLookFailed, HasFilesystem, DotDot, Mountable;
    RestoreCounted(o, g, job);
    TallyMeans(job, Restore(o, Run(g, []), job).0.log);
    MountableIsUsable(job.lvs);
  }

  /** The last stretch of a successful automatic run: the search, one look, one copy, one cleanup. */
  lemma CopyBackCopies(o: Oracle, r: Run, job: Job)
    requires job.source != "" && CopyBack(o, r, job).1 && Still(r.log)
    ensures var e := CopyBack(o, r, job).0; Copied(job, e.log) && Leaves(o, e, job.mnt, false, true)
  {
    hide Traverses, Cleanup, Mountable, FindSource, Tidies, Copied;
    var multi := job.device == Some(Lvm) && Mountable(job.lvs) > 1;
    MountableIsUsable(job.lvs);
    var f := if multi then FindSource(o, r, job, job.lvs) else (r, Some(job.mnt));
    FindSourceAdds(o, r, job, job.lvs);
    var path := f.1.value + "/." + job.source;
    var e := Do(o, f.0, Exists(path));
    var c := Do(o, e.0, Rsync(path));
    var end := Cleanup(o, c.0, job.mnt, false).0;
    CleanupTidies(o, c.0, job.mnt, false);
    assert Leaves(o, end, job.mnt, false, true) by { LeavesBehindCopy(o, c.0, job.mnt); }
    assert !multi ==> r.log[|r.log|..] == [];
    Assembled(job, r.log, f.0.log, Call(f.0.g, Exists(path), true), Call(e.0.g, Rsync(path), true), c.0, end, f.1.value);
  }

  lemma Assembled(job: Job, before: seq<Call>, found: seq<Call>, look: Call, copy: Call, c: Run, end: Run, head: string)
    requires Still(before) && before <= found && Searches(job, found[|before|..], head)
    requires look.cmd == Exists(head + "/." + job.source) && look.ok && copy.cmd == Rsync(head + "/." + job.source) && copy.ok
    requires c.log == found + [look] + [copy] && Tidies(c, end)
    ensures Copied(job, end.log)
  {
    hide Searches;
    var search, rest := found[|before|..], end.log[|c.log|..];
    assert end.log == before + search + [look, copy] + rest;
    assert Still(rest);
    assert CopiedAs(job, end.log, before, search, look, copy, rest, head);
  }

  /** The run ends with a whole cleanup, with errexit on or off, right behind a copy or not. */
  ghost predicate Leaves(o: Oracle, e: Run, mnt: string, strict: bool, copied: bool) {
    exists r: Run :: r.log <= e.log && e == Cleanup(o, r, mnt, strict).0 && (copied ==> r.log != [] && r.log[|r.log| - 1].cmd.Rsync?)
  }

  lemma LeavesBehind(o: Oracle, r: Run, mnt: string, strict: bool)
    ensures Leaves(o, Cleanup(o, r, mnt, strict).0, mnt, strict, false)
  {
    hide Cleanup;
    CleanupTidies(o, r, mnt, strict);
  }

  lemma LeavesBehindCopy(o: Oracle, r: Run, mnt: string)
    requires r.log != [] && r.log[|r.log| - 1].cmd.Rsync?
    ensures Leaves(o, Cleanup(o, r, mnt, false).0, mnt, false, true)
  {
    hide Cleanup;
    CleanupTidies(o, r, mnt, false);
  }

  /**
   For every guest and whatever its commands report: an automatic run that exits with success has
   searched the volumes in order (if there are several), looked for the source path on the one it
   found and copied that very path, once and successfully, and then cleaned up.
   */
  lemma AutomaticRunCopies(o: Oracle, g: Guest, job: Job)
    requires job.source != ""
    ensures var e := Restore(o, Run(g, []), job); e.1 ==> Copied(job, e.0.log) && Leaves(o, e.0, job.mnt, false, true)
  {
    hide Do, Tallied, Prepare, CopyBack, Copied, Leaves;
    var lvm, r := job.device == Some(Lvm), Run(g, []);
    if Restore(o, r, job).1 {
      var d := Do(o, r, Mkdir(job.mnt));
      Counted(lvm, o, r, Mkdir(job.mnt));
      assert Tallied(lvm, d.0.log) == Tally(false, false, false, false, false, false, [], 0) by { Unread(lvm); }
      PrepareCounted(o, d.0, job);
      var p := Prepare(o, d.0, job);
      TallyMeans(job, p.0.log);
      CopyBackCopies(o, p.0, job);
    }
  }

  predicate NoRsync(log: seq<Call>) { forall i :: 0 <= i < |log| ==> !log[i].cmd.Rsync? }

  /** Call k is the only copy. */
  predicate OnlyCopy(log: seq<Call>, k: nat) {
    k < |log| && log[k].cmd.Rsync? && forall i :: 0 <= i < |log| && log[i].cmd.Rsync? ==> i == k
  }

  /** There is no copy, or one, whose outcome is that of the run. */
  ghost predicate CopyDecides(log: seq<Call>, ok: bool) {
    NoRsync(log) || exists k: nat :: OnlyCopy(log, k) && log[k].ok == ok
  }

  lemma TidiedNoRsync(o: Oracle, r: Run, mnt: string, strict: bool)
    ensures var e := Cleanup(o, r, mnt, strict).0;
            && (NoRsync(r.log) ==> NoRsync(e.log))
            && (r.log != [] && r.log[|r.log| - 1].cmd.Rsync? && NoRsync(r.log[..|r.log| - 1]) ==>
                  OnlyCopy(e.log, |r.log| - 1) && e.log[|r.log| - 1] == r.log[|r.log| - 1])
  {
    hide Cleanup;
    CleanupTidies(o, r, mnt, strict);
    var e, n := Cleanup(o, r, mnt, strict).0, |r.log|;
    forall i | 0 <= i < |e.log| && e.log[i].cmd.Rsync? ensures i < n && r.log[i].cmd.Rsync? && (n > 0 && NoRsync(r.log[..n - 1]) ==> i == n - 1) {
      if i < n - 1 { assert e.log[i] == r.log[i] == r.log[..n - 1][i]; }
    }
  }

  lemma CopyBackDecides(o: Oracle, r: Run, job: Job)
    requires Still(r.log)
    ensures var c := CopyBack(o, r, job);
            && (job.source == "" || Traverses(job.source) ==> NoRsync(c.0.log))
            && CopyDecides(c.0.log, c.1)
  {
    hide Traverses, Cleanup, Mountable, FindSource;
    assert NoRsync(r.log);
    TidiedNoRsync(o, r, job.mnt, true);
    if job.source != "" && !Traverses(job.source) {
      var f := if job.device == Some(Lvm) && Mountable(job.lvs) > 1 then FindSource(o, r, job, job.lvs) else (r, Some(job.mnt));
      assert NoRsync(f.0.log) by { SearchNoRsync(o, r, job); }
      TidiedNoRsync(o, f.0, job.mnt, true);
      if f.1.Some? { TransferDecides(o, f.0, job, f.1.value + "/." + job.source); }
    }
  }

  lemma SearchNoRsync(o: Oracle, r: Run, job: Job)
    requires NoRsync(r.log)
    ensures NoRsync(FindSource(o, r, job, job.lvs).0.log)
  {
    hide FindSource;
    FindSourceAdds(o, r, job, job.lvs);
    var log := FindSource(o, r, job, job.lvs).0.log;
    forall i | 0 <= i < |log| ensures !log[i].cmd.Rsync? {
      if i < |r.log| {
        assert log[i] == r.log[i];
      } else {
        assert LookedAt(job, job.lvs, log[|r.log|..], FindSource(o, r, job, job.lvs).1, i - |r.log|);
        assert log[|r.log|..][i - |r.log|] == log[i];
      }
    }
  }

  lemma TransferDecides(o: Oracle, f: Run, job: Job, path: string)
    requires NoRsync(f.log)
    ensures var e := Do(o, f, Exists(path)); var c := Do(o, e.0, Rsync(path));
            && NoRsync(Bail(o, e.0, job).0.log)
            && CopyDecides(Cleanup(o, c.0, job.mnt, !c.1).0.log, c.1)
  {
    hide Cleanup;
    var e := Do(o, f, Exists(path));
    assert NoRsync(e.0.log);
    TidiedNoRsync(o, e.0, job.mnt, true);
    var c := Do(o, e.0, Rsync(path));
    assert c.0.log[..|c.0.log| - 1] == e.0.log;
    TidiedNoRsync(o, c.0, job.mnt, !c.1);
    assert OnlyCopy(Cleanup(o, c.0, job.mnt, !c.1).0.log, |e.0.log|);
  }

  /**
   In every run, successful or not: there is at most one copy, its outcome is that of the run, and
   there is none in manual mode or behind a parent-directory component.
   */
  lemma CopyDecidesExit(o: Oracle, g: Guest, job: Job)
    ensures var e := Restore(o, Run(g, []), job);
            && CopyDecides(e.0.log, e.1)
            && (job.source == "" || DotDot(job.source) ==> NoRsync(e.0.log))
  {
    hide Do, Tallied, Prepare, CopyBack, Traverses, DotDot, NoRsync;
    var lvm, r := job.device == Some(Lvm), Run(g, []);
    TraversesIsDotDot(job.source);
    var d := Do(o, r, Mkdir(job.mnt));
    assert NoRsync([]) && NoRsync(d.0.log) by { MkdirNoRsync(o, g, job.mnt); }
    if job.device.Some? && d.1 {
      Counted(lvm, o, r, Mkdir(job.mnt));
      assert Tallied(lvm, d.0.log) == Tally(false, false, false, false, false, false, [], 0) by { Unread(lvm); }
      PrepareCounted(o, d.0, job);
      var p := Prepare(o, d.0, job);
      TallyMeans(job, p.0.log);
      assert NoRsync(p.0.log) by { StillNoRsync(p.0.log); }
      if p.1 { CopyBackDecides(o, p.0, job); }
    }
  }

  lemma MkdirNoRsync(o: Oracle, g: Guest, mnt: string)
    ensures NoRsync([]) && NoRsync(Do(o, Run(g, []), Mkdir(mnt)).0.log)
  {
  }

  lemma StillNoRsync(log: seq<Call>)
    requires Still(log)
    ensures NoRsync(log)
  {
  }

  /** A run that fails although a clone was recorded or something was mounted has gone through the whole cleanup, unless a mkdir failed. */
  lemma FailedRunCleansUp(o: Oracle, g: Guest, job: Job)
    ensures var e := Restore(o, Run(g, []), job);
            !e.1 && (SomeRecord(e.0.log) || SomeMount(e.0.log, true)) ==>
              Leaves(o, e.0, job.mnt, true, false) || exists i :: 0 <= i < |e.0.log| && e.0.log[i].cmd.Mkdir? && !e.0.log[i].ok
  {
    hide Do, Tallied, Clone, OpenClone, CopyBack, SomeMount, SomeRecord, Leaves;
    var lvm, r := job.device == Some(Lvm), Run(g, []);
    assert Tallied(lvm, []) == Tally(false, false, false, false, false, false, [], 0) by { Unread(lvm); }
    var d := Do(o, r, Mkdir(job.mnt));
    Counted(lvm, o, r, Mkdir(job.mnt));
    var e := Restore(o, r, job);
    TallyMeans(job, e.0.log);
    if job.device.Some? && d.1 {
      PrepareCounted(o, d.0, job);
      var p := Prepare(o, d.0, job);
      if p.1 {
        CopyBackLeaves(o, p.0, job);
      } else if lvm && job.tools {
        var c := Clone(o, d.0, job);
        CloneCounted(o, d.0, job);
        if c.1 { OpenLeaves(o, c.0, job); }
      } else if !lvm {
        Counted(lvm, o, d.0, Mount(job.mnt));
      }
    }
  }

  lemma CopyBackLeaves(o: Oracle, r: Run, job: Job)
    ensures var c := CopyBack(o, r, job); !c.1 ==> Leaves(o, c.0, job.mnt, true, false)
  {
    hide Traverses, Cleanup, Mountable, FindSource, Do, Leaves;
    LeavesBehind(o, r, job.mnt, true);
    var f := if job.device == Some(Lvm) && Mountable(job.lvs) > 1 then FindSource(o, r, job, job.lvs) else (r, Some(job.mnt));
    LeavesBehind(o, f.0, job.mnt, true);
    if f.1.Some? {
      var path := f.1.value + "/." + job.source;
      var e := Do(o, f.0, Exists(path));
      LeavesBehind(o, e.0, job.mnt, true);
      LeavesBehind(o, Do(o, e.0, Rsync(path)).0, job.mnt, true);
    }
  }

  lemma OpenLeaves(o: Oracle, r: Run, job: Job)
    requires Tallied(true, r.log).imported && !Tallied(true, r.log).broken
    ensures var c := OpenClone(o, r, job);
            !c.1 ==> Leaves(o, c.0, job.mnt, true, false) || exists i :: 0 <= i < |c.0.log| && c.0.log[i].cmd.Mkdir? && !c.0.log[i].ok
  {
    hide Cleanup, CloneName, Do, Leaves, MountLvs;
    var v := CloneName(job.serial);
    var a := Do(o, r, Activate(v));
    LeavesBehind(o, a.0, job.mnt, true);
    var l := Do(o, a.0, ListLvs(v));
    LeavesBehind(o, l.0, job.mnt, true);
    var k := MountLvs(o, l.0, job, job.lvs, 0);
    LeavesBehind(o, k.0, job.mnt, true);
    if a.1 && l.1 { MkdirStops(o, l.0, job, job.lvs, 0); }
  }

  lemma {:induction false} MkdirStops(o: Oracle, r: Run, job: Job, lvs: seq<Lv>, n: nat)
    ensures var k := MountLvs(o, r, job, lvs, n); k.2 ==> |k.0.log| > 0 && k.0.log[|k.0.log| - 1].cmd.Mkdir? && !k.0.log[|k.0.log| - 1].ok
    decreases |lvs|
  {
    if lvs != [] {
      if !lvs[0].filesystem {
        MkdirStops(o, r, job, lvs[1..], n);
      } else {
        var t := LvTarget(job, lvs[0]);
        var d := if Mountable(job.lvs) == 1 then (r, true) else Do(o, r, Mkdir(t));
        if d.1 {
          var k := Do(o, d.0, Mount(t));
          MkdirStops(o, k.0, job, lvs[1..], if k.1 then n + 1 else n);
        }
      }
    }
  }

  // ---------------------------------------------------------------------------
  // A run that nothing disturbs
  // ---------------------------------------------------------------------------

  /** Whatever stood there before, the clone is made and recorded. */
  lemma BenignClone(o: Oracle, r: Run, job: Job)
    requires forall n: nat :: o(n).ok
    ensures var c := Clone(o, r, job); c.1 && CloneName(job.serial) in c.0.g.vgs && job.mnt in c.0.g.files && c.0.g.files[job.mnt] == CloneName(job.serial)
  {
    hide CloneName, DropLast, DropBelow, InsideFiles;
  }

  lemma {:induction false} BenignMounts(o: Oracle, r: Run, job: Job, lvs: seq<Lv>, n: nat)
    requires forall n: nat :: o(n).ok
    ensures var k := MountLvs(o, r, job, lvs, n);
            !k.2 && k.0.g.vgs == r.g.vgs && k.0.g.files == r.g.files && n <= k.1 && (HasFilesystem(lvs) ==> k.1 > n)
    decreases |lvs|
  {
    UsableStep(job, lvs);
    hide HasFilesystem, LvTarget, Mountable, TargetsOf;
    if lvs != [] {
      if !lvs[0].filesystem {
        BenignMounts(o, r, job, lvs[1..], n);
      } else {
        var t := LvTarget(job, lvs[0]);
        var d := if Mountable(job.lvs) == 1 then (r, true) else Do(o, r, Mkdir(t));
        var k := Do(o, d.0, Mount(t));
        BenignMounts(o, k.0, job, lvs[1..], n + 1);
      }
    }
  }

  lemma BenignOpen(o: Oracle, r: Run, job: Job)
    requires (forall n: nat :: o(n).ok) && HasFilesystem(job.lvs) && CloneName(job.serial) in r.g.vgs
    ensures var c := OpenClone(o, r, job); c.1 && c.0.g.vgs == r.g.vgs && c.0.g.files == r.g.files
  {
    hide CloneName, MountLvs, Cleanup, HasFilesystem;
    var v := CloneName(job.serial);
    var a := Do(o, r, Activate(v));
    var l := Do(o, a.0, ListLvs(v));
    BenignMounts(o, l.0, job, job.lvs, 0);
  }

  lemma BenignSearch(o: Oracle, r: Run, job: Job, lvs: seq<Lv>)
    requires (forall n: nat :: o(n).ok) && lvs != []
    ensures var f := FindSource(o, r, job, lvs); f.1.Some? && f.0.g == r.g
  {
  }

  /** The copy, and the cleanup behind it. */
  lemma BenignCopy(o: Oracle, r: Run, job: Job)
    requires (forall n: nat :: o(n).ok) && job.source != "" && !DotDot(job.source) && job.mnt != ""
    requires job.device == Some(Lvm) ==> job.lvs != []
    requires GuestCleanup.Named(r.g, job.mnt) <= r.g.vgs
    ensures var c := CopyBack(o, r, job);
            && c.1 && job.mnt !in c.0.g.files && c.0.g.vgs == r.g.vgs - GuestCleanup.Named(r.g, job.mnt)
            && (GuestCleanup.Named(r.g, job.mnt) != {} ==> forall t :: t in c.0.g.mounts ==> !GuestMounts.AtOrBelow(t, job.mnt))
  {
    hide Cleanup, FindSource, Traverses, DotDot, Mountable, GuestMounts.AtOrBelow, GuestCleanup.Named;
    TraversesIsDotDot(job.source);
    if job.lvs != [] { BenignSearch(o, r, job, job.lvs); }
    var f := if job.device == Some(Lvm) && Mountable(job.lvs) > 1 then FindSource(o, r, job, job.lvs) else (r, Some(job.mnt));
    var path := f.1.value + "/." + job.source;
    var e := Do(o, f.0, Exists(path));
    var c := Do(o, e.0, Rsync(path));
    assert c.1 && c.0.g == r.g;
    GuestCleanup.CleanupCompletes(o, c.0, job.mnt, false);
  }

  /**
   If no command fails but for what kernel and LVM insist on, every possible restore succeeds, on every
   guest, with or without a stale clone; and an automatic LVM restore leaves neither clone nor state
   file nor mount behind.
   */
  lemma BenignRunSucceeds(o: Oracle, g: Guest, job: Job)
    requires (forall n: nat :: o(n).ok) && Possible(job) && job.mnt != ""
    requires job.device != Some(Lvm) ==> GuestCleanup.Named(g, job.mnt) <= g.vgs
    ensures var e := Restore(o, Run(g, []), job);
            && e.1
            && (job.source != "" ==> Copied(job, e.0.log) && job.mnt !in e.0.g.files)
            && (job.source != "" && job.device == Some(Lvm) ==>
                  CloneName(job.serial) !in e.0.g.vgs && forall t :: t in e.0.g.mounts ==> !GuestMounts.AtOrBelow(t, job.mnt))
  {
    hide Prepare, CopyBack, CloneName, DotDot, HasFilesystem, Copied, Leaves, GuestMounts.AtOrBelow, GuestCleanup.Named;
    var d := Do(o, Run(g, []), Mkdir(job.mnt));
    assert d.1 && d.0.g == g;
    BenignPrepare(o, d.0, job);
    assert job.device == Some(Lvm) ==> job.lvs != [] by { FilesystemIsSomewhere(job.lvs); }
    if job.source != "" {
      BenignCopy(o, Prepare(o, d.0, job).0, job);
      AutomaticRunCopies(o, g, job);
    } else {
      ManualStops(o, Prepare(o, d.0, job).0, job);
    }
  }

  lemma ManualStops(o: Oracle, r: Run, job: Job)
    requires job.source == ""
    ensures CopyBack(o, r, job) == (r, true)
  {
  }

  lemma BenignPrepare(o: Oracle, r: Run, job: Job)
    requires (forall n: nat :: o(n).ok) && Possible(job)
    requires job.device != Some(Lvm) ==> GuestCleanup.Named(r.g, job.mnt) <= r.g.vgs
    ensures var p := Prepare(o, r, job);
            && p.1 && GuestCleanup.Named(p.0.g, job.mnt) <= p.0.g.vgs
            && (job.device == Some(Lvm) ==> GuestCleanup.Named(p.0.g, job.mnt) == {CloneName(job.serial)})
  {
    hide Clone, OpenClone, CloneName, DotDot, HasFilesystem;
    if job.device == Some(Lvm) {
      BenignClone(o, r, job);
      BenignOpen(o, Clone(o, r, job).0, job);
      assert CloneName(job.serial) != "" by { CloneIsNamed(job.serial); }
    }
  }

  lemma CloneIsNamed(serial: string)
    ensures CloneName(serial) != ""
  {
  }

  lemma FilesystemIsSomewhere(lvs: seq<Lv>)
    ensures HasFilesystem(lvs) ==> lvs != []
  {
  }
}
