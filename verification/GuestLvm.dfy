/** What every run of the helper script keeps, whichever of its commands fail. */
module GuestLvm {
  import opened GuestMounts
  import opened GuestScript

  // ---------------------------------------------------------------------------
  // Vocabulary
  // ---------------------------------------------------------------------------

  /** The log activates v, or tries to, without a successful deactivation after it. */
  predicate Hot(log: seq<Call>, v: string) {
    if log == [] then false
    else
      var c := log[|log| - 1];
      if c.cmd == Activate(v) then true
      else if c.cmd == Deactivate(v) && c.ok then false
      else Hot(log[..|log| - 1], v)
  }

  /** Reading a state file failed, which the script takes for an empty file where errexit is off. */
  ghost predicate ReadFails(log: seq<Call>) {
    exists i :: 0 <= i < |log| && log[i].cmd.ReadState? && !log[i].ok
  }

  /** Reads of state files in the log turned out as the oracle says. */
  ghost predicate Truthful(o: Oracle, log: seq<Call>) {
    forall i :: 0 <= i < |log| && log[i].cmd.ReadState? ==> log[i].ok == o(i).ok
  }

  /** The state file of m is absent, empty, or names a group that is gone. */
  predicate Released(g: Guest, m: string) {
    m in g.files ==> g.files[m] == "" || g.files[m] !in g.vgs
  }

  /**
   No group is removed hot, and no state file is deleted that still names a living group; where
   errexit is off (strict is false), except behind a read of a state file that failed.
   */
  ghost predicate CarefulAt(log: seq<Call>, i: nat, strict: bool)
    requires i < |log|
  {
    match log[i].cmd
    case Remove(v) => !Hot(log[..i], v)
    case RmState(m) => Released(log[i].before, m) || (!strict && ReadFails(log[..i]))
    case _ => true
  }

  ghost predicate CarefulFrom(log: seq<Call>, n: nat, strict: bool) {
    forall i {:trigger CarefulAt(log, i, strict)} :: n <= i < |log| ==> CarefulAt(log, i, strict)
  }

  ghost predicate Careful(log: seq<Call>, strict: bool) { CarefulFrom(log, 0, strict) }

  function Others(s: seq<string>, m: string): seq<string> {
    if s == [] then [] else (if AtOrBelow(s[0], m) then [] else [s[0]]) + Others(s[1..], m)
  }

  /** Only groups in vs, the state files of m and in its directory, and mounts at or below m differ. */
  ghost predicate Frame(a: Guest, b: Guest, m: string, vs: set<string>) {
    && (forall v :: v !in vs ==> (v in a.vgs <==> v in b.vgs))
    && (forall k :: k in a.files && k != m && !Inside(k, m) ==> k in b.files)
    && (forall k :: k in b.files && k != m ==> k in a.files && b.files[k] == a.files[k])
    && Others(b.mounts, m) == Others(a.mounts, m)
  }

  /** The state file of m is only ever deleted, and only when it is no longer needed. */
  ghost predicate Settles(a: Run, b: Run, m: string, strict: bool) {
    && b.g.vgs <= a.g.vgs
    && (m in b.g.files ==> m in a.g.files && b.g.files[m] == a.g.files[m])
    && (m in a.g.files && m !in b.g.files ==> a.g.files[m] == "" || a.g.files[m] !in b.g.vgs || (!strict && ReadFails(b.log)))
  }

  ghost predicate Good(o: Oracle, a: Run, b: Run, m: string, vs: set<string>, strict: bool) {
    && a.log <= b.log && Frame(a.g, b.g, m, vs)
    && CarefulFrom(b.log, |a.log|, strict)
    && (Truthful(o, a.log) ==> Truthful(o, b.log))
  }

  ghost predicate Passes(o: Oracle, a: Run, b: Run, m: string, vs: set<string>, strict: bool) {
    Good(o, a, b, m, vs, strict) && Settles(a, b, m, strict)
  }

  /** Commands that stay within Frame and Careful. */
  ghost predicate CmdOk(r: Run, cmd: Cmd, m: string, vs: set<string>, strict: bool) {
    match cmd
    case Umount(t) => AtOrBelow(t, m)
    case LazyUmount(t) => AtOrBelow(t, m)
    case Mount(t) => AtOrBelow(t, m)
    case WriteState(k, _) => k == m
    case RmState(k) => k == m && (Released(r.g, m) || (!strict && ReadFails(r.log)))
    case RmTree(k) => k == m
    case ImportClone(v) => v in vs
    case Remove(v) => v in vs && !Hot(r.log, v)
    case _ => true
  }

  // ---------------------------------------------------------------------------
  // One command
  // ---------------------------------------------------------------------------

  lemma {:induction false} DropLastKeepsOthers(s: seq<string>, t: string, m: string)
    requires AtOrBelow(t, m)
    ensures Others(DropLast(s, t), m) == Others(s, m)
  {
    hide AtOrBelow;
    if s != [] && !(s[0] == t && t !in s[1..]) {
      DropLastKeepsOthers(s[1..], t, m);
      assert DropLast(s, t)[1..] == DropLast(s[1..], t);
    }
  }

  lemma {:induction false} DropBelowKeepsOthers(s: seq<string>, t: string, m: string)
    requires AtOrBelow(t, m)
    ensures Others(DropBelow(s, t), m) == Others(s, m)
  {
    hide AtOrBelow, StrictlyBelow;
    if s != [] {
      DropBelowKeepsOthers(s[1..], t, m);
      if StrictlyBelow(s[0], t) {
        BelowTransitive(s[0], t, m);
      } else {
        assert DropBelow(s, t)[1..] == DropBelow(s[1..], t);
      }
    }
  }

  lemma {:induction false} AppendKeepsOthers(s: seq<string>, t: string, m: string)
    requires AtOrBelow(t, m)
    ensures Others(s + [t], m) == Others(s, m)
  {
    hide AtOrBelow;
    if s == [] {
      assert (s + [t])[1..] == [];
    } else {
      AppendKeepsOthers(s[1..], t, m);
      assert (s + [t])[1..] == s[1..] + [t];
    }
  }

  lemma AfterFrames(r: Run, cmd: Cmd, ok: bool, damaged: set<string>, m: string, vs: set<string>, strict: bool)
    requires CmdOk(r, cmd, m, vs, strict)
    ensures Frame(r.g, After(r.g, cmd, ok, damaged), m, vs)
  {
    hide Others, AtOrBelow, Inside, Hot, ReadFails, Released, DropLast, DropBelow;
    match cmd {
      case Umount(t) => DropLastKeepsOthers(r.g.mounts, t, m);
      case LazyUmount(t) =>
        DropBelowKeepsOthers(r.g.mounts, t, m);
        DropLastKeepsOthers(DropBelow(r.g.mounts, t), t, m);
      case Mount(t) => AppendKeepsOthers(r.g.mounts, t, m);
      case _ =>
    }
  }

  /** One more command within the rules. */
  lemma CarefulSnoc(log: seq<Call>, c: Call, strict: bool)
    requires c.cmd.Remove? ==> !Hot(log, c.cmd.vg)
    requires c.cmd.RmState? ==> Released(c.before, c.cmd.mnt) || (!strict && ReadFails(log))
    ensures CarefulFrom(log + [c], |log|, strict)
  {
    hide Hot, ReadFails, Released;
    assert (log + [c])[..|log|] == log;
  }

  lemma CarefulAppend(log: seq<Call>, more: seq<Call>, n: nat, strict: bool)
    requires log <= more && n <= |log| && CarefulFrom(log, n, strict) && CarefulFrom(more, |log|, strict)
    ensures CarefulFrom(more, n, strict)
  {
    hide Hot, ReadFails, Released;
    forall i | n <= i < |more| ensures CarefulAt(more, i, strict) {
      if i < |log| {
        assert CarefulAt(log, i, strict);
        assert more[..i] == log[..i];
      }
    }
  }

  lemma DoGood(o: Oracle, r: Run, cmd: Cmd, m: string, vs: set<string>, strict: bool)
    requires CmdOk(r, cmd, m, vs, strict)
    ensures Good(o, r, Do(o, r, cmd).0, m, vs, strict)
  {
    hide CarefulFrom, Frame, After, Hot, ReadFails, Released, AtOrBelow;
    var x := o(|r.log|);
    var ok := x.ok && Allowed(r.g, cmd);
    AfterFrames(r, cmd, ok, x.damaged, m, vs, strict);
    CarefulSnoc(r.log, Call(r.g, cmd, ok), strict);
  }

  lemma ReadFailsGrows(log: seq<Call>, more: seq<Call>)
    requires ReadFails(log) && log <= more
    ensures ReadFails(more)
  {
  }

  lemma InsideIsElsewhere(m: string)
    ensures !Inside(m, m)
  {
    assert (m + STATE_SUFFIX)[..|m| + 1][|m|] == '.' && (m + "/")[|m|] == '/';
  }

  lemma DoPasses(o: Oracle, r: Run, cmd: Cmd, m: string, vs: set<string>, strict: bool)
    requires CmdOk(r, cmd, m, vs, strict) && !cmd.ImportClone? && !cmd.WriteState?
    ensures Passes(o, r, Do(o, r, cmd).0, m, vs, strict)
  {
    DoGood(o, r, cmd, m, vs, strict);
    hide Good, Hot, Allowed, Inside, AtOrBelow, ReadFails;
    InsideIsElsewhere(m);
    var b := Do(o, r, cmd).0;
    if ReadFails(r.log) { ReadFailsGrows(r.log, b.log); }
  }

  lemma GoodTransitive(o: Oracle, a: Run, b: Run, c: Run, m: string, vs: set<string>, strict: bool)
    requires Good(o, a, b, m, vs, strict) && Good(o, b, c, m, vs, strict)
    ensures Good(o, a, c, m, vs, strict)
  {
    hide CarefulFrom, Truthful, Inside, Others;
    CarefulAppend(b.log, c.log, |a.log|, strict);
  }

  lemma PassesTransitive(o: Oracle, a: Run, b: Run, c: Run, m: string, vs: set<string>, strict: bool)
    requires Passes(o, a, b, m, vs, strict) && Passes(o, b, c, m, vs, strict)
    ensures Passes(o, a, c, m, vs, strict)
  {
    GoodTransitive(o, a, b, c, m, vs, strict);
    hide Good, ReadFails;
    if ReadFails(b.log) { ReadFailsGrows(b.log, c.log); }
  }

  lemma PassesReflexive(o: Oracle, r: Run, m: string, vs: set<string>, strict: bool)
    ensures Passes(o, r, r, m, vs, strict)
  {
  }

  // ---------------------------------------------------------------------------
  // unmount_and_cleanup
  // ---------------------------------------------------------------------------

  lemma TryUmountPasses(o: Oracle, r: Run, t: string, m: string, vs: set<string>, strict: bool)
    requires AtOrBelow(t, m)
    ensures Passes(o, r, TryUmount(o, r, t), m, vs, strict)
  {
    hide Passes, Do, AtOrBelow;
    var u := Do(o, r, Umount(t));
    DoPasses(o, r, Umount(t), m, vs, strict);
    DoPasses(o, u.0, LazyUmount(t), m, vs, strict);
    if !u.1 { PassesTransitive(o, r, u.0, Do(o, u.0, LazyUmount(t)).0, m, vs, strict); }
  }

  lemma {:induction false} UmountAllPasses(o: Oracle, r: Run, ts: seq<string>, m: string, vs: set<string>, strict: bool)
    requires forall t :: t in ts ==> AtOrBelow(t, m)
    ensures Passes(o, r, UmountAll(o, r, ts), m, vs, strict)
    decreases |ts|
  {
    hide Passes, TryUmount, AtOrBelow;
    if ts == [] {
      PassesReflexive(o, r, m, vs, strict);
    } else {
      var b := if ts[0] == "" then r else TryUmount(o, r, ts[0]);
      if ts[0] == "" { PassesReflexive(o, r, m, vs, strict); } else { TryUmountPasses(o, r, ts[0], m, vs, strict); }
      UmountAllPasses(o, b, ts[1..], m, vs, strict);
      PassesTransitive(o, r, b, UmountAll(o, b, ts[1..]), m, vs, strict);
    }
  }

  lemma DetachTreePasses(o: Oracle, r: Run, m: string, vs: set<string>, strict: bool)
    ensures Passes(o, r, DetachTree(o, r, m), m, vs, strict)
  {
    hide Passes, TryUmount, UmountAll, Do;
    var l := Do(o, r, ListMounts);
    DoPasses(o, r, ListMounts, m, vs, strict);
    if l.1 {
      var ts := DetachOrder(l.0.g.mounts, m);
      forall t | t in ts ensures AtOrBelow(t, m) {
        assert t in multiset(ts) && t in Selected(l.0.g.mounts, m);
      }
      UmountAllPasses(o, l.0, ts, m, vs, strict);
      PassesTransitive(o, r, l.0, UmountAll(o, l.0, ts), m, vs, strict);
    } else {
      TryUmountPasses(o, l.0, m, m, vs, strict);
      PassesTransitive(o, r, l.0, TryUmount(o, l.0, m), m, vs, strict);
    }
  }

  lemma DeactivatedIsCold(o: Oracle, r: Run, v: string)
    ensures var d := Do(o, r, Deactivate(v)); d.1 ==> !Hot(d.0.log, v)
  {
    hide After, Allowed;
  }

  /** The removed group is gone; one that is left is still what the state file says. */
  lemma DropVgPasses(o: Oracle, r: Run, v: string, m: string, vs: set<string>, strict: bool)
    requires v in vs
    ensures var d := DropVg(o, r, v);
            && Passes(o, r, d.0, m, vs, strict) && d.0.g.files == r.g.files
            && (d.1 ==> v !in d.0.g.vgs)
  {
    var d := Do(o, r, Deactivate(v));
    DoPasses(o, r, Deactivate(v), m, vs, strict);
    if d.1 {
      DeactivatedIsCold(o, r, v);
      hide Passes, Hot;
      DoPasses(o, d.0, Remove(v), m, vs, strict);
      PassesTransitive(o, r, d.0, Do(o, d.0, Remove(v)).0, m, vs, strict);
    }
  }

  lemma ForgetPasses(o: Oracle, r: Run, m: string, strict: bool, vs: set<string>)
    requires Released(r.g, m) || (!strict && ReadFails(r.log))
    ensures Passes(o, r, Forget(o, r, m, strict).0, m, vs, strict)
  {
    hide Passes, Released, ReadFails, Do;
    DoPasses(o, r, RmState(m), m, vs, strict);
  }

  lemma ReadFailed(o: Oracle, r: Run, m: string)
    ensures var c := Do(o, r, ReadState(m)); c.0.g == r.g && (!c.1 ==> ReadFails(c.0.log))
  {
    var c := Do(o, r, ReadState(m));
    assert c.0.log[|r.log|].cmd.ReadState? && c.0.log[|r.log|].ok == c.1;
  }

  lemma ReleaseVgPasses(o: Oracle, r: Run, m: string, strict: bool, vs: set<string>)
    requires m in r.g.files ==> r.g.files[m] in vs
    ensures Passes(o, r, ReleaseVg(o, r, m, strict).0, m, vs, strict)
  {
    if m !in r.g.files {
      TryUmountPasses(o, r, m, m, vs, strict);
    } else {
      var c := Do(o, r, ReadState(m));
      DoPasses(o, r, ReadState(m), m, vs, strict);
      ReadFailed(o, r, m);
      if !c.1 || r.g.files[m] == "" {
        if !(strict && !c.1) { ForgetEmpty(o, r, c.0, m, strict, vs); }
      } else {
        DropNamed(o, r, c.0, m, strict, vs);
      }
    }
  }

  lemma ForgetEmpty(o: Oracle, r: Run, c: Run, m: string, strict: bool, vs: set<string>)
    requires Passes(o, r, c, m, vs, strict) && c.g == r.g && m in r.g.files && (r.g.files[m] == "" || (!strict && ReadFails(c.log)))
    ensures Passes(o, r, Forget(o, TryUmount(o, c, m), m, strict).0, m, vs, strict)
  {
    var t := TryUmount(o, c, m);
    TryUmountPasses(o, c, m, m, vs, strict);
    assert Released(t.g, m) || (!strict && ReadFails(t.log)) by {
      if ReadFails(c.log) { ReadFailsGrows(c.log, t.log); }
    }
    hide Passes, Released, ReadFails, TryUmount, Forget;
    ForgetPasses(o, t, m, strict, vs);
    PassesTransitive(o, r, c, t, m, vs, strict);
    PassesTransitive(o, r, t, Forget(o, t, m, strict).0, m, vs, strict);
  }

  lemma DropNamed(o: Oracle, r: Run, c: Run, m: string, strict: bool, vs: set<string>)
    requires Passes(o, r, c, m, vs, strict) && c.g == r.g && m in r.g.files && r.g.files[m] in vs
    ensures var d := DropVg(o, DetachTree(o, c, m), r.g.files[m]);
            Passes(o, r, d.0, m, vs, strict) && (d.1 ==> Passes(o, r, Forget(o, d.0, m, strict).0, m, vs, strict))
  {
    var t := DetachTree(o, c, m);
    DetachTreePasses(o, c, m, vs, strict);
    var d := DropVg(o, t, r.g.files[m]);
    DropVgPasses(o, t, r.g.files[m], m, vs, strict);
    assert m in t.g.files ==> t.g.files[m] == r.g.files[m];
    assert d.1 ==> Released(d.0.g, m);
    hide Passes, Released, ReadFails, DetachTree, DropVg, Forget;
    PassesTransitive(o, r, c, t, m, vs, strict);
    PassesTransitive(o, r, t, d.0, m, vs, strict);
    if d.1 {
      ForgetPasses(o, d.0, m, strict, vs);
      PassesTransitive(o, r, d.0, Forget(o, d.0, m, strict).0, m, vs, strict);
    }
  }

  lemma {:induction false} RmTriesPasses(o: Oracle, r: Run, m: string, tries: nat, vs: set<string>, strict: bool)
    ensures Passes(o, r, RmTries(o, r, m, tries).0, m, vs, strict)
    decreases tries
  {
    hide Passes, Do;
    if tries == 0 {
      PassesReflexive(o, r, m, vs, strict);
    } else {
      var t := Do(o, r, RmTree(m));
      DoPasses(o, r, RmTree(m), m, vs, strict);
      if !t.1 {
        RmTriesPasses(o, t.0, m, tries - 1, vs, strict);
        PassesTransitive(o, r, t.0, RmTries(o, t.0, m, tries - 1).0, m, vs, strict);
      }
    }
  }

  /** Whatever fails, a cleanup stays within its mount path and the group its state file names. */
  lemma CleanupPasses(o: Oracle, r: Run, m: string, strict: bool, vs: set<string>)
    requires m in r.g.files ==> r.g.files[m] in vs
    ensures Passes(o, r, Cleanup(o, r, m, strict).0, m, vs, strict)
  {
    hide Passes, ReleaseVg, RmTries;
    var a := ReleaseVg(o, r, m, strict);
    ReleaseVgPasses(o, r, m, strict, vs);
    RmTriesPasses(o, a.0, m, RM_TRIES, vs, strict);
    PassesTransitive(o, r, a.0, RmTries(o, a.0, m, RM_TRIES).0, m, vs, strict);
  }

  /** What holds with errexit on holds with errexit off. */
  lemma StrictIsMore(o: Oracle, a: Run, b: Run, m: string, vs: set<string>, strict: bool)
    ensures Good(o, a, b, m, vs, true) ==> Good(o, a, b, m, vs, strict)
    ensures Passes(o, a, b, m, vs, true) ==> Passes(o, a, b, m, vs, strict)
  {
    hide Hot, ReadFails, Released, Frame, Truthful;
    if Good(o, a, b, m, vs, true) {
      forall i | |a.log| <= i < |b.log| ensures CarefulAt(b.log, i, strict) { assert CarefulAt(b.log, i, true); }
    }
  }

  /** The group the state file of m names in `a` is gone in `b`, as far as the file could be read. */
  ghost predicate GroupGone(a: Guest, b: Run, m: string, strict: bool) {
    m in a.files ==> a.files[m] == "" || a.files[m] !in b.g.vgs || (!strict && ReadFails(b.log))
  }

  /** A cleanup that reports success has removed the group its state file names. */
  lemma CleanupSucceeds(o: Oracle, r: Run, m: string, strict: bool)
    ensures var c := Cleanup(o, r, m, strict); c.1 ==> GroupGone(r.g, c.0, m, strict)
  {
    var a := ReleaseVg(o, r, m, strict);
    if m in r.g.files && a.1 && !a.2 {
      ReleaseSucceeds(o, r, m, strict);
      RmTriesPasses(o, a.0, m, RM_TRIES, {}, strict);
      hide ReleaseVg, RmTries, Good;
      var t := RmTries(o, a.0, m, RM_TRIES).0;
      if ReadFails(a.0.log) { assert a.0.log <= t.log by { RmTriesGrows(o, a.0, m, strict); } ReadFailsGrows(a.0.log, t.log); }
    }
  }

  lemma RmTriesGrows(o: Oracle, r: Run, m: string, strict: bool)
    ensures r.log <= RmTries(o, r, m, RM_TRIES).0.log
  {
    RmTriesPasses(o, r, m, RM_TRIES, {}, strict);
  }

  lemma ReleaseSucceeds(o: Oracle, r: Run, m: string, strict: bool)
    requires var a := ReleaseVg(o, r, m, strict); m in r.g.files && a.1 && !a.2
    ensures GroupGone(r.g, ReleaseVg(o, r, m, strict).0, m, strict)
  {
    var v, vs := r.g.files[m], {r.g.files[m]};
    var c := Do(o, r, ReadState(m));
    ReadFailed(o, r, m);
    if !c.1 {
      var t := TryUmount(o, c.0, m);
      TryUmountPasses(o, c.0, m, m, vs, strict);
      hide TryUmount;
      assert c.0.log <= t.log <= Forget(o, t, m, strict).0.log;
      ReadFailsGrows(c.0.log, Forget(o, t, m, strict).0.log);
    } else if v != "" {
      var t := DetachTree(o, c.0, m);
      DropVgPasses(o, t, v, m, vs, strict);
      hide DropVg, DetachTree;
    }
  }
}
