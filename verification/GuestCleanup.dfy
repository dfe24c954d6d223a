/** What a cleanup reports, and what it achieves when only kernel and LVM stand in its way. */
module GuestCleanup {
  import opened GuestMounts
  import opened GuestScript
  import opened GuestDetach

  // ---------------------------------------------------------------------------
  // The exit status
  // ---------------------------------------------------------------------------

  /** The commands whose failure a cleanup reports; errexit adds two. */
  predicate Reported(cmd: Cmd, strict: bool) {
    cmd.Deactivate? || cmd.Remove? || (strict && (cmd.ReadState? || cmd.RmState?))
  }

  /** None of them failed on the way from a to b. */
  predicate Silent(a: Run, b: Run, strict: bool) {
    a.log <= b.log && forall i :: |a.log| <= i < |b.log| && Reported(b.log[i].cmd, strict) ==> b.log[i].ok
  }

  lemma SilentJoin(a: Run, b: Run, c: Run, strict: bool)
    requires a.log <= b.log <= c.log
    ensures Silent(a, c, strict) <==> Silent(a, b, strict) && Silent(b, c, strict)
  {
    if Silent(a, c, strict) {
      forall i | |a.log| <= i < |b.log| && Reported(b.log[i].cmd, strict) ensures b.log[i].ok { assert b.log[i] == c.log[i]; }
    }
    if Silent(a, b, strict) && Silent(b, c, strict) {
      forall i | |a.log| <= i < |c.log| && Reported(c.log[i].cmd, strict) ensures c.log[i].ok { if i < |b.log| { assert b.log[i] == c.log[i]; } }
    }
  }

  lemma SilentDo(o: Oracle, r: Run, cmd: Cmd, strict: bool)
    ensures var d := Do(o, r, cmd);
            r.log <= d.0.log && |d.0.log| == |r.log| + 1 && d.0.log[|r.log|].cmd == cmd && d.0.log[|r.log|].ok == d.1
            && (Silent(r, d.0, strict) <==> !Reported(cmd, strict) || d.1)
  {
    hide After, Allowed;
    var d := Do(o, r, cmd);
    assert d.0.log[|r.log|] == Call(r.g, cmd, d.1);
  }

  lemma TryUmountSilent(o: Oracle, r: Run, t: string, strict: bool)
    ensures Silent(r, TryUmount(o, r, t), strict)
  {
    hide Do, Silent;
    var u := Do(o, r, Umount(t));
    SilentDo(o, r, Umount(t), strict);
    SilentDo(o, u.0, LazyUmount(t), strict);
    if !u.1 { SilentJoin(r, u.0, Do(o, u.0, LazyUmount(t)).0, strict); }
  }

  lemma SilentGrows(a: Run, b: Run, strict: bool)
    requires Silent(a, b, strict)
    ensures a.log <= b.log
  {
  }

  lemma {:induction false} UmountAllSilent(o: Oracle, r: Run, ts: seq<string>, strict: bool)
    ensures Silent(r, UmountAll(o, r, ts), strict)
    decreases |ts|
  {
    if ts != [] {
      var b := if ts[0] == "" then r else TryUmount(o, r, ts[0]);
      assert Silent(r, b, strict) by { if ts[0] != "" { TryUmountSilent(o, r, ts[0], strict); } }
      UmountAllSilent(o, b, ts[1..], strict);
      var e := UmountAll(o, b, ts[1..]);
      hide Silent, TryUmount;
      SilentGrows(r, b, strict);
      SilentGrows(b, e, strict);
      SilentJoin(r, b, e, strict);
    }
  }

  lemma DetachTreeSilent(o: Oracle, r: Run, m: string, strict: bool)
    ensures Silent(r, DetachTree(o, r, m), strict)
  {
    hide Do, Silent, TryUmount, UmountAll, DetachOrder;
    var l := Do(o, r, ListMounts);
    SilentDo(o, r, ListMounts, strict);
    TryUmountSilent(o, l.0, m, strict);
    UmountAllSilent(o, l.0, DetachOrder(l.0.g.mounts, m), strict);
    SilentGrows(l.0, DetachTree(o, r, m), strict);
    SilentJoin(r, l.0, DetachTree(o, r, m), strict);
  }

  lemma DropVgReports(o: Oracle, r: Run, v: string, strict: bool)
    ensures var d := DropVg(o, r, v); r.log <= d.0.log && (d.1 <==> Silent(r, d.0, strict))
  {
    hide Do, Silent;
    var d := Do(o, r, Deactivate(v));
    SilentDo(o, r, Deactivate(v), strict);
    SilentDo(o, d.0, Remove(v), strict);
    if d.1 { SilentJoin(r, d.0, Do(o, d.0, Remove(v)).0, strict); }
  }

  /** Deleting the state file, behind a part that reported nothing. */
  lemma ForgetReports(o: Oracle, a: Run, r: Run, m: string, strict: bool)
    requires Silent(a, r, strict)
    ensures var f := Forget(o, r, m, strict); a.log <= f.0.log && f.1 && (!f.2 <==> Silent(a, f.0, strict))
  {
    hide Do, Silent;
    SilentGrows(a, r, strict);
    SilentDo(o, r, RmState(m), strict);
    SilentJoin(a, r, Do(o, r, RmState(m)).0, strict);
  }

  lemma ReleaseReports(o: Oracle, r: Run, m: string, strict: bool)
    ensures var a := ReleaseVg(o, r, m, strict); r.log <= a.0.log && (a.1 && !a.2 <==> Silent(r, a.0, strict))
  {
    hide Do, Silent, TryUmount, DetachTree, DropVg, Forget;
    if m !in r.g.files {
      TryUmountSilent(o, r, m, strict);
      SilentGrows(r, TryUmount(o, r, m), strict);
    } else {
      var c := Do(o, r, ReadState(m));
      SilentDo(o, r, ReadState(m), strict);
      if !(strict && !c.1) {
        var v := if c.1 then r.g.files[m] else "";
        if v == "" {
          var t := TryUmount(o, c.0, m);
          TryUmountSilent(o, c.0, m, strict);
          SilentGrows(c.0, t, strict);
          SilentJoin(r, c.0, t, strict);
          ForgetReports(o, r, t, m, strict);
        } else {
          var t := DetachTree(o, c.0, m);
          DetachTreeSilent(o, c.0, m, strict);
          SilentGrows(c.0, t, strict);
          SilentJoin(r, c.0, t, strict);
          var d := DropVg(o, t, v);
          DropVgReports(o, t, v, strict);
          SilentJoin(r, t, d.0, strict);
          if d.1 { ForgetReports(o, r, d.0, m, strict); }
        }
      }
    }
  }

  /** Attempts to remove m from n on: all but the last fail, and there are three unless the last succeeds. */
  predicate Attempts(log: seq<Call>, n: nat, m: string, tries: nat, ok: bool) {
    && n + (if ok then 1 else tries) <= |log| <= n + tries
    && forall i :: n <= i < |log| ==> log[i].cmd == RmTree(m) && (log[i].ok <==> ok && i == |log| - 1)
  }

  lemma {:induction false} RmTriesAttempts(o: Oracle, r: Run, m: string, tries: nat)
    ensures var t := RmTries(o, r, m, tries); r.log <= t.0.log && Attempts(t.0.log, |r.log|, m, tries, t.1)
    decreases tries
  {
    if tries > 0 {
      hide After, Allowed;
      var t := Do(o, r, RmTree(m));
      if !t.1 { RmTriesAttempts(o, t.0, m, tries - 1); }
    }
  }

  /** How a cleanup that went from a to b ended: what it released, and up to three attempts at the directory. */
  ghost predicate Reports(a: Run, b: Run, m: string, strict: bool, ok: bool) {
    a.log <= b.log && exists mid: Run ::
      && a.log <= mid.log <= b.log
      && (ok <==> Silent(a, mid, strict) && Attempts(b.log, |mid.log|, m, 3, true))
      && (b == mid || Attempts(b.log, |mid.log|, m, 3, true) || Attempts(b.log, |mid.log|, m, 3, false))
      && (b == mid ==> strict && !Silent(a, mid, strict))
  }

  /**
   Whatever fails: a cleanup reports success if and only if neither the deactivation nor the removal
   of the group failed (with errexit on, nor a command on the state file) and one of three attempts
   to remove the directory succeeded; and it gives up before those attempts only under errexit.
   */
  lemma CleanupReports(o: Oracle, r: Run, m: string, strict: bool)
    ensures var c := Cleanup(o, r, m, strict); Reports(r, c.0, m, strict, c.1)
  {
    hide ReleaseVg, RmTries, Silent, Attempts;
    var a := ReleaseVg(o, r, m, strict);
    ReleaseReports(o, r, m, strict);
    var c := Cleanup(o, r, m, strict);
    if a.2 {
      AbortsUnderErrexit(o, r, m, strict);
      assert !Attempts(c.0.log, |a.0.log|, m, 3, true) by { NoAttempt(c.0.log, m); }
    } else {
      RmTriesAttempts(o, a.0, m, RM_TRIES);
      var t := RmTries(o, a.0, m, RM_TRIES);
      assert Attempts(t.0.log, |a.0.log|, m, 3, true) <==> t.1 by { OneOrOther(t.0.log, |a.0.log|, m, t.1); }
      assert t.0 != a.0 by { OneOrOther(t.0.log, |a.0.log|, m, t.1); }
    }
    assert r.log <= a.0.log <= c.0.log;
  }

  lemma NoAttempt(log: seq<Call>, m: string)
    ensures !Attempts(log, |log|, m, 3, true)
  {
  }

  lemma OneOrOther(log: seq<Call>, n: nat, m: string, ok: bool)
    requires Attempts(log, n, m, 3, ok)
    ensures Attempts(log, n, m, 3, true) <==> ok
    ensures |log| > n
  {
    if !ok { assert !log[|log| - 1].ok; }
  }

  lemma AbortsUnderErrexit(o: Oracle, r: Run, m: string, strict: bool)
    ensures ReleaseVg(o, r, m, strict).2 ==> strict
  {
    hide Do, TryUmount, DetachTree, DropVg;
  }

  // ---------------------------------------------------------------------------
  // A cleanup that nothing else disturbs
  // ---------------------------------------------------------------------------

  /** The group the state file of m names, if any. */
  function Named(g: Guest, m: string): set<string> { if m in g.files && g.files[m] != "" then {g.files[m]} else {} }

  lemma {:induction false} UmountAllKeepsRest(o: Oracle, r: Run, ts: seq<string>)
    ensures var e := UmountAll(o, r, ts); e.g.vgs == r.g.vgs && e.g.files == r.g.files
    decreases |ts|
  {
    if ts != [] {
      var b := if ts[0] == "" then r else TryUmount(o, r, ts[0]);
      if ts[0] != "" { TryUmountMeans(o, r, ts[0]); }
      hide TryUmount;
      UmountAllKeepsRest(o, b, ts[1..]);
    }
  }

  lemma RmTriesAtOnce(o: Oracle, r: Run, m: string)
    requires forall n: nat :: o(n).ok
    ensures var t := RmTries(o, r, m, RM_TRIES); t.1 && t.0.g == r.g.(files := r.g.files - InsideFiles(r.g, m))
  {
  }

  /**
   If no command fails but for what kernel and LVM insist on, and the group the state file names
   exists: the cleanup reports success; that group, and no other, is gone, and so is the state file;
   nothing is mounted at or below the mount path any more.  Without a group, the topmost mount at the
   mount path is gone.
   */
  lemma CleanupCompletes(o: Oracle, r: Run, m: string, strict: bool)
    requires (forall n: nat :: o(n).ok) && m != "" && Named(r.g, m) <= r.g.vgs
    ensures var c := Cleanup(o, r, m, strict); var g := c.0.g;
            && c.1 && m !in g.files && g.vgs == r.g.vgs - Named(r.g, m)
            && (Named(r.g, m) != {} ==> forall t :: t in g.mounts ==> !AtOrBelow(t, m))
            && (Named(r.g, m) == {} ==> multiset(g.mounts)[m] == if m in r.g.mounts then multiset(r.g.mounts)[m] - 1 else 0)
  {
    hide DetachTree, TryUmount, RmTries;
    var a := ReleaseVg(o, r, m, strict);
    RmTriesAtOnce(o, a.0, m);
    if m !in r.g.files {
      UmountDone(o, r, m);
    } else {
      var c := Do(o, r, ReadState(m)).0;
      if r.g.files[m] == "" {
        UmountDone(o, c, m);
      } else {
        DetachDone(o, c, m);
      }
    }
  }

  lemma UmountDone(o: Oracle, r: Run, m: string)
    requires forall n: nat :: o(n).ok
    ensures var t := TryUmount(o, r, m);
            && t.g.vgs == r.g.vgs && t.g.files == r.g.files
            && multiset(t.g.mounts)[m] == if m in r.g.mounts then multiset(r.g.mounts)[m] - 1 else 0
  {
    TryUmountMeans(o, r, m);
  }

  lemma DetachDone(o: Oracle, r: Run, m: string)
    requires (forall n: nat :: o(n).ok) && m != ""
    ensures var t := DetachTree(o, r, m); t.g.vgs == r.g.vgs && t.g.files == r.g.files && forall u :: u in t.g.mounts ==> !AtOrBelow(u, m)
  {
    hide UmountAll, DetachOrder, TryUmount;
    var l := Do(o, r, ListMounts).0;
    DrainsInOrder(o, l, m);
    UmountAllKeepsRest(o, l, DetachOrder(l.g.mounts, m));
  }

  // ---------------------------------------------------------------------------
  // What is unmounted
  // ---------------------------------------------------------------------------

  /** The targets of the plain unmounts, in order. */
  function Unmounts(log: seq<Call>): seq<string> {
    if log == [] then [] else
      var c := log[|log| - 1];
      Unmounts(log[..|log| - 1]) + if c.cmd.Umount? then [c.cmd.target] else []
  }

  lemma UnmountsDo(o: Oracle, r: Run, cmd: Cmd)
    ensures Unmounts(Do(o, r, cmd).0.log) == Unmounts(r.log) + if cmd.Umount? then [cmd.target] else []
  {
    hide After, Allowed;
  }

  lemma TryUmountUnmounts(o: Oracle, r: Run, t: string)
    ensures Unmounts(TryUmount(o, r, t).log) == Unmounts(r.log) + [t]
  {
    hide Do, Unmounts;
    var u := Do(o, r, Umount(t));
    UnmountsDo(o, r, Umount(t));
    UnmountsDo(o, u.0, LazyUmount(t));
  }

  lemma {:induction false} UmountAllUnmounts(o: Oracle, r: Run, ts: seq<string>)
    requires forall i :: 0 <= i < |ts| ==> ts[i] != ""
    ensures Unmounts(UmountAll(o, r, ts).log) == Unmounts(r.log) + ts
    decreases |ts|
  {
    if ts != [] {
      hide TryUmount, Unmounts;
      TryUmountUnmounts(o, r, ts[0]);
      UmountAllUnmounts(o, TryUmount(o, r, ts[0]), ts[1..]);
      assert Unmounts(r.log) + [ts[0]] + ts[1..] == Unmounts(r.log) + ts;
    }
  }

  /** Whatever fails: the whole subtree is unmounted, descendants first, or, if it cannot be listed, the mount path. */
  lemma DetachTreeUnmounts(o: Oracle, r: Run, m: string)
    requires m != ""
    ensures var l := Do(o, r, ListMounts);
            Unmounts(DetachTree(o, r, m).log) == Unmounts(r.log) + if l.1 then DetachOrder(r.g.mounts, m) else [m]
  {
    hide TryUmount, UmountAll, Unmounts, DetachOrder;
    var l := Do(o, r, ListMounts);
    UnmountsDo(o, r, ListMounts);
    var ts := DetachOrder(r.g.mounts, m);
    DetachOrderIsRight(r.g.mounts, m);
    forall i | 0 <= i < |ts| ensures ts[i] != "" { assert multiset(ts)[ts[i]] > 0; NonEmpty(ts[i], m); }
    UmountAllUnmounts(o, l.0, ts);
    TryUmountUnmounts(o, l.0, m);
  }

  lemma OthersUnmountNothing(o: Oracle, r: Run, m: string, v: string, strict: bool)
    ensures Unmounts(DropVg(o, r, v).0.log) == Unmounts(r.log) && Unmounts(Forget(o, r, m, strict).0.log) == Unmounts(r.log)
    ensures Unmounts(Do(o, r, ReadState(m)).0.log) == Unmounts(r.log)
  {
    hide Do, Unmounts;
    var d := Do(o, r, Deactivate(v));
    UnmountsDo(o, r, Deactivate(v));
    UnmountsDo(o, d.0, Remove(v));
    UnmountsDo(o, r, RmState(m));
    UnmountsDo(o, r, ReadState(m));
  }

  lemma {:induction false} RmTriesUnmountNothing(o: Oracle, r: Run, m: string, tries: nat)
    ensures Unmounts(RmTries(o, r, m, tries).0.log) == Unmounts(r.log)
    decreases tries
  {
    if tries > 0 {
      hide Do, Unmounts;
      UnmountsDo(o, r, RmTree(m));
      RmTriesUnmountNothing(o, Do(o, r, RmTree(m)).0, m, tries - 1);
    }
  }

  /** What a cleanup unmounts, whatever its commands report. */
  predicate UnmountsWhatIs(g: Guest, m: string, strict: bool, readable: bool, listed: bool, ts: seq<string>) {
    if m in g.files && strict && !readable then ts == []
    else if m in g.files && readable && g.files[m] != "" && listed then ts == DetachOrder(g.mounts, m)
    else ts == [m]
  }

  /**
   Whatever fails: with a group on record, a cleanup unmounts exactly what is mounted at or below the
   mount path, descendants first, or the mount path if that cannot be listed; without one, the mount
   path; it unmounts nothing only if errexit ends it at the state file.
   */
  lemma CleanupUnmounts(o: Oracle, r: Run, m: string, strict: bool)
    requires m != ""
    ensures exists readable: bool, listed: bool, ts: seq<string> ::
              && UnmountsWhatIs(r.g, m, strict, readable, listed, ts)
              && Unmounts(Cleanup(o, r, m, strict).0.log) == Unmounts(r.log) + ts
              && (m in r.g.files ==> readable == o(|r.log|).ok && listed == o(|r.log| + 1).ok)
  {
    hide DetachTree, TryUmount, DropVg, Forget, RmTries, Unmounts, DetachOrder;
    var a := ReleaseVg(o, r, m, strict);
    RmTriesUnmountNothing(o, a.0, m, RM_TRIES);
    if m !in r.g.files {
      TryUmountUnmounts(o, r, m);
      assert UnmountsWhatIs(r.g, m, strict, true, true, [m]);
    } else {
      var c := Do(o, r, ReadState(m));
      assert c.0.g == r.g && c.1 == o(|r.log|).ok && |c.0.log| == |r.log| + 1;
      OthersUnmountNothing(o, r, m, "", strict);
      var listed := Do(o, c.0, ListMounts).1;
      assert listed == o(|r.log| + 1).ok;
      if strict && !c.1 {
        assert UnmountsWhatIs(r.g, m, strict, c.1, listed, []);
        assert Unmounts(r.log) + [] == Unmounts(r.log);
      } else if !c.1 || r.g.files[m] == "" {
        TryUmountUnmounts(o, c.0, m);
        OthersUnmountNothing(o, TryUmount(o, c.0, m), m, "", strict);
        assert UnmountsWhatIs(r.g, m, strict, c.1, listed, [m]);
      } else {
        var t := DetachTree(o, c.0, m);
        DetachTreeUnmounts(o, c.0, m);
        OthersUnmountNothing(o, t, m, r.g.files[m], strict);
        OthersUnmountNothing(o, DropVg(o, t, r.g.files[m]).0, m, "", strict);
        assert UnmountsWhatIs(r.g, m, strict, c.1, listed, if listed then DetachOrder(r.g.mounts, m) else [m]);
      }
    }
  }
}
