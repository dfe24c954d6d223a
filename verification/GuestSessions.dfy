/**
 Many runs of the helper script on one guest.  The operator derives the serial, and so the name of
 the clone, from the restore's name, and the mount path from the name of its source.
 */
module GuestSessions {
  import opened Text
  import opened GuestMounts
  import opened GuestScript
  import opened GuestLvm
  import opened GuestRestore
  import opened GuestRecords
  import GuestOs

  datatype Order = RestoreOrder(job: Job) | CleanupOrder(m: string)

  function MountOf(ord: Order): string { if ord.RestoreOrder? then ord.job.mnt else ord.m }

  function Perform(g: Guest, ord: Order, o: Oracle): Run {
    match ord
    case RestoreOrder(job) => Restore(o, Run(g, []), job).0
    case CleanupOrder(m) => Cleanup(o, Run(g, []), m, false).0
  }

  /** One run after the other, each with its own fortune. */
  function Serve(g: Guest, orders: seq<(Order, Oracle)>): Guest {
    if orders == [] then g
    else Perform(Serve(g, orders[..|orders| - 1]), orders[|orders| - 1].0, orders[|orders| - 1].1).g
  }

  /** Absolute and directly under the root, as every mount path of the operator is. */
  predicate Flat(m: string) { m != "" && m[0] == '/' && forall i :: 1 <= i < |m| ==> m[i] != '/' }

  lemma OperatorPathsFlat(name: string)
    requires '/' !in name
    ensures Flat(GuestOs.MountPath(GuestOs.Linux, name))
  {
  }

  /** Flat mount paths have nothing in each other's directories. */
  lemma FlatApart(a: string, b: string)
    requires Flat(a) && Flat(b)
    ensures !Inside(a, b)
    ensures forall t :: AtOrBelow(t, a) && AtOrBelow(t, b) ==> a == b
  {
    var f := a + STATE_SUFFIX;
    if |b| < |f| { assert f[..|b| + 1][|b|] != '/'; }
    assert (b + "/")[|b|] == '/';
    forall t | AtOrBelow(t, a) && AtOrBelow(t, b) ensures a == b {
      SharedTarget(t, a, b);
    }
  }

  lemma SharedTarget(t: string, a: string, b: string)
    requires Flat(a) && Flat(b) && AtOrBelow(t, a) && AtOrBelow(t, b)
    ensures a == b
  {
    assert HasPrefix(t, a) && (|t| > |a| ==> t[|a|] == '/') by { Boundary(t, a); }
    assert HasPrefix(t, b) && (|t| > |b| ==> t[|b|] == '/') by { Boundary(t, b); }
    assert forall i :: 0 <= i < |a| ==> t[i] == a[i];
    assert forall i :: 0 <= i < |b| ==> t[i] == b[i];
    assert |a| == |b|;
  }

  lemma Boundary(t: string, a: string)
    requires AtOrBelow(t, a)
    ensures HasPrefix(t, a) && (|t| > |a| ==> t[|a|] == '/')
  {
  }

  // ---------------------------------------------------------------------------
  // Non-interference
  // ---------------------------------------------------------------------------

  /** The groups a run may touch. */
  function TouchedBy(g: Guest, ord: Order): set<string> {
    if ord.RestoreOrder? then Touched(g, ord.job) else if ord.m in g.files then {g.files[ord.m]} else {}
  }

  lemma PerformFrames(g: Guest, ord: Order, o: Oracle)
    ensures Frame(g, Perform(g, ord, o).g, MountOf(ord), TouchedBy(g, ord))
  {
    hide Frame, Restore, Cleanup, Careful;
    match ord {
      case RestoreOrder(job) => RestoreIsCareful(o, g, job);
      case CleanupOrder(m) => CleanupIsCareful(o, g, m, false);
    }
  }

  /** The group of serial s, and the state file and the mounts at the mount path `at`, are the same. */
  ghost predicate SameHolding(a: Guest, b: Guest, s: string, at: string) {
    && (CloneName(s) in a.vgs <==> CloneName(s) in b.vgs)
    && (at in a.files <==> at in b.files)
    && (at in a.files && at in b.files ==> a.files[at] == b.files[at])
    && Selected(a.mounts, at) == Selected(b.mounts, at)
  }

  lemma {:induction false} SelectedInOthers(mounts: seq<string>, a: string, b: string)
    requires Flat(a) && Flat(b) && a != b
    ensures Selected(Others(mounts, b), a) == Selected(mounts, a)
  {
    hide Flat, AtOrBelow;
    if mounts != [] {
      var t, rest := mounts[0], mounts[1..];
      SelectedInOthers(rest, a, b);
      FlatApart(a, b);
      SelectsSubtree(a, t);
      if AtOrBelow(t, b) {
        assert Others(mounts, b) == Others(rest, b);
      } else {
        assert Others(mounts, b) == [t] + Others(rest, b);
        assert Others(mounts, b)[1..] == Others(rest, b);
      }
    }
  }

  /** State file and mounts at another flat mount path are safe from every run, and so is a group it does not touch. */
  lemma PerformSpares(g: Guest, ord: Order, o: Oracle, s: string, at: string)
    requires Flat(at) && Flat(MountOf(ord)) && at != MountOf(ord)
    requires CloneName(s) !in TouchedBy(g, ord) || (CloneName(s) in g.vgs <==> CloneName(s) in Perform(g, ord, o).g.vgs)
    ensures SameHolding(g, Perform(g, ord, o).g, s, at)
  {
    hide Perform, Flat, AtOrBelow, Inside, CloneName, TouchedBy;
    PerformFrames(g, ord, o);
    var m, e := MountOf(ord), Perform(g, ord, o).g;
    FlatApart(at, m);
    SelectedInOthers(g.mounts, at, m);
    SelectedInOthers(e.mounts, at, m);
  }

  /** The state file at m names the living clone of serial s. */
  predicate Names(g: Guest, m: string, s: string) { m in g.files && g.files[m] == CloneName(s) && CloneName(s) in g.vgs }

  /** A cleanup without failures removes the group its state file names. */
  lemma NamedGroupGoes(g: Guest, s: string, m: string)
    requires Names(g, m, s)
    ensures CloneName(s) !in Perform(g, CleanupOrder(m), Lucky()).g.vgs
  {
    var a := ReleaseVg(Lucky(), Run(g, []), m, false);
    LuckyRelease(g, s, m);
    hide ReleaseVg, RmTries, CloneName;
    RmTriesPasses(Lucky(), a.0, m, RM_TRIES, {}, false);
  }

  lemma LuckyRelease(g: Guest, s: string, m: string)
    requires Names(g, m, s)
    ensures CloneName(s) !in ReleaseVg(Lucky(), Run(g, []), m, false).0.g.vgs
  {
    var o, v := Lucky(), CloneName(s);
    CloneIsClone(s);
    hide CloneName;
    var c := Do(o, Run(g, []), ReadState(m));
    assert c.1 && c.0.g == g;
    DetachKeepsGroups(o, c.0, m);
    hide DetachTree;
    LuckyDrop(DetachTree(o, c.0, m), v);
  }

  lemma LuckyDrop(t: Run, v: string)
    requires v in t.g.vgs
    ensures var d := DropVg(Lucky(), t, v); d.1 && v !in d.0.g.vgs
  {
  }

  lemma DetachKeepsGroups(o: Oracle, r: Run, m: string)
    ensures DetachTree(o, r, m).g.vgs == r.g.vgs
  {
    DetachTreePasses(o, r, m, {}, true);
    assert forall v :: v in r.g.vgs <==> v in DetachTree(o, r, m).g.vgs;
  }

  lemma CleanupAddsNoGroup(g: Guest, m: string, o: Oracle)
    ensures Perform(g, CleanupOrder(m), o).g.vgs <= g.vgs
  {
    hide Good, Cleanup;
    CleanupPasses(o, Run(g, []), m, false, if m in g.files then {g.files[m]} else {});
  }

  /**
   The exact condition for two mount paths: whatever fails, a cleanup at m leaves the group of
   serial s and what is at the other mount path as they were, if and only if the state file at m
   does not name that group.
   */
  lemma CleanupSparesExactly(g: Guest, m: string, s: string, at: string)
    requires Flat(m) && Flat(at) && m != at
    ensures (forall o: Oracle :: SameHolding(g, Perform(g, CleanupOrder(m), o).g, s, at)) <==> !Names(g, m, s)
  {
    hide Perform, Flat, CloneName, Selected;
    if Names(g, m, s) {
      NamedGroupGoes(g, s, m);
      assert !SameHolding(g, Perform(g, CleanupOrder(m), Lucky()).g, s, at);
    } else {
      forall o: Oracle ensures SameHolding(g, Perform(g, CleanupOrder(m), o).g, s, at) {
        CleanupAddsNoGroup(g, m, o);
        hide SameHolding;
        PerformSpares(g, CleanupOrder(m), o, s, at);
      }
    }
  }

  /**
   In the operator's terms, on every guest: the cleanup of a restore of source `loser` leaves alone
   what the restore with serial s has at the mount path of another source `holder`, whatever fails,
   if and only if the loser's state file does not name the holder's clone.
   */
  lemma LoserSparesHolder(g: Guest, s: string, holder: string, loser: string)
    requires '/' !in holder && '/' !in loser && holder != loser
    ensures var at, m := GuestOs.MountPath(GuestOs.Linux, holder), GuestOs.MountPath(GuestOs.Linux, loser);
            (forall o: Oracle :: SameHolding(g, Perform(g, CleanupOrder(m), o).g, s, at)) <==> !Names(g, m, s)
  {
    hide Perform, Flat, SameHolding;
    OperatorPathsFlat(holder);
    OperatorPathsFlat(loser);
    GuestOs.MountPathsCollide(GuestOs.Linux, holder, loser);
    CleanupSparesExactly(g, GuestOs.MountPath(GuestOs.Linux, loser), s, GuestOs.MountPath(GuestOs.Linux, holder));
  }

  /** A restore of that serial at that mount path which gets stuck between cloning and mounting. */
  function StuckJob(s: string, m: string): Job { Job(s, m, "", Some(Lvm), true, []) }

  /** Commands n and n + 1 fail. */
  function TwiceUnlucky(n: nat): Oracle { (k: nat) => Outcome(k != n && k != n + 1, {}) }

  /**
   Different source names are not enough.  A restore of source a leaves its clone on record; it is
   created again under its old name for source b and holds the clone there; then the cleanup of a
   third restore, of source a, removes the clone, although a and b differ.
   */
  lemma RecreatedRestoreInterferes(s: string, a: string, b: string)
    requires a != b
    ensures var at, m := GuestOs.MountPath(GuestOs.Linux, b), GuestOs.MountPath(GuestOs.Linux, a);
            var g := Serve(Guest({}, map[], []), [(RestoreOrder(StuckJob(s, m)), TwiceUnlucky(4)), (RestoreOrder(StuckJob(s, at)), TwiceUnlucky(6))]);
            && Names(g, at, s) && g.mounts == []
            && CloneName(s) !in Perform(g, CleanupOrder(m), Lucky()).g.vgs
  {
    var at, m := GuestOs.MountPath(GuestOs.Linux, b), GuestOs.MountPath(GuestOs.Linux, a);
    GuestOs.MountPathsCollide(GuestOs.Linux, a, b);
    var empty, v := Guest({}, map[], []), CloneName(s);
    var g1 := Guest({v}, map[m := v], []);
    var g2 := Guest({v}, map[m := v, at := v], []);
    var first, second := (RestoreOrder(StuckJob(s, m)), TwiceUnlucky(4)), (RestoreOrder(StuckJob(s, at)), TwiceUnlucky(6));
    StuckRestore(TwiceUnlucky(4), empty, StuckJob(s, m));
    StuckRestore(TwiceUnlucky(6), g1, StuckJob(s, at));
    hide Restore, Cleanup, CloneName;
    assert Perform(empty, first.0, first.1).g == g1 && Perform(g1, second.0, second.1).g == g2;
    hide Perform;
    assert [first, second][..1] == [first] && [first][..0] == [];
    assert Serve(empty, [first]) == g1;
    assert Serve(empty, [first, second]) == g2;
    NamedGroupGoes(g2, s, m);
  }

  /** Run i of the session is for another mount path and does not touch the group of serial s. */
  predicate SparesAt(g: Guest, orders: seq<(Order, Oracle)>, i: nat, s: string, at: string)
    requires i < |orders|
  {
    var ord := orders[i].0;
    Flat(MountOf(ord)) && MountOf(ord) != at && CloneName(s) !in TouchedBy(Serve(g, orders[..i]), ord)
  }

  /**
   However many restores and cleanups run for other mount paths, and whatever fails in them, the
   holder's group, state file and mounts stay as they were, as long as no such run finds the
   holder's clone named by its own state file or brings the holder's serial.
   */
  lemma {:induction false} HolderUntouched(g: Guest, orders: seq<(Order, Oracle)>, s: string, at: string)
    requires Flat(at) && forall i :: 0 <= i < |orders| ==> SparesAt(g, orders, i, s, at)
    ensures SameHolding(g, Serve(g, orders), s, at)
  {
    hide Perform, Flat, CloneName, TouchedBy;
    if orders != [] {
      var n := |orders| - 1;
      forall i | 0 <= i < n ensures SparesAt(g, orders[..n], i, s, at) {
        assert SparesAt(g, orders, i, s, at);
        assert orders[..n][..i] == orders[..i];
      }
      HolderUntouched(g, orders[..n], s, at);
      assert SparesAt(g, orders, n, s, at);
      PerformSpares(Serve(g, orders[..n]), orders[n].0, orders[n].1, s, at);
    }
  }

  // ---------------------------------------------------------------------------
  // One serial per mount path
  // ---------------------------------------------------------------------------

  /** The one serial whose restores use a mount path; a serial may own several mount paths. */
  type Owner = string -> string

  predicate Follows(ord: Order, owner: Owner) {
    Flat(MountOf(ord)) && (ord.RestoreOrder? ==> ord.job.serial == owner(ord.job.mnt))
  }

  ghost predicate AllFollow(orders: seq<(Order, Oracle)>, owner: Owner) {
    forall i :: 0 <= i < |orders| ==> Follows(orders[i].0, owner)
  }

  /** State files lie at flat mount paths and name, if anything, the clone of the owner. */
  ghost predicate Owned(g: Guest, owner: Owner) {
    forall k :: k in g.files ==> Flat(k) && (g.files[k] == "" || g.files[k] == CloneName(owner(k)))
  }

  lemma PerformStateFile(g: Guest, ord: Order, o: Oracle)
    ensures var e := Perform(g, ord, o).g;
            || SameOrBlank(g, e, MountOf(ord))
            || (ord.RestoreOrder? && ord.job.mnt in e.files && e.files[ord.job.mnt] == CloneName(ord.job.serial))
  {
    hide Restore, Good;
    match ord {
      case RestoreOrder(job) => RestoreStateFile(o, g, job);
      case CleanupOrder(m) => CleanupPasses(o, Run(g, []), m, false, if m in g.files then {g.files[m]} else {});
    }
  }

  lemma PerformStaysOwned(g: Guest, ord: Order, o: Oracle, owner: Owner)
    requires Owned(g, owner) && Follows(ord, owner)
    ensures Owned(Perform(g, ord, o).g, owner)
  {
    hide Perform, Flat, CloneName, TouchedBy;
    PerformFrames(g, ord, o);
    PerformStateFile(g, ord, o);
    var e := Perform(g, ord, o).g;
    forall k | k in e.files ensures Flat(k) && (e.files[k] == "" || e.files[k] == CloneName(owner(k))) {
      if k != MountOf(ord) { assert k in g.files && e.files[k] == g.files[k]; }
    }
  }

  lemma {:induction false} ServeStaysOwned(g: Guest, orders: seq<(Order, Oracle)>, owner: Owner)
    requires Owned(g, owner) && AllFollow(orders, owner)
    ensures Owned(Serve(g, orders), owner)
  {
    hide Owned, Perform, Follows;
    if orders != [] {
      var n := |orders| - 1;
      ServeStaysOwned(g, orders[..n], owner);
      PerformStaysOwned(Serve(g, orders[..n]), orders[n].0, orders[n].1, owner);
    }
  }

  lemma CloneNamesDiffer(s: string, t: string)
    requires s != t
    ensures CloneName(s) != CloneName(t)
  {
    if CloneName(s) == CloneName(t) { PrependCancels(CLONE_PREFIX, s, t); }
  }

  /** With owners, a run for a mount path of another serial does not touch the group of serial s. */
  lemma OwnersSpare(g: Guest, ord: Order, owner: Owner, s: string)
    requires Owned(g, owner) && Follows(ord, owner) && owner(MountOf(ord)) != s
    ensures CloneName(s) !in TouchedBy(g, ord)
  {
    CloneIsClone(s);
    CloneNamesDiffer(s, owner(MountOf(ord)));
  }

  /** So where every mount path has one serial, different serials and mount paths do not interfere. */
  lemma OwnersDoNotInterfere(g: Guest, orders: seq<(Order, Oracle)>, owner: Owner, s: string, at: string)
    requires Owned(g, owner) && AllFollow(orders, owner) && Flat(at)
    requires forall i :: 0 <= i < |orders| ==> MountOf(orders[i].0) != at && owner(MountOf(orders[i].0)) != s
    ensures SameHolding(g, Serve(g, orders), s, at)
  {
    hide Owned, CloneName, TouchedBy, SameHolding, Serve;
    forall i | 0 <= i < |orders| ensures SparesAt(g, orders, i, s, at) {
      ServeStaysOwned(g, orders[..i], owner);
      OwnersSpare(Serve(g, orders[..i]), orders[i].0, owner, s);
    }
    HolderUntouched(g, orders, s, at);
  }

  /** On one mount path the cleanup of the loser takes the holder's group away. */
  lemma SharedPathInterferes(g: Guest, s: string, m: string)
    requires Names(g, m, s)
    ensures exists o: Oracle :: CloneName(s) !in Perform(g, CleanupOrder(m), o).g.vgs
  {
    hide Perform;
    NamedGroupGoes(g, s, m);
  }

  // ---------------------------------------------------------------------------
  // Records over whole sessions
  // ---------------------------------------------------------------------------

  ghost predicate AnyExcused(g: Guest, orders: seq<(Order, Oracle)>) {
    && orders != []
    && var n := |orders| - 1;
    (AnyExcused(g, orders[..n]) || ExcusedRun(Serve(g, orders[..n]), orders[n].0, orders[n].1))
  }

  ghost predicate ExcusedRun(g: Guest, ord: Order, o: Oracle) {
    match ord
    case RestoreOrder(job) => Excused(Perform(g, ord, o).log, !Restore(o, Run(g, []), job).1)
    case CleanupOrder(_) => Excused(Perform(g, ord, o).log, false)
  }

  /** No outcome of this run can lose a record; exactly so, by RestoreRecordsAll and CleanupRecordsAll. */
  ghost predicate SafeOrder(g: Guest, ord: Order) {
    match ord
    case RestoreOrder(job) => RestoreSafe(g, job)
    case CleanupOrder(m) => CleanupSafe(g, m)
  }

  lemma PerformKeepsRecords(g: Guest, ord: Order, o: Oracle)
    requires Recorded(g) && SafeOrder(g, ord)
    ensures Recorded(Perform(g, ord, o).g) || ExcusedRun(g, ord, o)
  {
    hide Restore, Cleanup, Recorded, Excused, RestoreSafe, CleanupSafe;
    match ord {
      case RestoreOrder(job) => RestoreKeepsRecords(o, g, job);
      case CleanupOrder(m) =>
        CleanupRecordsAll(g, m, false);
        assert CleanupOnRecord(o, g, m, false);
    }
  }

  /** Over any session whose every run starts safe, every clone stays on record. */
  lemma {:induction false} SessionsKeepRecords(g: Guest, orders: seq<(Order, Oracle)>)
    requires Recorded(g) && forall i :: 0 <= i < |orders| ==> SafeOrder(Serve(g, orders[..i]), orders[i].0)
    ensures Recorded(Serve(g, orders)) || AnyExcused(g, orders)
  {
    hide Perform, Recorded, ExcusedRun, SafeOrder;
    if orders != [] {
      var n := |orders| - 1;
      forall i | 0 <= i < n ensures SafeOrder(Serve(g, orders[..n][..i]), orders[..n][i].0) {
        assert orders[..n][..i] == orders[..i];
      }
      SessionsKeepRecords(g, orders[..n]);
      if Recorded(Serve(g, orders[..n])) {
        PerformKeepsRecords(Serve(g, orders[..n]), orders[n].0, orders[n].1);
      }
    }
  }

  /** With one serial per mount path every run starts safe. */
  lemma OwnersAreSafe(g: Guest, ord: Order, owner: Owner)
    requires Recorded(g) && Owned(g, owner) && Follows(ord, owner)
    ensures SafeOrder(g, ord)
  {
    var m := MountOf(ord);
    hide Flat, Inside, IsClone, CloneName;
    forall v | v in g.vgs && IsClone(v)
      ensures NamedOutside(g, v, m)
      ensures ord.RestoreOrder? && v != CloneName(ord.job.serial) ==> NamedElsewhere(g, v, m)
    {
      var k :| NamedBy(g, v, k);
      assert Flat(k) && v == CloneName(owner(k)) by { NotEmpty(v); }
      FlatApart(k, m);
    }
  }

  /** So over any session with one serial per mount path, every clone stays on record. */
  lemma {:induction false} OwnersKeepRecords(g: Guest, orders: seq<(Order, Oracle)>, owner: Owner)
    requires Recorded(g) && Owned(g, owner) && AllFollow(orders, owner)
    ensures Recorded(Serve(g, orders)) || AnyExcused(g, orders)
  {
    hide Perform, Recorded, ExcusedRun, Owned, Follows, SafeOrder;
    if orders != [] {
      var n := |orders| - 1;
      OwnersKeepRecords(g, orders[..n], owner);
      ServeStaysOwned(g, orders[..n], owner);
      if Recorded(Serve(g, orders[..n])) {
        OwnersAreSafe(Serve(g, orders[..n]), orders[n].0, owner);
        PerformKeepsRecords(Serve(g, orders[..n]), orders[n].0, orders[n].1);
      }
    }
  }
}
