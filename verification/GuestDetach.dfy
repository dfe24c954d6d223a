/** The order of the submount loop is the order the kernel wants: a mounted directory cannot go first. */
module GuestDetach {
  import opened GuestMounts
  import opened GuestScript

  /** Plain unmounts only, and all of them successful. */
  predicate AllClean(log: seq<Call>) { forall i :: 0 <= i < |log| ==> log[i].cmd.Umount? && log[i].ok }

  /** What is mounted at or below m, with multiplicity, is exactly ts. */
  ghost predicate Holds(mounts: seq<string>, m: string, ts: seq<string>) {
    forall t :: multiset(ts)[t] == if AtOrBelow(t, m) then multiset(mounts)[t] else 0
  }

  lemma {:induction false} DropLastCounts(s: seq<string>, t: string)
    requires t in s
    ensures multiset(DropLast(s, t)) == multiset(s) - multiset{t}
  {
    assert s == [s[0]] + s[1..];
    if !(s[0] == t && t !in s[1..]) {
      DropLastCounts(s[1..], t);
    }
  }

  /** Nothing mounted lies below the first target in the list. */
  lemma FirstIsFree(mounts: seq<string>, m: string, ts: seq<string>)
    requires ts != [] && Descending(ts) && Holds(mounts, m, ts)
    ensures ts[0] in mounts && forall u :: u in mounts ==> !StrictlyBelow(u, ts[0])
  {
    var t := ts[0];
    assert multiset(ts)[t] > 0;
    assert AtOrBelow(t, m) && multiset(mounts)[t] > 0;
    forall u | u in mounts ensures !StrictlyBelow(u, t) {
      if AtOrBelow(u, m) {
        assert multiset(ts)[u] > 0;
        var j :| 0 <= j < |ts| && ts[j] == u;
        if StrictlyBelow(u, t) { DescendantsFirst(ts, 0, j); }
      } else if StrictlyBelow(u, t) {
        BelowTransitive(u, t, m);
      }
    }
  }

  lemma HoldsRest(mounts: seq<string>, m: string, ts: seq<string>)
    requires ts != [] && Holds(mounts, m, ts) && ts[0] in mounts && AtOrBelow(ts[0], m)
    ensures Holds(DropLast(mounts, ts[0]), m, ts[1..])
  {
    DropLastCounts(mounts, ts[0]);
    assert ts == [ts[0]] + ts[1..];
    forall t ensures multiset(ts[1..])[t] == if AtOrBelow(t, m) then multiset(DropLast(mounts, ts[0]))[t] else 0 {
    }
  }

  lemma {:induction false} DrainsFrom(o: Oracle, r: Run, m: string, ts: seq<string>)
    requires forall n: nat :: o(n).ok
    requires m != "" && Descending(ts) && Holds(r.g.mounts, m, ts)
    ensures var e := UmountAll(o, r, ts);
            && r.log <= e.log && AllClean(e.log[|r.log|..])
            && (forall t :: t in e.g.mounts ==> !AtOrBelow(t, m))
    decreases |ts|
  {
    if ts == [] {
      forall t | t in r.g.mounts ensures !AtOrBelow(t, m) {
        assert multiset(r.g.mounts)[t] > 0;
      }
    } else {
      FirstIsFree(r.g.mounts, m, ts);
      assert multiset(ts)[ts[0]] > 0;
      var u := Do(o, r, Umount(ts[0]));
      assert u.1 && u.0.g.mounts == DropLast(r.g.mounts, ts[0]);
      hide DropLast, Do, AtOrBelow;
      HoldsRest(r.g.mounts, m, ts);
      assert ts[0] != "" by { NonEmpty(ts[0], m); }
      DrainsFrom(o, u.0, m, ts[1..]);
      var e := UmountAll(o, u.0, ts[1..]);
      OneMoreClean(o, r, ts[0], e.log);
    }
  }

  lemma NonEmpty(t: string, m: string)
    requires AtOrBelow(t, m) && m != ""
    ensures t != ""
  {
  }

  lemma OneMoreClean(o: Oracle, r: Run, t: string, log: seq<Call>)
    requires var u := Do(o, r, Umount(t)); u.1 && u.0.log <= log && AllClean(log[|u.0.log|..])
    ensures r.log <= log && AllClean(log[|r.log|..])
  {
  }

  /**
   If only the kernel's own rule (no unmounting below a mounted child) stands in the way, the
   loop empties the whole subtree, never needs a lazy unmount, and every unmount succeeds.
   */
  lemma DrainsInOrder(o: Oracle, r: Run, m: string)
    requires (forall n: nat :: o(n).ok) && m != ""
    ensures var e := UmountAll(o, r, DetachOrder(r.g.mounts, m));
            && r.log <= e.log && AllClean(e.log[|r.log|..])
            && (forall t :: t in e.g.mounts ==> !AtOrBelow(t, m))
  {
    DetachOrderIsRight(r.g.mounts, m);
    SortDescends(Selected(r.g.mounts, m));
    DrainsFrom(o, r, m, DetachOrder(r.g.mounts, m));
  }

  lemma {:induction false} DropBelowCounts(s: seq<string>, t: string)
    ensures multiset(DropBelow(s, t))[t] == multiset(s)[t]
  {
    if s != [] {
      assert s == [s[0]] + s[1..];
      DropBelowCounts(s[1..], t);
    }
  }

  /**
   What try_umount means: one of its commands succeeded and the topmost mount at the target is gone,
   or both failed and nothing changed; the second is lazy and comes only behind a failure.
   */
  ghost predicate OneMountLess(a: Run, b: Run, t: string) {
    && b.g.vgs == a.g.vgs && b.g.files == a.g.files && a.log < b.log
    && (var last := b.log[|b.log| - 1];
        if last.ok then multiset(a.g.mounts)[t] == multiset(b.g.mounts)[t] + 1 else b.g == a.g && last.cmd == LazyUmount(t))
    && (forall i :: |a.log| <= i < |b.log| && b.log[i].cmd.LazyUmount? ==> i == |a.log| + 1 && !b.log[|a.log|].ok)
  }

  lemma TryUmountMeans(o: Oracle, r: Run, t: string)
    ensures OneMountLess(r, TryUmount(o, r, t), t)
  {
    hide DropLast, DropBelow, StrictlyBelow;
    if t in r.g.mounts {
      DropLastCounts(r.g.mounts, t);
      DropBelowCounts(r.g.mounts, t);
      assert multiset(DropBelow(r.g.mounts, t))[t] > 0;
      DropLastCounts(DropBelow(r.g.mounts, t), t);
    }
  }
}
