/** How the Linux helper picks and orders the mount points it detaches (filerestore.sh). */
module GuestMounts {
  import opened Text

  // ---------------------------------------------------------------------------
  // Selection: grep -E "^<escaped mount path>(/|$)"
  // ---------------------------------------------------------------------------

  /** The mount path itself or something below it, at a component boundary. */
  predicate AtOrBelow(target: string, mnt: string) {
    target == mnt || HasPrefix(target, mnt + "/")
  }

  predicate StrictlyBelow(target: string, mnt: string) { HasPrefix(target, mnt + "/") }

  lemma BelowTransitive(u: string, t: string, m: string)
    requires StrictlyBelow(u, t) && AtOrBelow(t, m)
    ensures AtOrBelow(u, m)
  {
  }

  /** The bracket expression of the sed command. */
  predicate Meta(c: char) { c in {']', '.', '*', '^', '$', '(', ')', '+', '?', '{', '|', '\\', '['} }

  /** sed 's/[...]/\\&/g' on one line. */
  function Escape(s: string): string {
    if s == "" then "" else (if Meta(s[0]) then ['\\', s[0]] else [s[0]]) + Escape(s[1..])
  }

  const TAIL: string := "(/|$)"

  function Pattern(mnt: string): string { "^" + Escape(mnt) + TAIL }

  /** The literal characters an extended regular expression starts with, and what follows them. */
  function ReadLiterals(p: string): (string, string) {
    if p == "" then ("", "")
    else if p[0] == '\\' then
      if |p| > 1 && Meta(p[1]) then
        var rest := ReadLiterals(p[2..]);
        ([p[1]] + rest.0, rest.1)
      else ("", p)
    else if Meta(p[0]) then ("", p)
    else
      var rest := ReadLiterals(p[1..]);
      ([p[0]] + rest.0, rest.1)
  }

  /** grep -E on one line, for anchored literals followed by "(/|$)"; None for any other pattern. */
  function GrepLine(p: string, line: string): Option<bool> {
    if p == "" || p[0] != '^' then None
    else
      var r := ReadLiterals(p[1..]);
      if r.1 != TAIL then None
      else Some(HasPrefix(line, r.0) && (|line| == |r.0| || line[|r.0|] == '/'))
  }

  lemma LiteralRead(c: char, rest: string)
    ensures !Meta(c) ==> ReadLiterals([c] + rest) == ([c] + ReadLiterals(rest).0, ReadLiterals(rest).1)
    ensures Meta(c) ==> ReadLiterals(['\\', c] + rest) == ([c] + ReadLiterals(rest).0, ReadLiterals(rest).1)
  {
  }

  lemma {:induction false} EscapeReadsBack(s: string)
    ensures ReadLiterals(Escape(s) + TAIL) == (s, TAIL)
  {
    if s == "" {
      assert TAIL[0] == '(' && Escape(s) + TAIL == TAIL;
    } else {
      hide Meta, ReadLiterals;
      var rest := Escape(s[1..]) + TAIL;
      EscapeReadsBack(s[1..]);
      LiteralRead(s[0], rest);
      assert Escape(s) + TAIL == (if Meta(s[0]) then ['\\', s[0]] else [s[0]]) + rest;
      assert s == [s[0]] + s[1..];
    }
  }

  lemma PatternReads(mnt: string)
    ensures var p := Pattern(mnt); p != "" && p[0] == '^' && ReadLiterals(p[1..]) == (mnt, TAIL)
  {
    hide ReadLiterals, Escape;
    EscapeReadsBack(mnt);
    assert Pattern(mnt)[1..] == Escape(mnt) + TAIL;
  }

  /** A prefix that ends at a component boundary. */
  predicate AtBoundary(target: string, mnt: string) {
    HasPrefix(target, mnt) && (|target| == |mnt| || target[|mnt|] == '/')
  }

  lemma LongerAtBoundary(target: string, mnt: string)
    requires |target| > |mnt|
    ensures HasPrefix(target, mnt + "/") <==> target[..|mnt|] == mnt && target[|mnt|] == '/'
  {
    var head := target[..|mnt| + 1];
    assert head == target[..|mnt|] + [target[|mnt|]];
    assert head[..|mnt|] == target[..|mnt|] && (mnt + "/")[..|mnt|] == mnt;
    assert head[|mnt|] == target[|mnt|] && (mnt + "/")[|mnt|] == '/';
  }

  lemma BoundaryIsBelow(target: string, mnt: string)
    ensures AtBoundary(target, mnt) <==> AtOrBelow(target, mnt)
  {
    if |target| > |mnt| {
      LongerAtBoundary(target, mnt);
    } else if |target| == |mnt| {
      assert target[..|mnt|] == target;
    }
  }

  /** Whatever characters the one-line mount path has, exactly it and what is below it are selected. */
  lemma SelectsSubtree(mnt: string, target: string)
    ensures GrepLine(Pattern(mnt), target) == Some(AtOrBelow(target, mnt))
  {
    hide Pattern, ReadLiterals, AtOrBelow;
    PatternReads(mnt);
    BoundaryIsBelow(target, mnt);
  }

  /** The pattern is not a bare prefix test: a sibling that merely starts alike is left out. */
  lemma SiblingNotSelected(mnt: string, more: string)
    requires more != "" && more[0] != '/'
    ensures GrepLine(Pattern(mnt), mnt + more) == Some(false)
  {
    SelectsSubtree(mnt, mnt + more);
    assert (mnt + more)[..|mnt| + 1][|mnt|] == more[0] && (mnt + "/")[|mnt|] == '/';
  }

  /** The lines of findmnt that pass the pattern, in their order. */
  function Selected(targets: seq<string>, mnt: string): (r: seq<string>)
    ensures forall t :: t in r <==> t in targets && AtOrBelow(t, mnt)
  {
    if targets == [] then []
    else
      SelectsSubtree(mnt, targets[0]);
      var rest := Selected(targets[1..], mnt);
      if GrepLine(Pattern(mnt), targets[0]) == Some(true) then [targets[0]] + rest else rest
  }

  /** Selection keeps every occurrence of a selected target. */
  lemma {:induction false} SelectedCounts(targets: seq<string>, mnt: string, t: string)
    ensures multiset(Selected(targets, mnt))[t] == if AtOrBelow(t, mnt) then multiset(targets)[t] else 0
  {
    if targets != [] {
      SelectedCounts(targets[1..], mnt, t);
      SelectsSubtree(mnt, targets[0]);
      assert targets == [targets[0]] + targets[1..];
    }
  }

  // ---------------------------------------------------------------------------
  // Order: sort -r
  // ---------------------------------------------------------------------------

  /** Lexicographic order, the order of sort in the C locale. */
  predicate Leq(a: string, b: string) {
    a == "" || (b != "" && (a[0] < b[0] || (a[0] == b[0] && Leq(a[1..], b[1..]))))
  }

  lemma {:induction false} LeqTotal(a: string, b: string)
    ensures Leq(a, b) || Leq(b, a)
  {
    if a != "" && b != "" && a[0] == b[0] { LeqTotal(a[1..], b[1..]); }
  }

  lemma {:induction false} LeqAntisymmetric(a: string, b: string)
    requires Leq(a, b) && Leq(b, a)
    ensures a == b
  {
    if a != "" && b != "" {
      LeqAntisymmetric(a[1..], b[1..]);
      assert a == [a[0]] + a[1..] && b == [b[0]] + b[1..];
    }
  }

  lemma {:induction false} LeqTransitive(a: string, b: string, c: string)
    requires Leq(a, b) && Leq(b, c)
    ensures Leq(a, c)
  {
    if a != "" && a[0] == b[0] == c[0] { LeqTransitive(a[1..], b[1..], c[1..]); }
  }

  lemma {:induction false} PrefixLeq(a: string, more: string)
    ensures Leq(a, a + more)
  {
    if a != "" {
      PrefixLeq(a[1..], more);
      assert (a + more)[1..] == a[1..] + more;
    }
  }

  ghost predicate Descending(s: seq<string>) {
    forall i, j :: 0 <= i < j < |s| ==> Leq(s[j], s[i])
  }

  function Insert(x: string, s: seq<string>): (r: seq<string>)
    ensures multiset(r) == multiset(s) + multiset{x}
  {
    if s == [] then [x]
    else if Leq(s[0], x) then [x] + s
    else
      assert s == [s[0]] + s[1..];
      [s[0]] + Insert(x, s[1..])
  }

  /** sort -r */
  function SortDown(s: seq<string>): (r: seq<string>)
    ensures multiset(r) == multiset(s)
  {
    if s == [] then [] else
    assert s == [s[0]] + s[1..];
    Insert(s[0], SortDown(s[1..]))
  }

  lemma {:induction false} InsertDescends(x: string, s: seq<string>)
    requires Descending(s)
    ensures Descending(Insert(x, s))
  {
    if s == [] {
    } else if Leq(s[0], x) {
      forall j | 0 <= j < |s| ensures Leq(s[j], x) {
        if j > 0 { LeqTransitive(s[j], s[0], x); }
      }
    } else {
      InsertDescends(x, s[1..]);
      LeqTotal(s[0], x);
      var rest := Insert(x, s[1..]);
      forall j | 0 <= j < |rest| ensures Leq(rest[j], s[0]) {
        assert rest[j] in multiset(rest);
        assert rest[j] == x || rest[j] in s[1..];
      }
    }
  }

  lemma {:induction false} SortDescends(s: seq<string>)
    ensures Descending(SortDown(s))
  {
    if s != [] {
      SortDescends(s[1..]);
      InsertDescends(s[0], SortDown(s[1..]));
    }
  }

  /** In descending order whatever lies below a directory comes before the directory. */
  lemma DescendantsFirst(s: seq<string>, i: nat, j: nat)
    requires Descending(s) && i < |s| && j < |s| && StrictlyBelow(s[j], s[i])
    ensures j < i
  {
    var below, dir := s[j], s[i];
    assert below == dir + below[|dir|..] by {
      assert below[..|dir|] == below[..|dir| + 1][..|dir|];
    }
    PrefixLeq(dir, below[|dir|..]);
    if i <= j { LeqAntisymmetric(below, dir); }
  }

  /** Both together: the list the cleanup loop walks through. */
  function DetachOrder(targets: seq<string>, mnt: string): seq<string> {
    SortDown(Selected(targets, mnt))
  }

  lemma DetachOrderIsRight(targets: seq<string>, mnt: string)
    ensures var s := DetachOrder(targets, mnt);
            && (forall t :: multiset(s)[t] == if AtOrBelow(t, mnt) then multiset(targets)[t] else 0)
            && (forall i, j :: 0 <= i < |s| && 0 <= j < |s| && StrictlyBelow(s[j], s[i]) ==> j < i)
  {
    var s := DetachOrder(targets, mnt);
    SortDescends(Selected(targets, mnt));
    forall t ensures multiset(s)[t] == if AtOrBelow(t, mnt) then multiset(targets)[t] else 0 {
      SelectedCounts(targets, mnt, t);
    }
    forall i, j | 0 <= i < |s| && 0 <= j < |s| && StrictlyBelow(s[j], s[i]) ensures j < i {
      DescendantsFirst(s, i, j);
    }
  }
}
