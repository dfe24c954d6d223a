/** The count line: printed by the helper, read back by ParseRestoredFileCount (phases.go). */
module FileCount {
  import opened Text

  const MAX_INT32 := 0x7FFF_FFFF
  const MIN_INT32 := -0x8000_0000
  const PREFIX := "[filerestore] "

  /** White space as both strings.TrimSpace and fmt's scanner define it. */
  predicate IsSpace(c: char) {
    var u := c as int;
    || 0x09 <= u <= 0x0d || u == 0x20 || u == 0x85 || u == 0xa0 || u == 0x1680
    || 0x2000 <= u <= 0x200a || u == 0x2028 || u == 0x2029 || u == 0x202f || u == 0x205f || u == 0x3000
  }

  function SkipSpace(s: string): string {
    if s != "" && IsSpace(s[0]) then SkipSpace(s[1..]) else s
  }

  function TrimSpaceRight(s: string): string {
    if s != "" && IsSpace(s[|s| - 1]) then TrimSpaceRight(s[..|s| - 1]) else s
  }

  function TrimSpace(s: string): string { TrimSpaceRight(SkipSpace(s)) }

  /** strings.Split(s, "\n") */
  function Lines(s: string): (ls: seq<string>)
    ensures |ls| > 0
  {
    if s == "" then [""]
    else if s[0] == '\n' then [""] + Lines(s[1..])
    else
      var rest := Lines(s[1..]);
      [[s[0]] + rest[0]] + rest[1..]
  }

  function Unlines(ls: seq<string>): string
    requires ls != []
  {
    if |ls| == 1 then ls[0] else ls[0] + "\n" + Unlines(ls[1..])
  }

  predicate IsDigit(c: char) { '0' <= c <= '9' }

  function DigitRun(s: string): (n: nat)
    ensures n <= |s|
    ensures All(s[..n], IsDigit)
    ensures n < |s| ==> !IsDigit(s[n])
  {
    if s != "" && IsDigit(s[0]) then 1 + DigitRun(s[1..]) else 0
  }

  function Value(digits: string): nat
    requires All(digits, IsDigit)
  {
    if digits == "" then 0
    else 10 * Value(digits[..|digits| - 1]) + (digits[|digits| - 1] as int - '0' as int)
  }

  /** A space in a scan format needs at least one space in the input, then takes them all. */
  predicate MatchesTail(s: string) {
    && s != "" && IsSpace(s[0])
    && var afterSpace := SkipSpace(s);
    && HasPrefix(afterSpace, "files")
    && var afterFiles := afterSpace[5..];
    && afterFiles != "" && IsSpace(afterFiles[0])
    && HasPrefix(SkipSpace(afterFiles), "restored")
  }

  /** fmt.Sscanf(line, "%d files restored", &count) with a 32-bit count. */
  function MatchFileCount(line: string): Option<int> {
    var s := SkipSpace(line);
    var signed := s != "" && (s[0] == '+' || s[0] == '-');
    var digits := if signed then s[1..] else s;
    var n := DigitRun(digits);
    if n == 0 then None else
      var magnitude: int := Value(digits[..n]);
      var v := if signed && s[0] == '-' then -magnitude else magnitude;
      if MIN_INT32 <= v <= MAX_INT32 && MatchesTail(digits[n..]) then Some(v) else None
  }

  /** The count carried by one line of output, if any. */
  function LineCount(line: string): Option<int> {
    var t := TrimSpace(line);
    if HasPrefix(t, PREFIX) then MatchFileCount(t[|PREFIX|..]) else None
  }

  function FirstCount(ls: seq<string>): int {
    if ls == [] then -1
    else if LineCount(ls[0]).Some? then LineCount(ls[0]).value
    else FirstCount(ls[1..])
  }

  function RestoredFileCount(stdout: string): int { FirstCount(Lines(stdout)) }

  /** The count handleRestoringPhase stores: a missing or negative count is reported as 0. */
  function ReportedCount(stdout: string): (n: int)
    ensures 0 <= n
  {
    if RestoredFileCount(stdout) < 0 then 0 else RestoredFileCount(stdout)
  }

  /** The line loop of ParseRestoredFileCount. */
  method ParseRestoredFileCount(stdout: string) returns (count: int)
    ensures count == RestoredFileCount(stdout)
  {
    var ls := Lines(stdout);
    for i := 0 to |ls|
      invariant FirstCount(ls[i..]) == FirstCount(ls)
    {
      var line := TrimSpace(ls[i]);
      assert ls[i..][1..] == ls[i + 1..];
      if !HasPrefix(line, PREFIX) {
        continue;
      }
      var c := MatchFileCount(line[|PREFIX|..]);
      if c.Some? {
        return c.value;
      }
    }
    return -1;
  }

  // ---------------------------------------------------------------------------
  // The printed form
  // ---------------------------------------------------------------------------

  function Decimal(n: nat): (s: string)
    ensures s != "" && All(s, IsDigit)
  {
    if n < 10 then [(n + '0' as int) as char]
    else Decimal(n / 10) + [(n % 10 + '0' as int) as char]
  }

  /** log "$file_count files restored" */
  function CountLine(n: nat): string { PREFIX + Decimal(n) + " files restored" }

  lemma {:induction false} ValueOfDecimal(n: nat)
    ensures Value(Decimal(n)) == n
  {
    if n >= 10 {
      ValueOfDecimal(n / 10);
      var s := Decimal(n);
      assert s[..|s| - 1] == Decimal(n / 10);
    }
  }

  lemma {:induction false} DigitRunOf(digits: string, rest: string)
    requires All(digits, IsDigit) && (rest == "" || !IsDigit(rest[0]))
    ensures DigitRun(digits + rest) == |digits|
  {
    if digits == "" {
      assert digits + rest == rest;
    } else {
      assert (digits + rest)[1..] == digits[1..] + rest;
      DigitRunOf(digits[1..], rest);
    }
  }

  lemma TailMatches()
    ensures MatchesTail(" files restored")
  {
    var s := " files restored";
    assert s[1..] == "files restored";
    assert SkipSpace(s) == s[1..];
    assert s[1..][..5] == "files";
    assert s[1..][5..] == " restored";
    assert s[1..][5..][1..] == "restored";
    assert SkipSpace(s[1..][5..]) == "restored";
    assert "restored"[..8] == "restored";
  }

  lemma MatchPrinted(digits: string, tail: string)
    requires digits != "" && All(digits, IsDigit)
    requires tail != "" && !IsDigit(tail[0]) && MatchesTail(tail)
    ensures MatchFileCount(digits + tail) == if Value(digits) <= MAX_INT32 then Some(Value(digits)) else None
  {
    var s := digits + tail;
    assert s[0] == digits[0] && IsDigit(s[0]);
    assert SkipSpace(s) == s;
    DigitRunOf(digits, tail);
    assert s[..|digits|] == digits && s[|digits|..] == tail;
  }

  lemma LineCountOf(prefix: string, body: string)
    requires prefix == PREFIX && body != "" && !IsSpace(body[|body| - 1])
    ensures LineCount(prefix + body) == MatchFileCount(body)
  {
  }

  /** A printed count line is readable exactly when the count fits 32 bits. */
  lemma CountLineReadsBack(n: nat)
    ensures LineCount(CountLine(n)) == if n <= MAX_INT32 then Some(n) else None
  {
    hide MatchFileCount, LineCount, Decimal, MatchesTail, Value;
    var digits, tail := Decimal(n), " files restored";
    TailMatches();
    MatchPrinted(digits, tail);
    ValueOfDecimal(n);
    assert (digits + tail)[|digits + tail| - 1] == tail[|tail| - 1];
    LineCountOf(PREFIX, digits + tail);
    assert CountLine(n) == PREFIX + (digits + tail);
  }

  lemma {:induction false} FirstCountIsFirst(ls: seq<string>, k: nat)
    requires k < |ls| && LineCount(ls[k]).Some?
    requires forall i :: 0 <= i < k ==> LineCount(ls[i]).None?
    ensures FirstCount(ls) == LineCount(ls[k]).value
  {
    if k > 0 {
      assert LineCount(ls[0]).None?;
      FirstCountIsFirst(ls[1..], k - 1);
    }
  }

  lemma {:induction false} NoCountAtAll(ls: seq<string>)
    requires forall i :: 0 <= i < |ls| ==> LineCount(ls[i]).None?
    ensures FirstCount(ls) == -1
  {
    if ls != [] {
      NoCountAtAll(ls[1..]);
    }
  }

  lemma {:induction false} LinesOfAppend(line: string, rest: string)
    requires All(line, c => c != '\n')
    ensures Lines(line + "\n" + rest) == [line] + Lines(rest)
    ensures Lines(line) == [line]
  {
    if line == "" {
      assert line + "\n" + rest == "\n" + rest;
      assert ("\n" + rest)[1..] == rest;
    } else {
      LinesOfAppend(line[1..], rest);
      assert (line + "\n" + rest)[1..] == line[1..] + "\n" + rest;
      assert [line[0]] + line[1..] == line;
    }
  }

  /** Splitting undoes joining, for lines without a newline inside. */
  lemma {:induction false} LinesOfUnlines(ls: seq<string>)
    requires ls != [] && forall i :: 0 <= i < |ls| ==> All(ls[i], c => c != '\n')
    ensures Lines(Unlines(ls)) == ls
  {
    LinesOfAppend(ls[0], "");
    if |ls| > 1 {
      LinesOfUnlines(ls[1..]);
      LinesOfAppend(ls[0], Unlines(ls[1..]));
    }
  }

  lemma {:induction false} CountLineIsOneLine(n: nat)
    ensures All(CountLine(n), c => c != '\n')
  {
  }

  /**
   Printing N after output that carries no count, followed by anything, makes the operator
   read N, for every N a 32-bit count can hold; beyond that the line is skipped.
   */
  lemma CountRoundTrip(before: seq<string>, n: nat, after: seq<string>)
    requires forall i :: 0 <= i < |before| ==> All(before[i], c => c != '\n') && LineCount(before[i]).None?
    requires forall i :: 0 <= i < |after| ==> All(after[i], c => c != '\n')
    ensures n <= MAX_INT32 ==> RestoredFileCount(Unlines(before + [CountLine(n)] + after)) == n
    ensures n > MAX_INT32 ==> RestoredFileCount(Unlines(before + [CountLine(n)] + after)) == FirstCount(after)
  {
    var ls := before + [CountLine(n)] + after;
    CountLineIsOneLine(n);
    LinesOfUnlines(ls);
    CountLineReadsBack(n);
    assert ls[|before|] == CountLine(n);
    if n <= MAX_INT32 {
      FirstCountIsFirst(ls, |before|);
    } else {
      assert before + [CountLine(n)] + after == (before + [CountLine(n)]) + after;
      SkipUncounted(before + [CountLine(n)], after);
    }
  }

  lemma {:induction false} SkipUncounted(before: seq<string>, after: seq<string>)
    requires forall i :: 0 <= i < |before| ==> LineCount(before[i]).None?
    ensures FirstCount(before + after) == FirstCount(after)
  {
    if before == [] {
      assert before + after == after;
    } else {
      assert (before + after)[1..] == before[1..] + after;
      SkipUncounted(before[1..], after);
    }
  }

  /** Any output without a readable count line yields -1, and is stored as 0. */
  lemma NoCountLine(stdout: string)
    requires forall i :: 0 <= i < |Lines(stdout)| ==> LineCount(Lines(stdout)[i]).None?
    ensures RestoredFileCount(stdout) == -1 && ReportedCount(stdout) == 0
  {
    NoCountAtAll(Lines(stdout));
  }

  // ---------------------------------------------------------------------------
  // The language of count lines
  // ---------------------------------------------------------------------------

  /** The pieces of a text that scans as a count: blanks, a sign, digits, blanks, "files", blanks, "restored", anything. */
  datatype Parts = Parts(lead: string, sign: string, digits: string, gap: string, gap2: string, rest: string)

  function Joined(p: Parts): string { p.lead + (p.sign + (p.digits + (p.gap + ("files" + (p.gap2 + ("restored" + p.rest)))))) }

  predicate WellFormed(p: Parts) {
    && All(p.lead, IsSpace) && (p.sign == "" || p.sign == "+" || p.sign == "-")
    && p.digits != "" && All(p.digits, IsDigit)
    && p.gap != "" && All(p.gap, IsSpace) && p.gap2 != "" && All(p.gap2, IsSpace)
  }

  function Number(p: Parts): int
    requires All(p.digits, IsDigit)
  {
    if p.sign == "-" then 0 - Value(p.digits) else Value(p.digits)
  }

  lemma {:induction false} SkipSpaceOf(blanks: string, rest: string)
    requires All(blanks, IsSpace) && (rest == "" || !IsSpace(rest[0]))
    ensures SkipSpace(blanks + rest) == rest
  {
    if blanks == "" {
      assert blanks + rest == rest;
    } else {
      assert (blanks + rest)[1..] == blanks[1..] + rest;
      SkipSpaceOf(blanks[1..], rest);
    }
  }

  /** What SkipSpace takes off. */
  lemma {:induction false} SkippedBlanks(s: string) returns (blanks: string)
    ensures All(blanks, IsSpace) && s == blanks + SkipSpace(s) && (SkipSpace(s) == "" || !IsSpace(SkipSpace(s)[0]))
    ensures s != "" && IsSpace(s[0]) ==> blanks != ""
  {
    if s != "" && IsSpace(s[0]) {
      var more := SkippedBlanks(s[1..]);
      blanks := [s[0]] + more;
    } else {
      blanks := "";
    }
  }

  lemma TailOf(gap: string, gap2: string, rest: string)
    requires gap != "" && All(gap, IsSpace) && gap2 != "" && All(gap2, IsSpace)
    ensures var s := gap + ("files" + (gap2 + ("restored" + rest))); MatchesTail(s) && s != "" && !IsDigit(s[0])
  {
    var inner := gap2 + ("restored" + rest);
    var s := gap + ("files" + inner);
    assert s[0] == gap[0];
    SkipSpaceOf(gap, "files" + inner);
    assert ("files" + inner)[..5] == "files" && ("files" + inner)[5..] == inner && inner[0] == gap2[0];
    SkipSpaceOf(gap2, "restored" + rest);
    assert ("restored" + rest)[..8] == "restored";
  }

  lemma TailParts(s: string) returns (gap: string, gap2: string, rest: string)
    requires MatchesTail(s)
    ensures gap != "" && All(gap, IsSpace) && gap2 != "" && All(gap2, IsSpace)
    ensures s == gap + ("files" + (gap2 + ("restored" + rest)))
  {
    gap := SkippedBlanks(s);
    var afterSpace := SkipSpace(s);
    var afterFiles := afterSpace[5..];
    assert afterSpace == "files" + afterFiles;
    gap2 := SkippedBlanks(afterFiles);
    var last := SkipSpace(afterFiles);
    rest := last[8..];
    assert last == "restored" + rest;
  }

  /** What follows the blanks in front: the sign and the digits. */
  lemma BodyOf(p: Parts)
    requires WellFormed(p)
    ensures var s := p.sign + (p.digits + (p.gap + ("files" + (p.gap2 + ("restored" + p.rest)))));
            var signed := s != "" && (s[0] == '+' || s[0] == '-'); var digits := if signed then s[1..] else s;
            && s != "" && !IsSpace(s[0]) && signed == (p.sign != "") && (signed ==> s[0] == p.sign[0])
            && digits == p.digits + (p.gap + ("files" + (p.gap2 + ("restored" + p.rest))))
  {
    var more := p.digits + (p.gap + ("files" + (p.gap2 + ("restored" + p.rest))));
    var s := p.sign + more;
    assert more[0] == p.digits[0] && IsDigit(more[0]);
    if p.sign == "" { assert s == more; } else { assert s[0] == p.sign[0] && s[1..] == more; }
  }

  /** Every text made of such pieces scans as its number, if that fits 32 bits. */
  lemma PartsMatch(p: Parts)
    requires WellFormed(p)
    ensures MatchFileCount(Joined(p)) == if MIN_INT32 <= Number(p) <= MAX_INT32 then Some(Number(p)) else None
  {
    hide MatchesTail;
    var tail := p.gap + ("files" + (p.gap2 + ("restored" + p.rest)));
    BodyOf(p);
    SkipSpaceOf(p.lead, p.sign + (p.digits + tail));
    TailOf(p.gap, p.gap2, p.rest);
    DigitRunOf(p.digits, tail);
    assert (p.digits + tail)[..|p.digits|] == p.digits && (p.digits + tail)[|p.digits|..] == tail;
  }

  /** And every text that scans is made of such pieces. */
  lemma MatchParts(line: string) returns (p: Parts)
    requires MatchFileCount(line).Some?
    ensures WellFormed(p) && line == Joined(p) && MatchFileCount(line).value == Number(p) && MIN_INT32 <= Number(p) <= MAX_INT32
  {
    hide MatchesTail;
    var lead := SkippedBlanks(line);
    var s := SkipSpace(line);
    var signed := s != "" && (s[0] == '+' || s[0] == '-');
    var digits := if signed then s[1..] else s;
    var n := DigitRun(digits);
    var gap, gap2, rest := TailParts(digits[n..]);
    p := Parts(lead, if signed then s[..1] else "", digits[..n], gap, gap2, rest);
    assert digits == digits[..n] + digits[n..];
    assert s == p.sign + digits;
    if signed { assert s[..1] == [s[0]]; }
  }

  /**
   Exact: a line carries the count n if and only if, trimmed, it is the script's mark followed by blanks,
   an optional sign, digits, blanks, "files", blanks, "restored" and anything, and the number is n and
   fits 32 bits.
   */
  lemma LineCountExactly(line: string, n: int)
    ensures LineCount(line) == Some(n) <==>
              exists p: Parts :: WellFormed(p) && TrimSpace(line) == "[filerestore] " + Joined(p) && n == Number(p) && MIN_INT32 <= n <= MAX_INT32
  {
    hide TrimSpace, MatchFileCount, Joined;
    var t := TrimSpace(line);
    if LineCount(line) == Some(n) {
      var p := MatchParts(t[|PREFIX|..]);
      assert t == PREFIX + Joined(p);
    }
    if p: Parts :| WellFormed(p) && t == "[filerestore] " + Joined(p) && n == Number(p) && MIN_INT32 <= n <= MAX_INT32 {
      PartsMatch(p);
      assert t[..|PREFIX|] == PREFIX && t[|PREFIX|..] == Joined(p);
    }
  }
}
