/**
 The command line that travels over SSH: the operator's printers (ssh.go) and the Linux
 helper's splitter and option loop (filerestore.sh), with the round trips between them.
 */
module Commands {
  import opened Text
  import opened GuestOs

  const SLASHES: set<char> := {'/', '\\'}

  /** The restore command; the source panics on an empty volume name or mount path. */
  function BuildRestoreCommand(os: Os, volumeName: string, mountPath: string, sourcePath: string): string
    requires volumeName != "" && mountPath != ""
  {
    var mount := TrimRight(mountPath, SLASHES);
    var source := TrimRight(sourcePath, SLASHES);
    var head := HelperScript(os) + " restore --serial " + volumeName + " --mount-path ";
    if os.Windows? then
      head + "\"" + mount + "\"" + (if source != "" then " --source-path \"" + source + "\"" else "")
    else
      head + mount + (if source != "" then " --source-path " + source else "")
  }

  function BuildCleanupCommand(os: Os, mountPath: string): string
    requires mountPath != ""
  {
    HelperScript(os) + " cleanup --mount-path " + (if os.Windows? then "\"" + mountPath + "\"" else mountPath)
  }

  // ---------------------------------------------------------------------------
  // The helper's side
  // ---------------------------------------------------------------------------

  predicate IsBlank(c: char) { c == ' ' || c == '\t' }

  /** No character at which the helper's `read` would split or stop. */
  predicate IsPlainChar(c: char) { !IsBlank(c) && c != '\n' }
  predicate Plain(s: string) { All(s, IsPlainChar) }

  /** What `read` sees of its here-string: everything up to the first newline. */
  function FirstLine(s: string): (r: string)
    ensures All(r, c => c != '\n')
  {
    if s == "" || s[0] == '\n' then "" else [s[0]] + FirstLine(s[1..])
  }

  function WordLength(s: string): (n: nat)
    ensures n <= |s|
    ensures forall i :: 0 <= i < n ==> !IsBlank(s[i])
    ensures n < |s| ==> IsBlank(s[n])
  {
    if s == "" || IsBlank(s[0]) then 0 else 1 + WordLength(s[1..])
  }

  /** `read -ra` with the default separators: maximal runs of non-blank characters. */
  function Words(s: string): seq<string>
    decreases |s|
  {
    if s == "" then []
    else if IsBlank(s[0]) then Words(s[1..])
    else [s[..WordLength(s)]] + Words(s[WordLength(s)..])
  }

  datatype Request = Request(mode: string, serial: string, mountPath: string, sourcePath: string)

  /** The option loop; None is `usage` (exit 1). */
  function ParseOptions(args: seq<string>, req: Request): Option<Request> {
    if args == [] then Some(req)
    else if |args| < 2 || args[1] == "" then None
    else if args[0] == "--serial" then ParseOptions(args[2..], req.(serial := args[1]))
    else if args[0] == "--mount-path" then ParseOptions(args[2..], req.(mountPath := args[1]))
    else if args[0] == "--source-path" then ParseOptions(args[2..], req.(sourcePath := args[1]))
    else None
  }

  predicate Complete(req: Request) {
    req.mountPath != "" && (req.mode == "restore" ==> req.serial != "")
  }

  function ParseArgs(args: seq<string>): Option<Request> {
    if args == [] || (args[0] != "restore" && args[0] != "cleanup") then None
    else
      var parsed := ParseOptions(args[1..], Request(args[0], "", "", ""));
      if parsed.Some? && Complete(parsed.value) then parsed else None
  }

  /** SSH_ORIGINAL_COMMAND must be the helper's own path, alone or followed by white space. */
  predicate AllowedCommand(command: string) {
    var script := HelperScript(Linux);
    && HasPrefix(command, script)
    && (|command| == |script| || IsBlank(command[|script|]) || '\n' <= command[|script|] <= '\r')
  }

  function HelperParse(command: string): Option<Request> {
    if !AllowedCommand(command) then None
    else ParseArgs(Words(FirstLine(command[|HelperScript(Linux)|..])))
  }

  /** The `while [[ $# -gt 0 ]]` loop of the script, shifting through its arguments. */
  method RunOptionLoop(mode: string, args: seq<string>) returns (req: Option<Request>)
    ensures req == ParseOptions(args, Request(mode, "", "", ""))
  {
    var serial, mountPath, sourcePath := "", "", "";
    var rest := args;
    while |rest| > 0
      invariant ParseOptions(rest, Request(mode, serial, mountPath, sourcePath)) == ParseOptions(args, Request(mode, "", "", ""))
      decreases |rest|
    {
      if |rest| < 2 || rest[1] == "" {
        return None;
      }
      if rest[0] == "--serial" {
        serial := rest[1];
      } else if rest[0] == "--mount-path" {
        mountPath := rest[1];
      } else if rest[0] == "--source-path" {
        sourcePath := rest[1];
      } else {
        return None;
      }
      rest := rest[2..];
    }
    return Some(Request(mode, serial, mountPath, sourcePath));
  }

  // ---------------------------------------------------------------------------
  // Splitting undoes printing
  // ---------------------------------------------------------------------------

  function Spaced(words: seq<string>): string {
    if words == [] then "" else " " + words[0] + Spaced(words[1..])
  }

  predicate Printable(words: seq<string>) {
    forall i :: 0 <= i < |words| ==> words[i] != "" && Plain(words[i])
  }

  lemma {:induction false} WordLengthOf(w: string, rest: string)
    requires All(w, c => !IsBlank(c)) && (rest == "" || IsBlank(rest[0]))
    ensures WordLength(w + rest) == |w|
  {
    if w == "" {
      assert w + rest == rest;
    } else {
      assert (w + rest)[1..] == w[1..] + rest;
      WordLengthOf(w[1..], rest);
    }
  }

  lemma {:induction false} FirstLineOf(s: string)
    requires All(s, c => c != '\n')
    ensures FirstLine(s) == s
  {
    if s != "" {
      FirstLineOf(s[1..]);
    }
  }

  lemma {:induction false} SpacedOnOneLine(words: seq<string>)
    requires Printable(words)
    ensures All(Spaced(words), c => c != '\n')
  {
    if words != [] {
      SpacedOnOneLine(words[1..]);
      AllAppend(" " + words[0], Spaced(words[1..]), c => c != '\n');
    }
  }

  lemma FirstWord(w: string, rest: string)
    requires w != "" && Plain(w) && (rest == "" || IsBlank(rest[0]))
    ensures Words(" " + (w + rest)) == [w] + Words(rest)
  {
    var s := w + rest;
    WordLengthOf(w, rest);
    assert s[..|w|] == w && s[|w|..] == rest && s[0] == w[0] && !IsBlank(s[0]);
    assert Words(s) == [w] + Words(rest);
    assert (" " + s)[1..] == s && (" " + s)[0] == ' ';
  }

  lemma {:induction false} WordsOfSpaced(words: seq<string>)
    requires Printable(words)
    ensures Words(Spaced(words)) == words
  {
    if words != [] {
      var w, rest := words[0], Spaced(words[1..]);
      assert Spaced(words) == " " + (w + rest);
      assert rest == "" || IsBlank(rest[0]);
      WordsOfSpaced(words[1..]);
      FirstWord(w, rest);
      assert words == [w] + words[1..];
    }
  }

  /** Whatever is parsed is made of plain, non-empty words. */
  lemma {:induction false} WordsArePlain(s: string)
    requires All(s, c => c != '\n')
    ensures Printable(Words(s))
    decreases |s|
  {
    if s == "" {
    } else if IsBlank(s[0]) {
      WordsArePlain(s[1..]);
    } else {
      WordsArePlain(s[WordLength(s)..]);
    }
  }

  ghost predicate PlainRequest(req: Request) {
    Plain(req.mode) && Plain(req.serial) && Plain(req.mountPath) && Plain(req.sourcePath)
  }

  lemma {:induction false} OptionsStayPlain(args: seq<string>, req: Request)
    requires Printable(args) && PlainRequest(req)
    ensures var r := ParseOptions(args, req); r.Some? ==> PlainRequest(r.value)
    decreases |args|
  {
    if |args| >= 2 {
      if args[0] == "--serial" { OptionsStayPlain(args[2..], req.(serial := args[1])); }
      else if args[0] == "--mount-path" { OptionsStayPlain(args[2..], req.(mountPath := args[1])); }
      else if args[0] == "--source-path" { OptionsStayPlain(args[2..], req.(sourcePath := args[1])); }
    }
  }

  lemma ParsedIsPlain(command: string)
    ensures var r := HelperParse(command); r.Some? ==> PlainRequest(r.value) && Complete(r.value)
  {
    if HelperParse(command).Some? {
      var line := FirstLine(command[|HelperScript(Linux)|..]);
      WordsArePlain(line);
      var args := Words(line);
      OptionsStayPlain(args[1..], Request(args[0], "", "", ""));
    }
  }

  lemma HelperParseSpaced(words: seq<string>)
    requires Printable(words) && words != []
    ensures HelperParse(HelperScript(Linux) + Spaced(words)) == ParseArgs(words)
  {
    var command := HelperScript(Linux) + Spaced(words);
    assert command[..|HelperScript(Linux)|] == HelperScript(Linux);
    assert command[|HelperScript(Linux)|..] == Spaced(words);
    assert Spaced(words)[0] == ' ';
    SpacedOnOneLine(words);
    FirstLineOf(Spaced(words));
    WordsOfSpaced(words);
  }

  lemma SpacedMore(w: string, rest: seq<string>)
    ensures Spaced([w] + rest) == " " + w + Spaced(rest)
  {
  }

  // ---------------------------------------------------------------------------
  // Main results
  // ---------------------------------------------------------------------------

  function RestoreWords(serial: string, mount: string, source: string): seq<string> {
    ["restore", "--serial", serial, "--mount-path", mount] + (if source != "" then ["--source-path", source] else [])
  }

  lemma SpacedFive(a: string, b: string, c: string, d: string, e: string, tail: seq<string>)
    ensures Spaced([a, b, c, d, e] + tail) == " " + a + " " + b + " " + c + " " + d + " " + e + Spaced(tail)
  {
    hide Spaced;
    SpacedMore(e, tail);
    SpacedMore(d, [e] + tail);
    SpacedMore(c, [d] + ([e] + tail));
    SpacedMore(b, [c] + ([d] + ([e] + tail)));
    SpacedMore(a, [b] + ([c] + ([d] + ([e] + tail))));
    assert [a] + ([b] + ([c] + ([d] + ([e] + tail)))) == [a, b, c, d, e] + tail;
  }

  lemma SpacedTwo(a: string, b: string)
    ensures Spaced([a, b]) == " " + a + " " + b
  {
    SpacedMore(b, []);
    SpacedMore(a, [b]);
    assert [a] + [b] == [a, b] && [b] + [] == [b];
  }

  /** Regrouping the printed pieces into words, whatever the pieces are. */
  lemma Regroup(script: string, a: string, b: string, serial: string, c: string, mount: string, tail: string, ab: string, sep: string)
    requires ab == " " + a + " " + b + " " && sep == " " + c + " "
    ensures script + ab + serial + sep + mount + tail
            == script + (" " + a + " " + b + " " + serial + " " + c + " " + mount + tail)
  {
  }

  lemma Literals()
    ensures " restore --serial " == " " + "restore" + " " + "--serial" + " "
    ensures " --mount-path " == " " + "--mount-path" + " "
    ensures " --source-path " == " " + "--source-path" + " "
  {
  }

  function SourceTail(source: string): string { if source != "" then " --source-path " + source else "" }

  lemma SourceTailIsSpaced(source: string)
    ensures Spaced(if source != "" then ["--source-path", source] else []) == SourceTail(source)
  {
    assert Spaced([]) == "";
    hide Spaced;
    SpacedTwo("--source-path", source);
    Literals();
  }

  lemma PiecesAreSpaced(script: string, serial: string, mount: string, source: string)
    ensures script + " restore --serial " + serial + " --mount-path " + mount + SourceTail(source)
            == script + Spaced(RestoreWords(serial, mount, source))
  {
    hide Spaced, SourceTail;
    SourceTailIsSpaced(source);
    SpacedFive("restore", "--serial", serial, "--mount-path", mount, if source != "" then ["--source-path", source] else []);
    Literals();
    Regroup(script, "restore", "--serial", serial, "--mount-path", mount, SourceTail(source), " restore --serial ", " --mount-path ");
  }

  lemma RestoreCommandIsSpaced(serial: string, mountPath: string, sourcePath: string)
    requires serial != "" && mountPath != ""
    ensures BuildRestoreCommand(Linux, serial, mountPath, sourcePath)
            == HelperScript(Linux) + Spaced(RestoreWords(serial, TrimRight(mountPath, SLASHES), TrimRight(sourcePath, SLASHES)))
  {
    hide TrimRight, Spaced, RestoreWords;
    PiecesAreSpaced(HelperScript(Linux), serial, TrimRight(mountPath, SLASHES), TrimRight(sourcePath, SLASHES));
  }

  lemma ParseRestoreWords(serial: string, mount: string, source: string)
    requires serial != "" && mount != ""
    ensures ParseArgs(RestoreWords(serial, mount, source)) == Some(Request("restore", serial, mount, source))
  {
    var words := RestoreWords(serial, mount, source);
    var r0 := Request("restore", "", "", "");
    var r1 := r0.(serial := serial);
    var r2 := r1.(mountPath := mount);
    assert words[1..][2..] == words[3..] && words[3..][2..] == words[5..];
    assert ParseOptions(words[1..], r0) == ParseOptions(words[3..], r1);
    assert ParseOptions(words[3..], r1) == ParseOptions(words[5..], r2);
    if source != "" {
      assert words[5..] == ["--source-path", source];
      assert words[5..][2..] == [];
    } else {
      assert words[5..] == [];
    }
    assert ParseOptions(words[5..], r2) == Some(r2.(sourcePath := source));
  }

  lemma PlainCommandReadsBack(serial: string, mountPath: string, sourcePath: string)
    requires serial != "" && mountPath != ""
    requires var mount, source := TrimRight(mountPath, SLASHES), TrimRight(sourcePath, SLASHES);
             Plain(serial) && Plain(mount) && Plain(source) && mount != ""
    ensures var mount, source := TrimRight(mountPath, SLASHES), TrimRight(sourcePath, SLASHES);
            HelperParse(BuildRestoreCommand(Linux, serial, mountPath, sourcePath)) == Some(Request("restore", serial, mount, source))
  {
    hide TrimRight, BuildRestoreCommand, HelperParse, Spaced, ParseArgs;
    var mount, source := TrimRight(mountPath, SLASHES), TrimRight(sourcePath, SLASHES);
    RestoreCommandIsSpaced(serial, mountPath, sourcePath);
    assert Printable(RestoreWords(serial, mount, source)) by { WordsPrintable(serial, mount, source); }
    HelperParseSpaced(RestoreWords(serial, mount, source));
    ParseRestoreWords(serial, mount, source);
  }

  lemma WordsPrintable(serial: string, mount: string, source: string)
    requires serial != "" && mount != "" && Plain(serial) && Plain(mount) && Plain(source)
    ensures Printable(RestoreWords(serial, mount, source))
  {
  }

  /**
   The helper reads back exactly the mode, serial, trimmed mount path and trimmed source path
   if and only if none of the three contains a separator and the trimmed mount path is not empty.
   */
  lemma RestoreRoundTrip(serial: string, mountPath: string, sourcePath: string)
    requires serial != "" && mountPath != ""
    ensures var mount, source := TrimRight(mountPath, SLASHES), TrimRight(sourcePath, SLASHES);
            HelperParse(BuildRestoreCommand(Linux, serial, mountPath, sourcePath)) == Some(Request("restore", serial, mount, source))
            <==> Plain(serial) && Plain(mount) && Plain(source) && mount != ""
  {
    hide TrimRight, BuildRestoreCommand, HelperParse, Plain;
    var mount, source := TrimRight(mountPath, SLASHES), TrimRight(sourcePath, SLASHES);
    ParsedIsPlain(BuildRestoreCommand(Linux, serial, mountPath, sourcePath));
    if Plain(serial) && Plain(mount) && Plain(source) && mount != "" {
      PlainCommandReadsBack(serial, mountPath, sourcePath);
    }
  }

  /** Characters of a Kubernetes object name (a DNS subdomain). */
  predicate IsNameChar(c: char) { 'a' <= c <= 'z' || '0' <= c <= '9' || c == '-' || c == '.' }
  predicate IsObjectName(s: string) { s != "" && All(s, IsNameChar) }

  lemma MountPathIsPlain(name: string)
    requires IsObjectName(name)
    ensures Plain(MountPath(Linux, name))
    ensures TrimRight(MountPath(Linux, name), SLASHES) == MountPath(Linux, name)
  {
  }

  lemma CleanupCommandIsSpaced(path: string)
    requires path != ""
    ensures BuildCleanupCommand(Linux, path) == HelperScript(Linux) + Spaced(["cleanup", "--mount-path", path])
  {
    hide Spaced;
    SpacedTwo("--mount-path", path);
    SpacedMore("cleanup", ["--mount-path", path]);
    assert ["cleanup"] + ["--mount-path", path] == ["cleanup", "--mount-path", path];
    assert " cleanup --mount-path " == " " + "cleanup" + " " + "--mount-path" + " ";
  }

  lemma ParseCleanupCommand(path: string)
    requires path != "" && Plain(path)
    ensures HelperParse(BuildCleanupCommand(Linux, path)) == Some(Request("cleanup", "", path, ""))
  {
    var words := ["cleanup", "--mount-path", path];
    CleanupCommandIsSpaced(path);
    HelperParseSpaced(words);
    hide HelperParse, Spaced, Plain;
    var req := Request("cleanup", "", path, "");
    assert words[1..] == ["--mount-path", path] && words[1..][2..] == [];
    assert ParseOptions(words[1..], Request("cleanup", "", "", "")) == ParseOptions([], req);
  }

  /** Cleanup addresses the very mount path that restore used, for every source name. */
  lemma CleanupRoundTrip(name: string, serial: string, sourcePath: string)
    requires IsObjectName(name)
    requires serial != "" && Plain(serial) && Plain(sourcePath)
    ensures HelperParse(BuildCleanupCommand(Linux, MountPath(Linux, name))) == Some(Request("cleanup", "", MountPath(Linux, name), ""))
    ensures HelperParse(BuildRestoreCommand(Linux, serial, MountPath(Linux, name), sourcePath))
            == Some(Request("restore", serial, MountPath(Linux, name), TrimRight(sourcePath, SLASHES)))
  {
    MountPathIsPlain(name);
    ParseCleanupCommand(MountPath(Linux, name));
    RestoreRoundTrip(serial, MountPath(Linux, name), sourcePath);
  }

  /** The operator treats the restore as automatic; the helper will copy files. */
  predicate OperatorAutomatic(sourcePath: string) { sourcePath != "" }
  predicate HelperAutomatic(req: Request) { req.sourcePath != "" }

  predicate IsSlash(c: char) { c in SLASHES }

  lemma {:induction false} FirstLineAppend(a: string, b: string)
    requires All(a, c => c != '\n')
    ensures FirstLine(a + b) == a + FirstLine(b)
  {
    if a == "" {
      assert a + b == b;
    } else {
      FirstLineAppend(a[1..], b);
      assert (a + b)[1..] == a[1..] + b;
    }
  }

  lemma BlankOrEmpty(words: seq<string>, rest: string)
    requires rest == "" || IsBlank(rest[0])
    ensures var s := Spaced(words) + rest; s == "" || IsBlank(s[0])
  {
  }

  lemma SpacedFirst(words: seq<string>, rest: string)
    requires words != []
    ensures Spaced(words) + rest == " " + (words[0] + (Spaced(words[1..]) + rest))
  {
    var more := Spaced(words[1..]);
    hide Spaced;
    assert " " + words[0] + more + rest == " " + (words[0] + (more + rest));
    SpacedUnfolds(words);
  }

  lemma SpacedUnfolds(words: seq<string>)
    requires words != []
    ensures Spaced(words) == " " + words[0] + Spaced(words[1..])
  {
  }

  lemma {:induction false} WordsThen(words: seq<string>, rest: string)
    requires Printable(words) && (rest == "" || IsBlank(rest[0]))
    ensures Words(Spaced(words) + rest) == words + Words(rest)
  {
    hide Words, Plain, Spaced;
    if words == [] {
      SpacedNothing();
      assert "" + rest == rest && words + Words(rest) == Words(rest);
    } else {
      var w, tail := words[0], words[1..];
      SpacedFirst(words, rest);
      BlankOrEmpty(tail, rest);
      WordsThen(tail, rest);
      FirstWord(w, Spaced(tail) + rest);
      assert words + Words(rest) == [w] + (tail + Words(rest));
    }
  }

  /** Everything up to and including the option that announces the source path. */
  function RestoreHead(serial: string, mount: string): seq<string> {
    ["restore", "--serial", serial, "--mount-path", mount, "--source-path"]
  }

  lemma HeadIsSpaced(script: string, serial: string, mount: string, source: string)
    requires source != ""
    ensures script + Spaced(RestoreWords(serial, mount, source)) == script + (Spaced(RestoreHead(serial, mount)) + (" " + source))
  {
    hide Spaced;
    SpacedFive("restore", "--serial", serial, "--mount-path", mount, ["--source-path", source]);
    SpacedFive("restore", "--serial", serial, "--mount-path", mount, ["--source-path"]);
    SpacedTwo("--source-path", source);
    SpacedMore("--source-path", []);
    assert ["--source-path"] + [] == ["--source-path"];
    assert Spaced([]) == "" by { SpacedNothing(); }
    assert RestoreHead(serial, mount) == ["restore", "--serial", serial, "--mount-path", mount] + ["--source-path"];
  }

  lemma SpacedNothing()
    ensures Spaced([]) == ""
  {
  }

  lemma HelperParseLine(line: string)
    requires line != "" && line[0] == ' '
    ensures HelperParse(HelperScript(Linux) + line) == ParseArgs(Words(FirstLine(line)))
  {
    hide ParseArgs, Words, FirstLine;
    var script := HelperScript(Linux);
    var command := script + line;
    assert command[..|script|] == script && command[|script|..] == line && command[|script|] == line[0];
  }

  lemma WordsOfLine(head: seq<string>, source: string)
    requires Printable(head)
    ensures Words(FirstLine(Spaced(head) + (" " + source))) == head + Words(FirstLine(source))
  {
    hide Words, Printable;
    SpacedOnOneLine(head);
    FirstLineAppend(Spaced(head), " " + source);
    FirstLineAppend(" ", source);
    hide FirstLine, Spaced;
    WordsThen(head, " " + FirstLine(source));
    BlankFirst(FirstLine(source));
  }

  /** The words the helper gets when the source path is not empty, whatever blanks or newlines it has. */
  lemma HelperWords(serial: string, mount: string, source: string)
    requires serial != "" && Plain(serial) && mount != "" && Plain(mount)
    ensures HelperParse(HelperScript(Linux) + (Spaced(RestoreHead(serial, mount)) + (" " + source)))
            == ParseArgs(RestoreHead(serial, mount) + Words(FirstLine(source)))
  {
    assert Printable(RestoreHead(serial, mount)) by { HeadPrintable(serial, mount); }
    assert Spaced(RestoreHead(serial, mount)) != "" && Spaced(RestoreHead(serial, mount))[0] == ' ';
    hide ParseArgs, Words, FirstLine, RestoreHead, HelperParse, Spaced, Printable, Plain;
    WordsOfLine(RestoreHead(serial, mount), source);
    HelperParseLine(Spaced(RestoreHead(serial, mount)) + (" " + source));
  }

  lemma HeadPrintable(serial: string, mount: string)
    requires serial != "" && Plain(serial) && mount != "" && Plain(mount)
    ensures Printable(RestoreHead(serial, mount))
  {
  }

  lemma BlankFirst(s: string)
    ensures Words(" " + s) == Words(s)
  {
    assert (" " + s)[1..] == s;
  }

  lemma ParseHead(serial: string, mount: string, ws: seq<string>)
    requires serial != "" && mount != "" && Printable(ws)
    ensures ParseArgs(RestoreHead(serial, mount) + ws)
            == if ws == [] then None else ParseOptions(ws[1..], Request("restore", serial, mount, ws[0]))
  {
    var args := RestoreHead(serial, mount) + ws;
    var r0 := Request("restore", "", "", "");
    assert args[1..][2..] == args[3..] && args[3..][2..] == args[5..] && args[5..] == ["--source-path"] + ws;
    assert ParseOptions(args[1..], r0) == ParseOptions(args[3..], r0.(serial := serial));
    assert ParseOptions(args[3..], r0.(serial := serial)) == ParseOptions(args[5..], r0.(serial := serial, mountPath := mount));
    if ws != [] {
      assert args[5..][2..] == ws[1..];
      OptionsStayFull(ws[1..], Request("restore", serial, mount, ws[0]));
    }
  }

  predicate Full(req: Request) { req.mode == "restore" && req.serial != "" && req.mountPath != "" && req.sourcePath != "" }

  /** Options are only ever replaced by words, which are not empty. */
  lemma {:induction false} OptionsStayFull(args: seq<string>, req: Request)
    requires Full(req)
    ensures var r := ParseOptions(args, req); r.Some? ==> Full(r.value)
    decreases |args|
  {
    if |args| >= 2 && args[1] != "" {
      if args[0] == "--serial" { OptionsStayFull(args[2..], req.(serial := args[1])); }
      else if args[0] == "--mount-path" { OptionsStayFull(args[2..], req.(mountPath := args[1])); }
      else if args[0] == "--source-path" { OptionsStayFull(args[2..], req.(sourcePath := args[1])); }
    }
  }

  /**
   What the helper makes of any source path: without anything but slashes it is manual mode; otherwise
   its first line is split, the first word is the source path and the others are read as options.
   */
  lemma SourcePathIsSplit(serial: string, mountPath: string, sourcePath: string)
    requires serial != "" && Plain(serial)
    requires Plain(TrimRight(mountPath, SLASHES)) && TrimRight(mountPath, SLASHES) != ""
    ensures mountPath != ""
    ensures var mount, source := TrimRight(mountPath, SLASHES), TrimRight(sourcePath, SLASHES);
            var ws := Words(FirstLine(source));
            HelperParse(BuildRestoreCommand(Linux, serial, mountPath, sourcePath))
            == if source == "" then Some(Request("restore", serial, mount, ""))
               else if ws == [] then None
               else ParseOptions(ws[1..], Request("restore", serial, mount, ws[0]))
  {
    assert mountPath != "" by { TrimRightEmpty(mountPath, SLASHES); }
    hide ParseOptions, Words, FirstLine, HelperParse, BuildRestoreCommand, Spaced, ParseArgs, TrimRight;
    var mount, source := TrimRight(mountPath, SLASHES), TrimRight(sourcePath, SLASHES);
    if source == "" {
      RestoreRoundTrip(serial, mountPath, sourcePath);
    } else {
      RestoreCommandIsSpaced(serial, mountPath, sourcePath);
      HeadIsSpaced(HelperScript(Linux), serial, mount, source);
      HelperWords(serial, mount, source);
      WordsArePlain(FirstLine(source));
      ParseHead(serial, mount, Words(FirstLine(source)));
    }
  }

  /**
   For every source path: if the helper accepts the command at all, it agrees with the operator on
   the mode exactly when the source path is empty or has a character other than a slash; and it
   accepts every command whose source path has no separator.
   */
  lemma ModeAgreement(serial: string, mountPath: string, sourcePath: string)
    requires serial != "" && Plain(serial)
    requires Plain(TrimRight(mountPath, SLASHES)) && TrimRight(mountPath, SLASHES) != ""
    ensures mountPath != ""
    ensures var parsed := HelperParse(BuildRestoreCommand(Linux, serial, mountPath, sourcePath));
            && (parsed.Some? ==> ((HelperAutomatic(parsed.value) <==> OperatorAutomatic(sourcePath))
                                  <==> sourcePath == "" || !All(sourcePath, IsSlash)))
            && (Plain(sourcePath) ==> parsed.Some?)
  {
    SourcePathIsSplit(serial, mountPath, sourcePath);
    hide HelperParse, BuildRestoreCommand, Words, FirstLine, TrimRight;
    var mount, source := TrimRight(mountPath, SLASHES), TrimRight(sourcePath, SLASHES);
    TrimRightEmpty(sourcePath, SLASHES);
    if source != "" {
      var ws := Words(FirstLine(source));
      WordsArePlain(FirstLine(source));
      if ws != [] { OptionsStayFull(ws[1..], Request("restore", serial, mount, ws[0])); }
    }
    if Plain(sourcePath) { RestoreRoundTrip(serial, mountPath, sourcePath); assert Plain(source) by { TrimmedIsPlain(sourcePath); } }
  }

  lemma TrimmedIsPlain(s: string)
    requires Plain(s)
    ensures Plain(TrimRight(s, SLASHES))
  {
    var r := TrimRight(s, SLASHES);
    forall i | 0 <= i < |r| ensures IsPlainChar(r[i]) { assert r[i] == s[i]; }
  }

  /** A path of slashes only is automatic for the operator but mount-only for the helper. */
  lemma SlashPathIsManual(serial: string, name: string, path: string)
    requires serial != "" && Plain(serial) && IsObjectName(name) && path != "" && All(path, IsSlash)
    ensures OperatorAutomatic(path)
    ensures HelperParse(BuildRestoreCommand(Linux, serial, MountPath(Linux, name), path)) == Some(Request("restore", serial, MountPath(Linux, name), ""))
  {
    MountPathIsPlain(name);
    TrimRightEmpty(path, SLASHES);
    RestoreRoundTrip(serial, MountPath(Linux, name), path);
  }

  // ---------------------------------------------------------------------------
  // The language of the helper
  // ---------------------------------------------------------------------------

  predicate IsOption(s: string) { s == "--serial" || s == "--mount-path" || s == "--source-path" }

  /** Options, each followed by a value. */
  predicate OptionList(args: seq<string>) {
    |args| % 2 == 0 && forall i :: 0 <= i < |args| ==> if i % 2 == 0 then IsOption(args[i]) else args[i] != ""
  }

  predicate GivenAt(args: seq<string>, option: string, i: nat) { i < |args| && i % 2 == 0 && args[i] == option }
  predicate Given(args: seq<string>, option: string) { exists i: nat :: i < |args| && GivenAt(args, option, i) }

  /** The value of the option's last occurrence, or what it was before. */
  predicate Chosen(args: seq<string>, option: string, was: string, value: string) {
    || (!Given(args, option) && value == was)
    || exists i: nat :: i + 1 < |args| && GivenAt(args, option, i) && value == args[i + 1]
                        && forall j :: i < j < |args| ==> !GivenAt(args, option, j)
  }

  /** The rest of the list decides unless it does not mention the option. */
  lemma ChosenStep(args: seq<string>, option: string, was: string, value: string)
    requires |args| >= 2
    ensures Given(args, option) <==> args[0] == option || Given(args[2..], option)
    ensures Chosen(args[2..], option, if args[0] == option then args[1] else was, value) ==> Chosen(args, option, was, value)
  {
    var rest := args[2..];
    forall i: nat ensures GivenAt(rest, option, i) <==> GivenAt(args, option, i + 2) { }
    if Given(rest, option) { var i: nat :| i < |rest| && GivenAt(rest, option, i); assert GivenAt(args, option, i + 2); }
    if Given(args, option) { var i: nat :| i < |args| && GivenAt(args, option, i); if i > 0 { assert GivenAt(rest, option, i - 2); } }
    if args[0] == option { assert GivenAt(args, option, 0); }
    if Chosen(rest, option, if args[0] == option then args[1] else was, value) {
      if Given(rest, option) {
        var i: nat :| i + 1 < |rest| && GivenAt(rest, option, i) && value == rest[i + 1] && forall j :: i < j < |rest| ==> !GivenAt(rest, option, j);
        assert GivenAt(args, option, i + 2) && value == args[i + 2 + 1];
        forall j | i + 2 < j < |args| ensures !GivenAt(args, option, j) { assert GivenAt(rest, option, j - 2) <==> GivenAt(args, option, j); }
      } else if args[0] == option {
        assert GivenAt(args, option, 0) && value == args[0 + 1];
        forall j | 0 < j < |args| ensures !GivenAt(args, option, j) { if j >= 2 { assert GivenAt(rest, option, j - 2) <==> GivenAt(args, option, j); } }
      }
    }
  }

  lemma OptionListStep(args: seq<string>)
    ensures args == [] ==> OptionList(args)
    ensures |args| >= 2 ==> (OptionList(args) <==> IsOption(args[0]) && args[1] != "" && OptionList(args[2..]))
    ensures |args| == 1 ==> !OptionList(args)
  {
    if |args| >= 2 {
      var rest := args[2..];
      if OptionList(args) { forall i | 0 <= i < |rest| ensures if i % 2 == 0 then IsOption(rest[i]) else rest[i] != "" { assert rest[i] == args[i + 2]; } }
      if IsOption(args[0]) && args[1] != "" && OptionList(rest) {
        forall i | 0 <= i < |args| ensures if i % 2 == 0 then IsOption(args[i]) else args[i] != "" { if i >= 2 { assert rest[i - 2] == args[i]; } }
      }
    }
  }

  /** The three values of r are the ones args choose. */
  predicate ChoosesAll(args: seq<string>, req: Request, r: Request) {
    && r.mode == req.mode && Chosen(args, "--serial", req.serial, r.serial)
    && Chosen(args, "--mount-path", req.mountPath, r.mountPath) && Chosen(args, "--source-path", req.sourcePath, r.sourcePath)
  }

  /** Exact: the option loop accepts exactly the lists of known options with values, and the last value of each option counts. */
  lemma {:induction false} OptionsExactly(args: seq<string>, req: Request)
    ensures ParseOptions(args, req).Some? <==> OptionList(args)
    ensures ParseOptions(args, req).Some? ==> ChoosesAll(args, req, ParseOptions(args, req).value)
    decreases |args|
  {
    hide OptionList, Chosen, Given;
    OptionListStep(args);
    if |args| >= 2 && args[1] != "" && IsOption(args[0]) {
      var next := if args[0] == "--serial" then req.(serial := args[1])
                  else if args[0] == "--mount-path" then req.(mountPath := args[1]) else req.(sourcePath := args[1]);
      OptionsExactly(args[2..], next);
      if ParseOptions(args[2..], next).Some? {
        var r := ParseOptions(args[2..], next).value;
        ChosenStep(args, "--serial", req.serial, r.serial);
        ChosenStep(args, "--mount-path", req.mountPath, r.mountPath);
        ChosenStep(args, "--source-path", req.sourcePath, r.sourcePath);
      }
    } else if args == [] {
      NothingChosen(req);
    }
  }

  lemma NothingChosen(req: Request)
    ensures ChoosesAll([], req, req)
  {
  }

  predicate IsSeparator(c: char) { c == ' ' || c == '\t' || c == '\n' || c as int == 0x0b || c as int == 0x0c || c == '\r' }

  /**
   Exact, for every string that arrives over SSH: the helper accepts it if and only if it is the
   helper's own path followed by white space, and the words of its first line are a known mode and a
   list of known options with values, among them a mount path and, for restore, a serial.
   */
  lemma AcceptedExactly(command: string)
    ensures var n := |"/usr/local/bin/filerestore.sh"|;
            HelperParse(command).Some? <==>
              && HasPrefix(command, "/usr/local/bin/filerestore.sh") && |command| > n && IsSeparator(command[n])
              && var ws := Words(FirstLine(command[n..]));
              && ws != [] && (ws[0] == "restore" || ws[0] == "cleanup") && OptionList(ws[1..])
              && Given(ws[1..], "--mount-path") && (ws[0] == "restore" ==> Given(ws[1..], "--serial"))
    ensures HelperParse(command).Some? ==>
              var ws := Words(FirstLine(command[|"/usr/local/bin/filerestore.sh"|..]));
              ws != [] && ChoosesAll(ws[1..], Request(ws[0], "", "", ""), HelperParse(command).value)
  {
    hide Words, FirstLine, Chosen, Given, OptionList, ParseOptions;
    var n := |HelperScript(Linux)|;
    if HasPrefix(command, HelperScript(Linux)) {
      var line := command[n..];
      if line == "" {
        NoWords();
      } else {
        var ws := Words(FirstLine(line));
        if ws != [] {
          var args, req := ws[1..], Request(ws[0], "", "", "");
          OptionsExactly(args, req);
          if ParseOptions(args, req).Some? {
            assert OptionList(args);
            GivenIsFull(args, "--mount-path", ParseOptions(args, req).value.mountPath);
            GivenIsFull(args, "--serial", ParseOptions(args, req).value.serial);
          }
        }
      }
    }
  }

  lemma NoWords()
    ensures Words(FirstLine("")) == []
  {
  }

  /** A value is empty exactly when its option is not given. */
  lemma GivenIsFull(args: seq<string>, option: string, value: string)
    requires OptionList(args) && Chosen(args, option, "", value)
    ensures value != "" <==> Given(args, option)
  {
    if !(!Given(args, option) && value == "") {
      var i: nat :| i + 1 < |args| && GivenAt(args, option, i) && value == args[i + 1] && forall j :: i < j < |args| ==> !GivenAt(args, option, j);
      assert args[i + 1] != "";
    }
  }

  // ---------------------------------------------------------------------------
  // The Windows command line
  // ---------------------------------------------------------------------------

  predicate Unquoted(s: string) { All(s, c => c != '"') }

  /** What stands between quotation marks: the odd pieces are quoted, the even ones are not. */
  function Pieces(s: string): (ps: seq<string>)
    ensures |ps| > 0
  {
    if s == "" then [""]
    else if s[0] == '"' then [""] + Pieces(s[1..])
    else
      var rest := Pieces(s[1..]);
      [[s[0]] + rest[0]] + rest[1..]
  }

  lemma {:induction false} PiecesAppend(a: string, rest: string)
    requires Unquoted(a)
    ensures Pieces(a + "\"" + rest) == [a] + Pieces(rest)
    ensures Pieces(a) == [a]
  {
    if a == "" {
      assert a + "\"" + rest == "\"" + rest;
      assert ("\"" + rest)[1..] == rest;
    } else {
      PiecesAppend(a[1..], rest);
      assert (a + "\"" + rest)[1..] == a[1..] + "\"" + rest;
      assert [a[0]] + a[1..] == a;
    }
  }

  /** Three quoted pieces behind one another. */
  lemma PiecesQuoted(a: string, q: string, rest: string)
    requires Unquoted(a) && Unquoted(q)
    ensures Pieces(a + "\"" + q + "\"" + rest) == [a, q] + Pieces(rest)
  {
    hide Pieces;
    PiecesAppend(q, rest);
    PiecesAppend(a, q + "\"" + rest);
    assert a + "\"" + q + "\"" + rest == a + "\"" + (q + "\"" + rest);
  }

  lemma NothingQuoted()
    ensures Pieces("") == [""]
  {
  }

  lemma TailPieces(source: string)
    requires Unquoted(source)
    ensures Pieces(if source != "" then " --source-path \"" + source + "\"" else "") == if source == "" then [""] else [" --source-path ", source, ""]
  {
    var option := " --source-path ";
    NothingQuoted();
    hide Pieces;
    PiecesQuoted(option, source, "");
    assert " --source-path \"" == option + "\"";
    assert option + "\"" + source + "\"" + "" == " --source-path \"" + source + "\"";
  }

  lemma Regrouped(script: string, a: string, name: string, b: string, mount: string, tail: string)
    ensures script + a + name + b + "\"" + mount + "\"" + tail == script + (a + name + b + "\"" + mount + "\"" + tail)
  {
  }

  lemma WindowsCleanupQuotes(mountPath: string)
    requires mountPath != "" && Unquoted(mountPath)
    ensures var command := BuildCleanupCommand(Windows, mountPath);
            HasPrefix(command, HelperScript(Windows)) && Pieces(command[|HelperScript(Windows)|..]) == [" cleanup --mount-path ", mountPath, ""]
  {
    var script, option := HelperScript(Windows), " cleanup --mount-path ";
    assert Unquoted(option);
    NothingQuoted();
    hide Pieces, HelperScript, Unquoted;
    PiecesQuoted(option, mountPath, "");
    var rest := option + "\"" + mountPath + "\"" + "";
    assert BuildCleanupCommand(Windows, mountPath) == script + rest;
    assert (script + rest)[..|script|] == script && (script + rest)[|script|..] == rest;
  }

  /** On Windows trimmed mount path and trimmed source path arrive in quotes of their own, blanks and all; so does the mount path of a cleanup. */
  lemma WindowsCommandQuotes(name: string, mountPath: string, sourcePath: string)
    requires name != "" && mountPath != "" && Unquoted(name) && Unquoted(mountPath) && Unquoted(sourcePath)
    ensures var command, mount, source := BuildRestoreCommand(Windows, name, mountPath, sourcePath), TrimRight(mountPath, SLASHES), TrimRight(sourcePath, SLASHES);
            && HasPrefix(command, HelperScript(Windows))
            && Pieces(command[|HelperScript(Windows)|..])
               == [" restore --serial " + name + " --mount-path ", mount] + (if source == "" then [""] else [" --source-path ", source, ""])
    ensures var command := BuildCleanupCommand(Windows, mountPath);
            HasPrefix(command, HelperScript(Windows)) && Pieces(command[|HelperScript(Windows)|..]) == [" cleanup --mount-path ", mountPath, ""]
  {
    WindowsCleanupQuotes(mountPath);
    hide BuildCleanupCommand;
    var mount, source := TrimRight(mountPath, SLASHES), TrimRight(sourcePath, SLASHES);
    var script, a, b := HelperScript(Windows), " restore --serial ", " --mount-path ";
    assert Unquoted(mount) && Unquoted(source) && Unquoted(a + name + b);
    hide Pieces, TrimRight, Unquoted, HelperScript;
    var tail := if source != "" then " --source-path \"" + source + "\"" else "";
    TailPieces(source);
    PiecesQuoted(a + name + b, mount, tail);
    Regrouped(script, a, name, b, mount, tail);
    var rest := a + name + b + "\"" + mount + "\"" + tail;
    assert (script + rest)[..|script|] == script && (script + rest)[|script|..] == rest;
  }
}
