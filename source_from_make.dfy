/** `SourceFromMake`: the source files the preprocessor read while building
    the goto binary. How each make run ends is an input; what is modelled is
    which exit statuses fail the listing and how the build's output becomes
    a file list: joining continued lines, picking
    the `goto-cc` commands, finding each command's `-o` output file, reading
    those files, and collecting the file names from the linemarkers the
    preprocessor writes (section 9, "Preprocessor Output", of the GNU C
    Preprocessor manual). */
module SourceFromMake {
  import opened Outcomes
  import opened Seqs
  import opened Text
  import opened StringOrder
  import opened PosixPath

  /** The build that runs the preprocessor instead of the compiler, and the
      exit status it is allowed to end with (the link step fails). */
  const PreprocessCommand: seq<string> := ["make", "GOTO_CC=goto-cc -E", "goto"]
  const IgnoredStatus: int := 2

  /** The run that removes object files, before and after the build. */
  const CleanCommand: seq<string> := ["make", "clean"]

  // ---------------------------------------------------------------------
  // build_with_preprocessor

  predicate IsContinuationAt(s: string, i: int) {
    0 <= i && i + 1 < |s| && s[i] == '\\' && s[i + 1] == '\n'
  }

  /** `s.replace('\\\n', '')`: one left-to-right scan that deletes each
      backslash-newline pair it meets. */
  function RemoveContinuations(s: string): (r: string)
    ensures |r| <= |s|
    decreases |s|
  {
    if s == [] then []
    else if IsContinuationAt(s, 0) then RemoveContinuations(s[2..])
    else [s[0]] + RemoveContinuations(s[1..])
  }

  /** Text without a backslash-newline pair is left alone. */
  lemma {:induction false} RemoveContinuationsNone(s: string)
    requires forall i :: 0 <= i < |s| ==> !IsContinuationAt(s, i)
    ensures RemoveContinuations(s) == s
  {
    if s != [] {
      assert forall i :: 0 <= i < |s[1..]| ==> !IsContinuationAt(s[1..], i) by {
        forall i | 0 <= i < |s[1..]| ensures !IsContinuationAt(s[1..], i) {
          assert !IsContinuationAt(s, i + 1);
        }
      }
      RemoveContinuationsNone(s[1..]);
    }
  }

  /** The scan splits at any point that does not cut a pair in two. */
  lemma {:induction false} RemoveContinuationsAppend(a: string, b: string)
    requires a == [] || b == [] || !(a[|a| - 1] == '\\' && b[0] == '\n')
    ensures RemoveContinuations(a + b) == RemoveContinuations(a) + RemoveContinuations(b)
    decreases |a|
  {
    if a == [] {
      assert a + b == b;
      assert RemoveContinuations(a) == [];
      assert [] + RemoveContinuations(b) == RemoveContinuations(b);
    } else if IsContinuationAt(a, 0) {
      assert a[2..] != [] ==> a[2..][|a[2..]| - 1] == a[|a| - 1];
      RemoveContinuationsAppend(a[2..], b);
      AppendAfterPair(a, b);
    } else {
      assert a[1..] != [] ==> a[1..][|a[1..]| - 1] == a[|a| - 1];
      RemoveContinuationsAppend(a[1..], b);
      AppendAfterChar(a, b);
    }
  }

  /** The step of `RemoveContinuationsAppend` when `a` starts with a pair. */
  lemma AppendAfterPair(a: string, b: string)
    requires IsContinuationAt(a, 0)
    requires RemoveContinuations(a[2..] + b) == RemoveContinuations(a[2..]) + RemoveContinuations(b)
    ensures RemoveContinuations(a + b) == RemoveContinuations(a) + RemoveContinuations(b)
  {
    var ab := a + b;
    DropAppend(a, b, 2);
    assert ab[0] == a[0] && ab[1] == a[1];
  }

  /** The step of `RemoveContinuationsAppend` when `a` starts with a kept
      character. */
  lemma AppendAfterChar(a: string, b: string)
    requires a != [] && !IsContinuationAt(a, 0)
    requires |a| == 1 && b != [] ==> !(a[0] == '\\' && b[0] == '\n')
    requires RemoveContinuations(a[1..] + b) == RemoveContinuations(a[1..]) + RemoveContinuations(b)
    ensures RemoveContinuations(a + b) == RemoveContinuations(a) + RemoveContinuations(b)
  {
    var ab := a + b;
    assert ab[1..] == a[1..] + b by {
      DropAppend(a, b, 1);
    }
    assert ab[0] == a[0];
    assert |a| >= 2 ==> ab[1] == a[1];
    assert |a| == 1 && b != [] ==> ab[1] == b[0];
    assert !IsContinuationAt(ab, 0);
    assert RemoveContinuations(ab) == [ab[0]] + RemoveContinuations(ab[1..]);
    var ra, rb := RemoveContinuations(a[1..]), RemoveContinuations(b);
    assert RemoveContinuations(a) == [a[0]] + ra;
    assert RemoveContinuations(ab) == [a[0]] + (ra + rb);
    ConcatAssoc([a[0]], ra, rb);
  }

  lemma DropAppend(a: string, b: string, n: nat)
    requires n <= |a|
    ensures (a + b)[n..] == a[n..] + b
  {
    var l, r := (a + b)[n..], a[n..] + b;
    assert |l| == |r|;
    forall i | 0 <= i < |l| ensures l[i] == r[i] {
      assert l[i] == (a + b)[n + i];
    }
  }

  /** A continued line is joined to the next: the pair between two pieces of
      text disappears and nothing else changes. */
  lemma JoinsContinuedLine(a: string, b: string)
    ensures RemoveContinuations(a + "\\\n" + b) == RemoveContinuations(a) + RemoveContinuations(b)
  {
    var c := "\\\n";
    RemoveContinuationsAppend(c, b);
    assert RemoveContinuations(c) == [];
    assert c + b == "\\\n" + b;
    RemoveContinuationsAppend(a, c + b);
    assert a + (c + b) == a + "\\\n" + b;
  }

  /** A single scan can leave a pair behind: in "\\\\\n\n" (backslash,
      backslash, newline, newline) the pair it deletes is the middle one,
      and the remaining backslash and newline meet. */
  lemma ContinuationLeftBehind()
    ensures RemoveContinuations("\\\\\n\n") == "\\\n"
  {
    var s := "\\\\\n\n";
    assert !IsContinuationAt(s, 0);
    assert s[1..] == "\\\n\n" && IsContinuationAt(s[1..], 0);
    assert s[1..][2..] == "\n";
    assert !IsContinuationAt("\n", 0);
    assert RemoveContinuations("\n") == "\n";
  }

  /** A line of make output that runs the compiler. */
  predicate IsGotoCcLine(line: string) {
    StartsWith(Strip(line), "goto-cc")
  }

  /** `build_with_preprocessor(build)`, given the output of the make run:
      the stripped `goto-cc` lines after joining continued lines. */
  function GotoCcCommands(output: string): seq<string> {
    Map(Strip, Filter(IsGotoCcLine, SplitLines(RemoveContinuations(output))))
  }

  /** The commands are the stripped `goto-cc` lines of the joined output, in
      their order there, and nothing else. */
  lemma GotoCcCommandsSpec(output: string)
    ensures forall k :: 0 <= k < |GotoCcCommands(output)| ==>
      StartsWith(GotoCcCommands(output)[k], "goto-cc") && Strip(GotoCcCommands(output)[k]) == GotoCcCommands(output)[k]
    ensures forall c :: c in GotoCcCommands(output) <==>
      exists l :: l in SplitLines(RemoveContinuations(output)) && IsGotoCcLine(l) && c == Strip(l)
    ensures IsSubsequence(GotoCcCommands(output), Map(Strip, SplitLines(RemoveContinuations(output))))
  {
    var lines := SplitLines(RemoveContinuations(output));
    var kept := Filter(IsGotoCcLine, lines);
    forall k | 0 <= k < |GotoCcCommands(output)|
      ensures StartsWith(GotoCcCommands(output)[k], "goto-cc") && Strip(GotoCcCommands(output)[k]) == GotoCcCommands(output)[k]
    {
      assert kept[k] in kept;
      StripIdempotent(kept[k]);
    }
    forall c ensures c in GotoCcCommands(output) <==> exists l :: l in lines && IsGotoCcLine(l) && c == Strip(l) {
      MapMembership(Strip, kept, c);
    }
    SubsequenceMap(Strip, kept, lines);
  }

  lemma StripIdempotent(s: string)
    ensures Strip(Strip(s)) == Strip(s)
  {
    var r := Strip(s);
    if r != [] {
      assert LeadingSpaces(r) == 0;
      assert TrailingSpaces(r) == 0;
    }
  }

  // ---------------------------------------------------------------------
  // extract_filenames

  /** The length of the run of non-whitespace characters at `i`. */
  function NonSpaceRun(s: string, i: nat): (n: nat)
    requires i <= |s|
    ensures i + n <= |s|
    ensures forall k :: i <= k < i + n ==> !IsSpace(s[k])
    ensures i + n < |s| ==> IsSpace(s[i + n])
    decreases |s| - i
  {
    if i == |s| || IsSpace(s[i]) then 0 else 1 + NonSpaceRun(s, i + 1)
  }

  /** ` -o ` occurs at `i`. */
  predicate FlagAt(s: string, i: int) {
    0 <= i && i + 4 <= |s| && s[i..i + 4] == " -o "
  }

  /** The pattern ` -o (\S+) ` matches at `i`: a space, `-o`, a space, a
      run of non-whitespace and a space. `\S+` can only end where the run
      ends, since what follows it must be a space. */
  predicate MatchesAt(cmd: string, i: nat) {
    && FlagAt(cmd, i)
    && NonSpaceRun(cmd, i + 4) > 0
    && i + 4 + NonSpaceRun(cmd, i + 4) < |cmd|
    && cmd[i + 4 + NonSpaceRun(cmd, i + 4)] == ' '
  }

  /** The leftmost match at or after `i`. */
  function FirstMatch(cmd: string, i: nat): (r: Option<nat>)
    ensures r.Some? ==> i <= r.value && MatchesAt(cmd, r.value)
    ensures r.Some? ==> forall k :: i <= k < r.value ==> !MatchesAt(cmd, k)
    ensures r.None? ==> forall k :: i <= k ==> !MatchesAt(cmd, k)
    decreases |cmd| - i
  {
    if i + 4 > |cmd| then None
    else if MatchesAt(cmd, i) then Some(i)
    else FirstMatch(cmd, i + 1)
  }

  /** `re.search(r' -o (\S+) ', cmd).group(1)`, or None without a match. */
  function OutputName(cmd: string): (r: Option<string>)
    ensures r.Some? <==> exists i: nat :: MatchesAt(cmd, i)
    ensures r.Some? ==> r.value != "" && forall k :: 0 <= k < |r.value| ==> !IsSpace(r.value[k])
  {
    match FirstMatch(cmd, 0)
    case None => None
    case Some(i) => Some(cmd[i + 4..i + 4 + NonSpaceRun(cmd, i + 4)])
  }

  /** The run at `i` is exactly `n` long when `n` non-blank characters there
      are followed by a blank or the end. */
  lemma {:induction false} NonSpaceRunExact(s: string, i: nat, n: nat)
    requires i + n <= |s|
    requires forall k :: i <= k < i + n ==> !IsSpace(s[k])
    requires i + n == |s| || IsSpace(s[i + n])
    ensures NonSpaceRun(s, i) == n
    decreases n
  {
    if n > 0 {
      NonSpaceRunExact(s, i + 1, n - 1);
    }
  }

  /** A command `pre -o x post`, where `x` is a non-blank word and ` -o `
      does not occur earlier, names `x` as its output. */
  lemma OutputNameAfter(pre: string, x: string, post: string)
    requires forall k :: 0 <= k && k + 3 <= |pre| ==> !FlagAt(pre + " ", k)
    requires x != "" && forall k :: 0 <= k < |x| ==> !IsSpace(x[k])
    ensures OutputName(pre + " -o " + x + " " + post) == Some(x)
  {
    var cmd := pre + " -o " + x + " " + post;
    var i := |pre|;
    FlagLayout(pre, x, post);
    MatchAfterFlag(cmd, i, x);
    forall k: nat | k < i ensures !MatchesAt(cmd, k) {
      NoEarlierMatch(pre, x, post, k);
    }
    FirstMatchAt(cmd, 0, i);
    OutputNameAt(cmd, i, x);
  }

  lemma OutputNameAt(cmd: string, i: nat, x: string)
    requires FirstMatch(cmd, 0) == Some(i)
    requires i + 4 + |x| <= |cmd| && NonSpaceRun(cmd, i + 4) == |x| && cmd[i + 4..i + 4 + |x|] == x
    ensures OutputName(cmd) == Some(x)
  {
  }

  /** A match with none before it is the leftmost one. */
  lemma FirstMatchAt(cmd: string, i: nat, m: nat)
    requires i <= m && MatchesAt(cmd, m)
    requires forall k: nat :: i <= k < m ==> !MatchesAt(cmd, k)
    ensures FirstMatch(cmd, i) == Some(m)
  {
  }

  lemma FlagLayout(pre: string, x: string, post: string)
    ensures var cmd := pre + " -o " + x + " " + post;
      && |pre| + 4 + |x| < |cmd|
      && cmd[|pre|..|pre| + 4] == " -o "
      && cmd[|pre| + 4..|pre| + 4 + |x|] == x
      && cmd[|pre| + 4 + |x|] == ' '
  {
    var cmd := pre + " -o " + x + " " + post;
    assert cmd == (pre + " -o ") + (x + (" " + post));
  }

  /** ` -o `, a non-blank word and a blank at `i` are a match. */
  lemma MatchAfterFlag(cmd: string, i: nat, x: string)
    requires x != "" && forall k :: 0 <= k < |x| ==> !IsSpace(x[k])
    requires i + 4 + |x| < |cmd| && cmd[i..i + 4] == " -o "
    requires cmd[i + 4..i + 4 + |x|] == x && cmd[i + 4 + |x|] == ' '
    ensures MatchesAt(cmd, i) && NonSpaceRun(cmd, i + 4) == |x|
  {
    forall k | i + 4 <= k < i + 4 + |x| ensures !IsSpace(cmd[k]) {
      assert cmd[k] == cmd[i + 4..i + 4 + |x|][k - i - 4];
    }
    NonSpaceRunExact(cmd, i + 4, |x|);
  }

  lemma NoEarlierMatch(pre: string, x: string, post: string, k: nat)
    requires forall k :: 0 <= k && k + 3 <= |pre| ==> !FlagAt(pre + " ", k)
    requires k < |pre|
    ensures !MatchesAt(pre + " -o " + x + " " + post, k)
  {
    var cmd := pre + " -o " + x + " " + post;
    assert cmd[..|pre| + 1] == pre + " ";
    if k + 3 <= |pre| {
      assert cmd[k..k + 4] == (pre + " ")[k..k + 4];
      assert !FlagAt(pre + " ", k);
      assert !FlagAt(cmd, k);
    } else if k + 2 == |pre| {
      assert cmd[k + 2] == ' ';
      assert !FlagAt(cmd, k) by {
        if k + 4 <= |cmd| {
          assert cmd[k..k + 4][2] == ' ';
        }
      }
    } else {
      assert cmd[k + 1] == ' ';
      assert !FlagAt(cmd, k) by {
        if k + 4 <= |cmd| {
          assert cmd[k..k + 4][1] == ' ';
        }
      }
    }
  }

  /** The name is the one after the leftmost ` -o `. */
  lemma OutputNameExample()
    ensures OutputName("cc -o a.o a.c") == Some("a.o")
  {
    var c := "cc -o a.o a.c";
    assert c[0] == 'c' && c[1] == 'c' && c[2] == ' ' && c[3] == '-' && c[4] == 'o' && c[5] == ' ';
    assert c[6] == 'a' && c[7] == '.' && c[8] == 'o' && c[9] == ' ';
    assert c[2..6] == " -o " && c[6..9] == "a.o";
    assert !MatchesAt(c, 0) && !MatchesAt(c, 1) by {
      assert c[0..4][0] == c[0] && c[1..5][0] == c[1];
    }
    var n := NonSpaceRun(c, 6);
    assert n == 3;
    assert MatchesAt(c, 2);
    var r := FirstMatch(c, 0);
    assert r.Some? && r.value == 2;
  }

  /** A name at the very end, with no space after it (as in a stripped
      command), is not found. */
  lemma OutputNameAtEnd()
    ensures OutputName("cc a.c -o a.o") == None
  {
    var d := "cc a.c -o a.o";
    assert NonSpaceRun(d, 13) == 0;
    assert NonSpaceRun(d, 10) == 3;
    forall i: nat | i + 4 <= |d| && i != 6 ensures !MatchesAt(d, i) {
      assert d[i..i + 4][0] == d[i] && d[i..i + 4][1] == d[i + 1];
      assert d[i] != ' ' || d[i + 1] != '-';
    }
  }

  /** `os.path.abspath(os.path.join(build, name))`, with `cwd` standing for
      the current directory. */
  function OutputPath(cwd: string, build: string, name: string): string {
    AbsPath(cwd, Join(build, name))
  }

  /** The files `extract_filenames` lists: one for each command with a
      match, in command order. */
  function OutputFiles(commands: seq<string>, build: string, cwd: string): seq<string> {
    if commands == [] then []
    else OutputFiles(commands[..|commands| - 1], build, cwd) + CommandOutput(commands[|commands| - 1], build, cwd)
  }

  /** What one command contributes: its output path, if it names one. */
  function CommandOutput(c: string, build: string, cwd: string): (r: seq<string>)
    ensures |r| == if HasOutput(c) then 1 else 0
    ensures HasOutput(c) ==> r == [OutputPath(cwd, build, OutputName(c).value)]
  {
    match OutputName(c)
    case None => []
    case Some(name) => [OutputPath(cwd, build, name)]
  }

  /** A command whose `-o` pattern matches. */
  predicate HasOutput(c: string) {
    OutputName(c).Some?
  }

  /** Each command with a match contributes exactly its path, commands
      without one contribute nothing; an absolute name is kept as it is and a
      relative one is taken under `build`. */
  lemma {:induction false} OutputFilesSpec(commands: seq<string>, build: string, cwd: string)
    ensures |OutputFiles(commands, build, cwd)| == |Filter(HasOutput, commands)|
    ensures forall x :: x in OutputFiles(commands, build, cwd) <==>
      exists c :: c in commands && HasOutput(c) && x == OutputPath(cwd, build, OutputName(c).value)
  {
    OutputFilesLength(commands, build, cwd);
    forall x ensures x in OutputFiles(commands, build, cwd) <==>
      exists c :: c in commands && HasOutput(c) && x == OutputPath(cwd, build, OutputName(c).value)
    {
      OutputFilesMembership(commands, build, cwd, x);
    }
  }

  lemma {:induction false} OutputFilesLength(commands: seq<string>, build: string, cwd: string)
    ensures |OutputFiles(commands, build, cwd)| == |Filter(HasOutput, commands)|
  {
    if commands != [] {
      var init := commands[..|commands| - 1];
      var last := commands[|commands| - 1];
      OutputFilesLength(init, build, cwd);
      InitLast(commands);
      FilterAppendLength(HasOutput, init, last);
    }
  }

  lemma {:induction false} OutputFilesMembership(commands: seq<string>, build: string, cwd: string, x: string)
    ensures x in OutputFiles(commands, build, cwd) <==>
      exists c :: c in commands && HasOutput(c) && x == OutputPath(cwd, build, OutputName(c).value)
  {
    if commands != [] {
      var init := commands[..|commands| - 1];
      var last := commands[|commands| - 1];
      assert forall c :: c in commands <==> c in init || c == last by {
        InitLast(commands);
      }
      OutputFilesMembership(init, build, cwd, x);
    }
  }

  lemma FilterAppendLength(p: string -> bool, s: seq<string>, x: string)
    ensures |Filter(p, s + [x])| == |Filter(p, s)| + (if p(x) then 1 else 0)
  {
    FilterAppend(p, s, x);
  }

  lemma {:induction false} FilterAppend(p: string -> bool, s: seq<string>, x: string)
    ensures Filter(p, s + [x]) == Filter(p, s) + (if p(x) then [x] else [])
  {
    if s == [] {
      assert s + [x] == [x];
    } else {
      assert (s + [x])[1..] == s[1..] + [x];
      FilterAppend(p, s[1..], x);
    }
  }

  /** An absolute output name does not depend on the build directory. */
  lemma AbsoluteOutputName(cwd: string, build: string, name: string)
    requires IsAbs(name)
    ensures OutputPath(cwd, build, name) == NormPath(name)
  {
  }

  /** `extract_filenames(commands, build)` */
  method ExtractFilenames(commands: seq<string>, build: string, cwd: string) returns (files: seq<string>)
    ensures files == OutputFiles(commands, build, cwd)
  {
    files := [];
    var i := 0;
    while i < |commands|
      invariant 0 <= i <= |commands|
      invariant files == OutputFiles(commands[..i], build, cwd)
    {
      assert commands[..i + 1][..i] == commands[..i];
      var name := OutputName(commands[i]);
      if name.Some? {
        files := files + [OutputPath(cwd, build, name.value)];
      }
      assert files == OutputFiles(commands[..i], build, cwd) + CommandOutput(commands[i], build, cwd);
      i := i + 1;
    }
    assert commands[..|commands|] == commands;
  }

  // ---------------------------------------------------------------------
  // read_output

  /** The lines of the files that exist, file by file; a missing file (the
      output of the failed link step) is skipped. */
  function OutputLines(files: seq<string>, disk: map<string, string>): (r: seq<string>)
    ensures forall k :: 0 <= k < |r| ==> IsLine(r[k])
  {
    if files == [] then []
    else
      var init := OutputLines(files[..|files| - 1], disk);
      var name := files[|files| - 1];
      if name in disk then init + SplitLines(disk[name]) else init
  }

  /** Whether a file exists. */
  function OnDisk(disk: map<string, string>): string -> bool {
    (n: string) => n in disk
  }

  /** Skipping a missing file is the same as not asking for it. */
  lemma {:induction false} OutputLinesSkipsMissing(files: seq<string>, disk: map<string, string>)
    ensures OutputLines(files, disk) == OutputLines(Filter(OnDisk(disk), files), disk)
  {
    if files != [] {
      var init := files[..|files| - 1];
      var name := files[|files| - 1];
      OutputLinesSkipsMissing(init, disk);
      FilterAppend(OnDisk(disk), init, name);
      InitLast(files);
      var kept := Filter(OnDisk(disk), init);
      assert OnDisk(disk)(name) == (name in disk);
      if name in disk {
        assert Filter(OnDisk(disk), files) == kept + [name];
        assert (kept + [name])[..|kept + [name]| - 1] == kept;
        assert (kept + [name])[|kept + [name]| - 1] == name;
        assert OutputLines(kept + [name], disk) == OutputLines(kept, disk) + SplitLines(disk[name]);
        assert OutputLines(files, disk) == OutputLines(init, disk) + SplitLines(disk[name]);
      } else {
        assert Filter(OnDisk(disk), files) == kept;
      }
    }
  }

  /** A file written as newline-terminated lines gives back those lines. */
  lemma OutputLinesOfOneFile(name: string, lines: seq<string>, disk: map<string, string>)
    requires forall k :: 0 <= k < |lines| ==> IsLine(lines[k])
    requires name in disk && disk[name] == Unlines(lines)
    ensures OutputLines([name], disk) == lines
  {
    SplitLinesUnlines(lines);
    assert [name][..0] == [];
  }

  /** `read_output(files)`, with the file system as a map from name to
      contents. */
  method ReadOutput(files: seq<string>, disk: map<string, string>) returns (output: seq<string>)
    ensures output == OutputLines(files, disk)
  {
    output := [];
    var i := 0;
    while i < |files|
      invariant 0 <= i <= |files|
      invariant output == OutputLines(files[..i], disk)
    {
      assert files[..i + 1][..i] == files[..i];
      if files[i] in disk {
        output := output + SplitLines(disk[files[i]]);
      }
      i := i + 1;
    }
    assert files[..|files|] == files;
  }

  // ---------------------------------------------------------------------
  // extract_source_filenames

  /** A linemarker: its stripped form starts with "# " (a directive has no
      space after the hash). */
  predicate IsLinemarker(line: string) {
    StartsWith(Strip(line), "# ")
  }

  /** The first occurrence of `c` at or after `i`, or the end. */
  function FindChar(s: string, i: nat, c: char): (e: nat)
    requires i <= |s|
    ensures i <= e <= |s| && (e < |s| ==> s[e] == c)
    ensures forall k :: i <= k < e ==> s[k] != c
    decreases |s| - i
  {
    if i == |s| || s[i] == c then i else FindChar(s, i + 1, c)
  }

  /** The last quote in `s[lo..hi]`, or -1. */
  function LastQuote(s: string, lo: nat, hi: nat): (j: int)
    requires lo <= hi <= |s|
    ensures j == -1 || (lo <= j < hi && s[j] == '"')
    ensures forall k :: j < k < hi && lo <= k ==> s[k] != '"'
    decreases hi - lo
  {
    if hi == lo then -1 else if s[hi - 1] == '"' then hi - 1 else LastQuote(s, lo, hi - 1)
  }

  /** `re.search(r'"(.*)"', s).group(1)` from position `i` on: at the
      leftmost quote with another quote after it on the same line, the
      greedy `.*` reaches back from the end of that line to the last quote. */
  function QuotedFrom(s: string, i: nat): (r: Option<string>)
    requires i <= |s|
    decreases |s| - i
  {
    if i == |s| then None
    else if s[i] == '"' && LastQuote(s, i + 1, FindChar(s, i + 1, '\n')) >= 0 then
      Some(s[i + 1..LastQuote(s, i + 1, FindChar(s, i + 1, '\n'))])
    else QuotedFrom(s, i + 1)
  }

  /** The file name in a linemarker, or None when the pattern does not
      match (where the source fails with an AttributeError). */
  function Quoted(s: string): Option<string> {
    QuotedFrom(s, 0)
  }

  /** The search skips everything before the next quote. */
  lemma {:induction false} QuotedFromSkip(s: string, i: nat)
    requires i <= |s|
    ensures QuotedFrom(s, i) == if FindChar(s, i, '"') == |s| then None else QuotedFrom(s, FindChar(s, i, '"'))
    decreases |s| - i
  {
    if i < |s| && s[i] != '"' {
      QuotedFromSkip(s, i + 1);
    }
  }

  /** Narrowing the range from below keeps the last quote if it is still
      inside. */
  lemma {:induction false} LastQuoteFrom(s: string, lo: nat, hi: nat)
    requires lo <= hi <= |s|
    ensures LastQuote(s, lo, hi) == if LastQuote(s, 0, hi) >= lo then LastQuote(s, 0, hi) else -1
    decreases hi - lo
  {
    if hi > lo && s[hi - 1] != '"' {
      LastQuoteFrom(s, lo, hi - 1);
    }
  }

  /** On a line without newlines the name is the text between the first and
      the last double quote, and there is none when the line holds fewer
      than two quotes. */
  lemma QuotedSpec(s: string)
    requires forall k :: 0 <= k < |s| ==> s[k] != '\n'
    ensures var a := FindChar(s, 0, '"'); var b := LastQuote(s, 0, |s|);
      Quoted(s) == if a < b then Some(s[a + 1..b]) else None
  {
    var a := FindChar(s, 0, '"');
    var b := LastQuote(s, 0, |s|);
    QuotedFromSkip(s, 0);
    if a < |s| {
      assert FindChar(s, a + 1, '\n') == |s|;
      LastQuoteFrom(s, a + 1, |s|);
      if b <= a {
        assert FindChar(s, a + 1, '"') == |s|;
        QuotedFromSkip(s, a + 1);
      }
    }
  }

  /** The names the preprocessor invents, dropped by their base name. */
  predicate IsBuiltinName(name: string) {
    var base := BaseName(name);
    base == "<built-in>" || base == "<command-line>" || base == "<command line>"
  }

  /** The linemarker at `k` is the first without a quoted name. */
  predicate FirstUnnamed(markers: seq<string>, k: int) {
    && 0 <= k < |markers|
    && Quoted(markers[k]).None?
    && forall j :: 0 <= j < k ==> Quoted(markers[j]).Some?
  }

  /** The quoted names of the linemarkers, in order; the first linemarker
      without a name is the error. */
  function LinemarkerNames(markers: seq<string>): (r: Result<seq<string>>)
    ensures r.Ok? <==> forall k :: 0 <= k < |markers| ==> Quoted(markers[k]).Some?
    ensures r.Ok? ==> |r.value| == |markers| && forall k :: 0 <= k < |markers| ==> r.value[k] == Quoted(markers[k]).value
    ensures r.Err? ==> exists k :: FirstUnnamed(markers, k) && r.error == AttributeError(markers[k])
  {
    if markers == [] then Ok([])
    else
      match Quoted(markers[0])
      case None => Err(AttributeError(markers[0]))
      case Some(name) =>
        match LinemarkerNames(markers[1..])
        case Err(e) =>
          assert exists k :: FirstUnnamed(markers, k) && e == AttributeError(markers[k]) by {
            var k :| FirstUnnamed(markers[1..], k) && e == AttributeError(markers[1..][k]);
            assert markers[1..][k] == markers[k + 1];
            forall j | 0 < j < k + 1 ensures Quoted(markers[j]).Some? {
              assert markers[1..][j - 1] == markers[j];
            }
            assert FirstUnnamed(markers, k + 1);
          }
          Err(e)
        case Ok(rest) =>
          assert forall k :: 0 <= k < |markers| ==> Quoted(markers[k]).Some? by {
            forall k | 0 < k < |markers| ensures Quoted(markers[k]).Some? {
              assert markers[1..][k - 1] == markers[k];
            }
          }
          Ok([name] + rest)
  }

  /** The path a named source file gets: `normpath(join(build, name))`. */
  function SourcePath(build: string, name: string): string {
    NormPath(Join(build, name))
  }

  function SourcePathIn(build: string): string -> string {
    (n: string) => SourcePath(build, n)
  }

  /** A name the preprocessor read from a file. */
  predicate IsGenuineName(name: string) {
    !IsBuiltinName(name)
  }

  /** `extract_source_filenames(output, build)` */
  function ExtractSourceFilenames(output: seq<string>, build: string): Result<seq<string>> {
    var names :- LinemarkerNames(Filter(IsLinemarker, output));
    Ok(SortedSet(Map(SourcePathIn(build), Filter(IsGenuineName, names))))
  }

  /** A linemarker without a quoted name is the only failure. */
  lemma ExtractSourceFilenamesFails(output: seq<string>, build: string)
    ensures ExtractSourceFilenames(output, build).Ok? <==>
      forall l :: l in output && IsLinemarker(l) ==> Quoted(l).Some?
    ensures ExtractSourceFilenames(output, build).Err? ==> exists l ::
      l in output && IsLinemarker(l) && Quoted(l).None? && ExtractSourceFilenames(output, build).error == AttributeError(l)
  {
    var markers := Filter(IsLinemarker, output);
    var names := LinemarkerNames(markers);
    if names.Err? {
      var k :| FirstUnnamed(markers, k) && names.error == AttributeError(markers[k]);
      assert markers[k] in markers;
    } else {
      forall l | l in output && IsLinemarker(l) ensures Quoted(l).Some? {
        var k :| 0 <= k < |markers| && markers[k] == l;
      }
    }
  }

  /** The error names the first linemarker, in the order of the output,
      that has no quoted name. */
  lemma ExtractSourceFilenamesFirstFailure(output: seq<string>, build: string)
    ensures ExtractSourceFilenames(output, build).Err? ==> exists k ::
      FirstUnnamed(Filter(IsLinemarker, output), k)
      && ExtractSourceFilenames(output, build).error == AttributeError(Filter(IsLinemarker, output)[k])
  {
    var markers := Filter(IsLinemarker, output);
    var names := LinemarkerNames(markers);
    if names.Err? {
      var k :| FirstUnnamed(markers, k) && names.error == AttributeError(markers[k]);
      assert ExtractSourceFilenames(output, build).error == AttributeError(markers[k]);
    } else {
      assert ExtractSourceFilenames(output, build).Ok?;
    }
  }

  /** On success the result is sorted and free of duplicates, and holds
      `normpath(join(build, name))` for exactly the names of the linemarkers
      that are not invented by the preprocessor. */
  lemma ExtractSourceFilenamesResult(output: seq<string>, build: string)
    requires ExtractSourceFilenames(output, build).Ok?
    ensures StrictlySorted(ExtractSourceFilenames(output, build).value)
    ensures forall x :: x in ExtractSourceFilenames(output, build).value <==>
      exists l :: l in output && IsLinemarker(l) && !IsBuiltinName(Quoted(l).value) && x == SourcePath(build, Quoted(l).value)
  {
    var markers := Filter(IsLinemarker, output);
    var names := LinemarkerNames(markers).value;
    var f := SourcePathIn(build);
    var genuine := Filter(IsGenuineName, names);
    var r := ExtractSourceFilenames(output, build).value;
    forall x ensures x in r <==>
      exists l :: l in output && IsLinemarker(l) && !IsBuiltinName(Quoted(l).value) && x == f(Quoted(l).value)
    {
      ExtractMembership(output, build, markers, names, genuine, x);
    }
  }

  lemma ExtractMembership(output: seq<string>, build: string, markers: seq<string>, names: seq<string>,
                          genuine: seq<string>, x: string)
    requires markers == Filter(IsLinemarker, output)
    requires LinemarkerNames(markers) == Ok(names)
    requires genuine == Filter(IsGenuineName, names)
    ensures x in SortedSet(Map(SourcePathIn(build), genuine)) <==>
      exists l :: l in output && IsLinemarker(l) && !IsBuiltinName(Quoted(l).value) && x == SourcePath(build, Quoted(l).value)
  {
    var f := SourcePathIn(build);
    assert x in SortedSet(Map(f, genuine)) <==> x in Elems(Map(f, genuine));
    MapMembership(f, genuine, x);
    if x in Map(f, genuine) {
      ExtractedNameFromOutput(output, build, markers, names, genuine, x);
    }
    if exists l :: l in output && IsLinemarker(l) && !IsBuiltinName(Quoted(l).value) && x == SourcePath(build, Quoted(l).value) {
      var l :| l in output && IsLinemarker(l) && !IsBuiltinName(Quoted(l).value) && x == SourcePath(build, Quoted(l).value);
      OutputNameExtracted(output, build, markers, names, genuine, l);
    }
  }

  lemma ExtractedNameFromOutput(output: seq<string>, build: string, markers: seq<string>, names: seq<string>,
                                genuine: seq<string>, x: string)
    requires markers == Filter(IsLinemarker, output)
    requires LinemarkerNames(markers) == Ok(names)
    requires genuine == Filter(IsGenuineName, names)
    requires exists n :: n in genuine && x == SourcePathIn(build)(n)
    ensures exists l :: l in output && IsLinemarker(l) && !IsBuiltinName(Quoted(l).value) && x == SourcePath(build, Quoted(l).value)
  {
    var n :| n in genuine && x == SourcePathIn(build)(n);
    var l := LinemarkerOfName(output, markers, names, n);
    assert l in output && IsLinemarker(l) && !IsBuiltinName(Quoted(l).value) && x == SourcePath(build, Quoted(l).value);
  }

  lemma LinemarkerOfName(output: seq<string>, markers: seq<string>, names: seq<string>, n: string)
    returns (l: string)
    requires markers == Filter(IsLinemarker, output)
    requires LinemarkerNames(markers) == Ok(names)
    requires n in Filter(IsGenuineName, names)
    ensures l in output && IsLinemarker(l) && Quoted(l) == Some(n) && !IsBuiltinName(n)
  {
    assert n in names && IsGenuineName(n);
    NameFromLinemarker(output, markers, names, n);
    l :| l in output && IsLinemarker(l) && Quoted(l) == Some(n);
  }

  lemma OutputNameExtracted(output: seq<string>, build: string, markers: seq<string>, names: seq<string>,
                            genuine: seq<string>, l: string)
    requires markers == Filter(IsLinemarker, output)
    requires LinemarkerNames(markers) == Ok(names)
    requires genuine == Filter(IsGenuineName, names)
    requires l in output && IsLinemarker(l)
    requires !IsBuiltinName(Quoted(l).value)
    ensures SourcePath(build, Quoted(l).value) in Map(SourcePathIn(build), genuine)
  {
    LinemarkerGivesName(output, markers, names, l);
    assert Quoted(l).value in genuine;
    MapMembership(SourcePathIn(build), genuine, SourcePath(build, Quoted(l).value));
  }

  lemma NameFromLinemarker(output: seq<string>, markers: seq<string>, names: seq<string>, n: string)
    requires markers == Filter(IsLinemarker, output)
    requires LinemarkerNames(markers) == Ok(names)
    requires n in names
    ensures exists l :: l in output && IsLinemarker(l) && Quoted(l) == Some(n)
  {
    var k :| 0 <= k < |names| && names[k] == n;
    assert markers[k] in markers;
  }

  lemma LinemarkerGivesName(output: seq<string>, markers: seq<string>, names: seq<string>, l: string)
    requires markers == Filter(IsLinemarker, output)
    requires LinemarkerNames(markers) == Ok(names)
    requires l in output && IsLinemarker(l)
    ensures Quoted(l).Some? && Quoted(l).value in names
  {
    var k :| 0 <= k < |markers| && markers[k] == l;
    assert names[k] in names;
  }

  /** A line that starts with a non-space character not followed by a space
      (a directive such as `#include`) is not a linemarker. */
  lemma NoSpaceAfterHash(line: string)
    requires |line| >= 2 && !IsSpace(line[0]) && line[1] != ' '
    ensures !IsLinemarker(line)
  {
    assert LeadingSpaces(line) == 0;
    var r := Strip(line);
    if |r| >= 2 {
      assert r[1] == line[1];
      assert r[..2][1] == r[1];
    }
  }

  /** A line that starts with a hash and a space and does not end in
      whitespace is a linemarker. */
  lemma HashSpaceIsLinemarker(line: string)
    requires |line| >= 2 && line[0] == '#' && line[1] == ' ' && !IsSpace(line[|line| - 1])
    ensures IsLinemarker(line)
  {
    assert LeadingSpaces(line) == 0;
    var r := Strip(line);
    assert |r| == |line|;
    assert r[..2] == line[..2];
    assert line[..2] == "# ";
  }

  /** `#include <stdio.h>` is not a linemarker. */
  lemma DirectiveIsNotLinemarker()
    ensures !IsLinemarker("#include <stdio.h>")
  {
    var d := "#include <stdio.h>";
    assert d[0] == '#' && d[1] == 'i';
    NoSpaceAfterHash(d);
  }

  /** `# 1 "/p/<built-in>" 3` is a linemarker. */
  lemma LinemarkerExample()
    ensures IsLinemarker("# 1 \"/p/<built-in>\" 3")
  {
    var m := "# 1 \"/p/<built-in>\" 3";
    assert m[0] == '#' && m[1] == ' ' && m[|m| - 1] == '3';
    HashSpaceIsLinemarker(m);
  }

  /** The name of a linemarker is the text between its two quotes, when the
      rest of the line holds no quote. */
  lemma QuotedBetweenQuotes(pre: string, name: string, post: string)
    requires forall k :: 0 <= k < |pre| ==> pre[k] != '"' && pre[k] != '\n'
    requires forall k :: 0 <= k < |name| ==> name[k] != '"' && name[k] != '\n'
    requires forall k :: 0 <= k < |post| ==> post[k] != '"' && post[k] != '\n'
    ensures Quoted(pre + "\"" + name + "\"" + post) == Some(name)
  {
    var s := pre + "\"" + name + "\"" + post;
    var a := |pre|;
    var b := |pre| + 1 + |name|;
    assert s[a] == '"' && s[b] == '"';
    assert forall k :: 0 <= k < a ==> s[k] == pre[k];
    assert forall k :: a < k < b ==> s[k] == name[k - a - 1];
    assert forall k :: b < k < |s| ==> s[k] == post[k - b - 1];
    assert FindChar(s, 0, '"') == a;
    assert LastQuote(s, 0, |s|) == b;
    QuotedSpec(s);
    assert s[a + 1..b] == name;
  }

  /** The name in `# 1 "/p/<built-in>" 3`. */
  lemma QuotedExample()
    ensures Quoted("# 1 \"/p/<built-in>\" 3") == Some("/p/<built-in>")
  {
    QuotedBetweenQuotes("# 1 ", "/p/<built-in>", " 3");
    assert "# 1 " + "\"" + "/p/<built-in>" + "\"" + " 3" == "# 1 \"/p/<built-in>\" 3";
  }

  /** The built-in pseudo-file is recognised by its base name. */
  lemma BuiltinNameExample()
    ensures IsBuiltinName("/p/<built-in>")
  {
    var name := "/p/<built-in>";
    assert name[2] == '/';
    assert forall k :: 2 < k < |name| ==> name[k] != '/';
    assert RFind(name, '/') == 2;
    assert name[3..] == "<built-in>";
  }

  // ---------------------------------------------------------------------
  // find_sources

  /** `SourceFromMake.find_sources(build)`: `make clean`, the preprocessing
      build, the file list drawn from its output, and `make clean` again.
      Each make run is given by how it ended; a failing run raises, except
      that the build may end with the link failure's status. */
  function MakeListing(build: string, cleanBefore: Completed, preprocess: Completed, cleanAfter: Completed,
                       cwd: string, disk: map<string, string>): Result<seq<string>>
  {
    var cleaned :- ToolOutput(CleanCommand, cleanBefore, {});
    var output :- ToolOutput(PreprocessCommand, preprocess, {IgnoredStatus});
    var files :- ExtractSourceFilenames(OutputLines(OutputFiles(GotoCcCommands(output), build, cwd), disk), build);
    var recleaned :- ToolOutput(CleanCommand, cleanAfter, {});
    Ok(files)
  }

  /** The listing fails with the first make run that exits with a status it
      does not tolerate (any nonzero status for `make clean`, any but 0 and
      2 for the build) or with the extraction's AttributeError; otherwise it
      is the file list drawn from the build's output, whether the build
      ended with 0 or 2. */
  lemma MakeListingSpec(build: string, cleanBefore: Completed, preprocess: Completed, cleanAfter: Completed,
                        cwd: string, disk: map<string, string>)
    ensures cleanBefore.status != 0 ==>
      MakeListing(build, cleanBefore, preprocess, cleanAfter, cwd, disk) == Err(CalledProcessError(CleanCommand, cleanBefore.status))
    ensures cleanBefore.status == 0 && preprocess.status != 0 && preprocess.status != IgnoredStatus ==>
      MakeListing(build, cleanBefore, preprocess, cleanAfter, cwd, disk) == Err(CalledProcessError(PreprocessCommand, preprocess.status))
    ensures var extracted := ExtractSourceFilenames(OutputLines(OutputFiles(GotoCcCommands(preprocess.stdout), build, cwd), disk), build);
      cleanBefore.status == 0 && (preprocess.status == 0 || preprocess.status == IgnoredStatus) ==>
        && (extracted.Err? ==> MakeListing(build, cleanBefore, preprocess, cleanAfter, cwd, disk) == extracted)
        && (extracted.Ok? && cleanAfter.status != 0 ==>
              MakeListing(build, cleanBefore, preprocess, cleanAfter, cwd, disk) == Err(CalledProcessError(CleanCommand, cleanAfter.status)))
        && (extracted.Ok? && cleanAfter.status == 0 ==>
              MakeListing(build, cleanBefore, preprocess, cleanAfter, cwd, disk) == extracted)
  {
  }

  /** The exit status the link failure leaves behind makes no difference to
      the listing. */
  lemma LinkFailureTolerated(build: string, cleanBefore: Completed, out: string, cleanAfter: Completed,
                             cwd: string, disk: map<string, string>)
    ensures MakeListing(build, cleanBefore, Completed(IgnoredStatus, out), cleanAfter, cwd, disk)
         == MakeListing(build, cleanBefore, Completed(0, out), cleanAfter, cwd, disk)
  {
  }

  /** `SourceFromMake.find_sources(build)`, given how its three make runs
      end and the files the build left behind. */
  method FindSources(build: string, cleanBefore: Completed, preprocess: Completed, cleanAfter: Completed,
                     cwd: string, disk: map<string, string>)
    returns (r: Result<seq<string>>)
    ensures r == MakeListing(build, cleanBefore, preprocess, cleanAfter, cwd, disk)
  {
    var cleaned := ToolOutput(CleanCommand, cleanBefore, {});
    if cleaned.Err? {
      return Err(cleaned.error);
    }
    var output := ToolOutput(PreprocessCommand, preprocess, {IgnoredStatus});
    if output.Err? {
      return Err(output.error);
    }
    var commands := GotoCcCommands(output.value);
    var files := ExtractFilenames(commands, build, cwd);
    var lines := ReadOutput(files, disk);
    r := ExtractSourceFilenames(lines, build);
    if r.Err? {
      return;
    }
    var recleaned := ToolOutput(CleanCommand, cleanAfter, {});
    if recleaned.Err? {
      return Err(recleaned.error);
    }
  }
}
