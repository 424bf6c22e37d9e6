/** The discovery methods that list the files of a source tree:
    `select_source_files` (normalise, exclude, select by extension, join to
    the root), the `SourceFromWalk` loop with its extension filter, the
    `SourceFromFind` output handling and the `SourceFromGoto` guard. The
    tools themselves (`find`, `os.walk`, the symbol-table reader) are
    inputs. */
module SourceSelection {
  import opened Outcomes
  import opened Seqs
  import opened Text
  import opened StringOrder
  import opened PosixPath

  /** A user-supplied regular expression applied as `re.match(pattern, s,
      re.I)`: whether it matches a prefix of `s`, ignoring case. */
  type Matcher = string -> bool

  /** Whether a normalised path survives both optional filters. */
  predicate Keep(exclude: Option<Matcher>, extensions: Option<Matcher>, path: string) {
    && (exclude.None? || !exclude.value(path))
    && (extensions.None? || extensions.value(SplitExt(path).1))
  }

  function NotMatching(ex: Matcher): string -> bool {
    (p: string) => !ex(p)
  }

  function ExtensionMatching(ext: Matcher): string -> bool {
    (p: string) => ext(SplitExt(p).1)
  }

  function KeepBy(exclude: Option<Matcher>, extensions: Option<Matcher>): string -> bool {
    (p: string) => Keep(exclude, extensions, p)
  }

  function Always(): string -> bool {
    (p: string) => true
  }

  /** `select_source_files(files, root, exclude, extensions)` */
  function SelectSourceFiles(files: seq<string>, root: string, exclude: Option<Matcher>, extensions: Option<Matcher>)
    : seq<string>
  {
    var normal := Map(NormPath, files);
    var kept := if exclude.None? then normal else Filter(NotMatching(exclude.value), normal);
    var selected := if extensions.None? then kept else Filter(ExtensionMatching(extensions.value), kept);
    Map(JoinTo(root), selected)
  }

  /** The path an input becomes when it is selected. */
  function Selected(root: string, p: string): string {
    Join(root, NormPath(p))
  }

  function SelectedUnder(root: string): string -> string {
    (p: string) => Selected(root, p)
  }

  /** The two filters together are one filter by `Keep`. */
  lemma SelectByKeep(files: seq<string>, root: string, exclude: Option<Matcher>, extensions: Option<Matcher>)
    ensures SelectSourceFiles(files, root, exclude, extensions)
      == Map(JoinTo(root), Filter(KeepBy(exclude, extensions), Map(NormPath, files)))
  {
    var normal := Map(NormPath, files);
    var keep := KeepBy(exclude, extensions);
    AllKept(Always(), normal);
    if exclude.Some? {
      if extensions.Some? {
        FilterFilter(NotMatching(exclude.value), ExtensionMatching(extensions.value), keep, normal);
      } else {
        FilterFilter(NotMatching(exclude.value), Always(), keep, normal);
      }
    } else if extensions.Some? {
      FilterFilter(Always(), ExtensionMatching(extensions.value), keep, normal);
    } else {
      FilterFilter(Always(), Always(), keep, normal);
    }
  }

  lemma {:induction false} AllKept(p: string -> bool, s: seq<string>)
    requires forall x :: p(x)
    ensures Filter(p, s) == s
  {
    if s != [] {
      AllKept(p, s[1..]);
    }
  }

  /** The selection keeps input order and never grows the list; it holds
      `join(root, normpath(p))` for exactly the inputs `p` whose normalised
      form `exclude` does not match and whose extension `extensions` does,
      an absent pattern disabling its filter. Under an absolute root every
      selected path is absolute. */
  lemma SelectSourceFilesSpec(files: seq<string>, root: string, exclude: Option<Matcher>, extensions: Option<Matcher>)
    ensures |SelectSourceFiles(files, root, exclude, extensions)| <= |files|
    ensures IsSubsequence(SelectSourceFiles(files, root, exclude, extensions), Map(SelectedUnder(root), files))
    ensures forall x :: x in SelectSourceFiles(files, root, exclude, extensions) <==>
      exists p :: p in files && Keep(exclude, extensions, NormPath(p)) && x == Selected(root, p)
    ensures exclude.None? && extensions.None? ==>
      SelectSourceFiles(files, root, exclude, extensions) == Map(SelectedUnder(root), files)
    ensures IsAbs(root) ==> forall x :: x in SelectSourceFiles(files, root, exclude, extensions) ==> IsAbs(x)
  {
    SelectByKeep(files, root, exclude, extensions);
    SelectOrder(files, root, exclude, extensions);
    forall x ensures x in SelectSourceFiles(files, root, exclude, extensions) <==>
      exists p :: p in files && Keep(exclude, extensions, NormPath(p)) && x == Selected(root, p)
    {
      SelectMembership(files, root, exclude, extensions, x);
    }
    if exclude.None? && extensions.None? {
      AllKept(KeepBy(exclude, extensions), Map(NormPath, files));
      MapCompose(NormPath, JoinTo(root), SelectedUnder(root), files);
    }
    if IsAbs(root) {
      forall x | x in SelectSourceFiles(files, root, exclude, extensions) ensures IsAbs(x) {
        MapMembership(JoinTo(root), Filter(KeepBy(exclude, extensions), Map(NormPath, files)), x);
        var q :| q in Filter(KeepBy(exclude, extensions), Map(NormPath, files)) && x == JoinTo(root)(q);
        JoinAbsolute(root, q);
      }
    }
  }

  /** The selection keeps input order and never grows the list. */
  lemma SelectOrder(files: seq<string>, root: string, exclude: Option<Matcher>, extensions: Option<Matcher>)
    ensures |SelectSourceFiles(files, root, exclude, extensions)| <= |files|
    ensures IsSubsequence(SelectSourceFiles(files, root, exclude, extensions), Map(SelectedUnder(root), files))
  {
    SelectByKeep(files, root, exclude, extensions);
    var normal := Map(NormPath, files);
    var kept := Filter(KeepBy(exclude, extensions), normal);
    MapCompose(NormPath, JoinTo(root), SelectedUnder(root), files);
    SubsequenceMap(JoinTo(root), kept, normal);
  }

  /** A path is selected exactly when some input passes both filters and
      becomes that path under the root. */
  lemma SelectMembership(files: seq<string>, root: string, exclude: Option<Matcher>, extensions: Option<Matcher>, x: string)
    ensures x in SelectSourceFiles(files, root, exclude, extensions) <==>
      exists p :: p in files && Keep(exclude, extensions, NormPath(p)) && x == Selected(root, p)
  {
    SelectByKeep(files, root, exclude, extensions);
    var kept := Filter(KeepBy(exclude, extensions), Map(NormPath, files));
    MapMembership(JoinTo(root), kept, x);
    if x in SelectSourceFiles(files, root, exclude, extensions) {
      var q :| q in kept && x == JoinTo(root)(q);
      MapMembership(NormPath, files, q);
    }
    if exists p :: p in files && Keep(exclude, extensions, NormPath(p)) && x == Selected(root, p) {
      var p :| p in files && Keep(exclude, extensions, NormPath(p)) && x == Selected(root, p);
      MapMembership(NormPath, files, NormPath(p));
      assert NormPath(p) in kept;
    }
  }

  lemma JoinAbsolute(a: string, b: string)
    requires IsAbs(a)
    ensures IsAbs(Join(a, b))
  {
    if !IsAbs(b) {
      assert Join(a, b)[..1] == a[..1];
    }
  }

  // ---------------------------------------------------------------------
  // SourceFromWalk

  /** The walk's file-name filter: the lower-cased name ends in `.h`, `.c`
      or `.inl`. */
  predicate IsSourceName(name: string) {
    var l := Lower(name);
    EndsWith(l, ".h") || EndsWith(l, ".c") || EndsWith(l, ".inl")
  }

  /** The filter ignores case: a name and its lower-cased form are both
      source names or neither is. */
  lemma IsSourceNameIgnoresCase(name: string)
    ensures IsSourceName(name) <==> IsSourceName(Lower(name))
  {
    var l := Lower(name);
    forall i | 0 <= i < |l| ensures Lower(l)[i] == l[i] {
      LowerCharIdempotent(name[i]);
    }
    assert Lower(l) == l;
  }

  lemma LowerCharIdempotent(c: char)
    ensures LowerChar(LowerChar(c)) == LowerChar(c)
  {
  }

  /** Upper-case extensions are accepted. */
  lemma IsSourceNameAcceptsUpperCase()
    ensures IsSourceName("LIST.H")
  {
    var l := Lower("LIST.H");
    assert l[4] == '.' && l[5] == 'h';
    assert l[4..] == ".h";
  }

  /** A longer extension that merely starts with `c` is not accepted. */
  lemma IsSourceNameRejectsCpp()
    ensures !IsSourceName("a.cpp")
  {
    var l := Lower("a.cpp");
    assert l[4] == 'p';
  }

  /** One directory reported by `os.walk`: its path and the names of the
      files in it. */
  datatype WalkEntry = WalkEntry(path: string, filenames: seq<string>)

  function JoinTo(dir: string): string -> string {
    (n: string) => Join(dir, n)
  }

  /** `[os.path.join(path, name) for name in filenames if <source name>]` */
  function EntryFiles(e: WalkEntry): seq<string> {
    Map(JoinTo(e.path), Filter(IsSourceName, e.filenames))
  }

  /** `x` is a source file of the directory `e`. */
  predicate InEntry(e: WalkEntry, x: string) {
    exists n :: n in e.filenames && IsSourceName(n) && x == Join(e.path, n)
  }

  lemma EntryFilesMembership(e: WalkEntry, x: string)
    ensures x in EntryFiles(e) <==> InEntry(e, x)
  {
    MapMembership(JoinTo(e.path), Filter(IsSourceName, e.filenames), x);
  }

  /** The list the walk loop builds: the source files of every directory,
      directory by directory in walk order. */
  function WalkFiles(walk: seq<WalkEntry>): seq<string> {
    if walk == [] then [] else WalkFiles(walk[..|walk| - 1]) + EntryFiles(walk[|walk| - 1])
  }

  /** A path is listed exactly when some directory of the walk holds a file
      with a source name that joins to it. */
  lemma WalkFilesMembership(walk: seq<WalkEntry>, x: string)
    ensures x in WalkFiles(walk) <==>
      exists k, n :: 0 <= k < |walk| && n in walk[k].filenames && IsSourceName(n) && x == Join(walk[k].path, n)
  {
    WalkFilesInEntry(walk, x);
    if exists k :: 0 <= k < |walk| && InEntry(walk[k], x) {
      var k :| 0 <= k < |walk| && InEntry(walk[k], x);
      var n :| n in walk[k].filenames && IsSourceName(n) && x == Join(walk[k].path, n);
    }
  }

  lemma {:induction false} WalkFilesInEntry(walk: seq<WalkEntry>, x: string)
    ensures x in WalkFiles(walk) <==> exists k :: 0 <= k < |walk| && InEntry(walk[k], x)
  {
    if walk != [] {
      var init := walk[..|walk| - 1];
      var last := walk[|walk| - 1];
      WalkFilesInEntry(init, x);
      EntryFilesMembership(last, x);
      assert WalkFiles(walk) == WalkFiles(init) + EntryFiles(last);
      if x in WalkFiles(init) {
        var k :| 0 <= k < |init| && InEntry(init[k], x);
        assert init[k] == walk[k];
      }
      if exists k :: 0 <= k < |walk| && InEntry(walk[k], x) {
        var k :| 0 <= k < |walk| && InEntry(walk[k], x);
        EntryFilesMembership(walk[k], x);
        WalkFilesHas(walk, k, x);
      }
    }
  }

  lemma {:induction false} WalkFilesHas(walk: seq<WalkEntry>, k: nat, x: string)
    requires k < |walk| && x in EntryFiles(walk[k])
    ensures x in WalkFiles(walk)
  {
    var init := walk[..|walk| - 1];
    var last := walk[|walk| - 1];
    var before, here := WalkFiles(init), EntryFiles(last);
    assert WalkFiles(walk) == before + here;
    if k < |init| {
      assert init[k] == walk[k];
      WalkFilesHas(init, k, x);
      assert x in before;
    } else {
      assert k == |walk| - 1;
      assert x in here;
    }
    MemberOfConcat(before, here, x);
  }

  /** `SourceFromWalk.find_sources(root, exclude, extensions)`, given the
      directories `os.walk(root, followlinks=True)` reports. */
  method FindSourcesByWalk(walk: seq<WalkEntry>, root: string, exclude: Option<Matcher>, extensions: Option<Matcher>)
    returns (r: seq<string>)
    ensures r == SelectSourceFiles(WalkFiles(walk), root, exclude, extensions)
  {
    var files: seq<string> := [];
    var i := 0;
    while i < |walk|
      invariant 0 <= i <= |walk|
      invariant files == WalkFiles(walk[..i])
    {
      var names := EntryFiles(walk[i]);
      assert walk[..i + 1][..i] == walk[..i];
      files := files + names;
      i := i + 1;
    }
    assert walk[..|walk|] == walk;
    r := SelectSourceFiles(files, root, exclude, extensions);
  }

  // ---------------------------------------------------------------------
  // SourceFromFind

  /** The candidate paths in the output of `find -L .`: one per line, after
      stripping surrounding whitespace. */
  function FindCandidates(output: string): (r: seq<string>)
    ensures forall k :: 0 <= k < |r| ==> IsLine(r[k])
  {
    SplitLines(Strip(output))
  }

  /** The directory lister, run in the source root. */
  const FindCommand: seq<string> := ["find", "-L", "."]

  /** `SourceFromFind.find_sources(root, exclude, extensions)`, given how
      `find -L .` ended in `root`: a failing run raises. */
  function FindSourcesByFind(run: Completed, root: string, exclude: Option<Matcher>, extensions: Option<Matcher>)
    : Result<seq<string>>
  {
    var output :- ToolOutput(FindCommand, run, {});
    Ok(SelectSourceFiles(FindCandidates(output), root, exclude, extensions))
  }

  /** The listing fails exactly when `find` exits with a nonzero status, with
      the CalledProcessError naming it; otherwise it is the selection of the
      lines `find` printed. */
  lemma FindSourcesByFindSpec(run: Completed, root: string, exclude: Option<Matcher>, extensions: Option<Matcher>)
    ensures FindSourcesByFind(run, root, exclude, extensions).Err? <==> run.status != 0
    ensures run.status != 0 ==>
      FindSourcesByFind(run, root, exclude, extensions) == Err(CalledProcessError(FindCommand, run.status))
    ensures run.status == 0 ==>
      FindSourcesByFind(run, root, exclude, extensions) == Ok(SelectSourceFiles(FindCandidates(run.stdout), root, exclude, extensions))
  {
  }

  /** Output of nothing but whitespace lists no file. */
  lemma FindBlankOutput(run: Completed, root: string, exclude: Option<Matcher>, extensions: Option<Matcher>)
    requires run.status == 0
    requires forall k :: 0 <= k < |run.stdout| ==> IsSpace(run.stdout[k])
    ensures FindSourcesByFind(run, root, exclude, extensions) == Ok([])
  {
  }

  // ---------------------------------------------------------------------
  // SourceFromGoto

  /** `symbol_table.source_files(goto, wkdir)` */
  type SymbolSources = (string, string) -> seq<string>

  /** The arguments `SourceFromGoto(goto, wkdir, srcdir)` hands to the
      `Source` constructor: the sorted source files named in the goto
      binary's symbol table, under `srcdir`. An empty goto name is a
      UserWarning. */
  function GotoInputs(goto: string, wkdir: string, srcdir: string, symbols: SymbolSources): (r: Result<(string, seq<string>)>)
    ensures r.Err? <==> goto == ""
    ensures r.Err? ==> r.error == UserWarning("No goto program")
    ensures r.Ok? ==> r.value.0 == srcdir && Sorted(r.value.1) && multiset(r.value.1) == multiset(symbols(goto, wkdir))
  {
    if goto == "" then Err(UserWarning("No goto program"))
    else Ok((srcdir, Sort(symbols(goto, wkdir))))
  }
}
