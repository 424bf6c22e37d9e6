/** The canonical source-set record of cbmc-viewer: its schema
    (`VALID_SOURCE`), the way the `Source` constructor derives `all_files` and
    `files` from the paths a discovery method hands it, and the batched run of
    the `sloc` line counter that may add `lines_of_code`. */
module SourceSet {
  import opened Outcomes
  import opened Seqs
  import opened Text
  import opened StringOrder
  import opened Json

  /** The tag under which a serialised source set is stored. */
  const JsonTag := "viewer-source"

  /** The fields of a `Source` object, as its `__dict__` holds them. */
  datatype SourceRecord = SourceRecord(
    root: string,
    files: seq<string>,
    allFiles: seq<string>,
    linesOfCode: Option<map<string, int>>)

  // ---------------------------------------------------------------------
  // The schema

  predicate IsStringList(j: Json) {
    j.JList? && forall k :: 0 <= k < |j.items| ==> j.items[k].JStr?
  }

  /** `isinstance(v, int)`, which Python's `bool` values also pass. */
  predicate IsInt(j: Json) {
    j.JInt? || j.JBool?
  }

  /** `{str: int}` under `required=True`: the key type `str` is itself a
      required key, so the mapping must hold at least one entry. */
  predicate IsCountMap(j: Json) {
    j.JObj? && j.fields != map[] && forall k :: k in j.fields ==> IsInt(j.fields[k])
  }

  /** `VALID_SOURCE`: `root` a string, `files` and `all_files` lists of
      strings, an optional non-empty `lines_of_code` mapping strings to
      integers, and no other key. The schema is built with `required=True`,
      so the plain key `files` is required as well, and so is the key `str`
      of the nested mapping. */
  predicate ValidSource(d: map<string, Json>) {
    && d.Keys <= {"root", "files", "all_files", "lines_of_code"}
    && "root" in d && d["root"].JStr?
    && "files" in d && IsStringList(d["files"])
    && "all_files" in d && IsStringList(d["all_files"])
    && ("lines_of_code" in d ==> IsCountMap(d["lines_of_code"]))
  }

  function Strings(ss: seq<string>): (j: Json)
    ensures IsStringList(j)
  {
    JList(Map((x: string) => JStr(x), ss))
  }

  function StringValues(items: seq<Json>): (r: seq<string>)
    requires forall k :: 0 <= k < |items| ==> items[k].JStr?
    ensures |r| == |items|
    ensures forall k :: 0 <= k < |items| ==> r[k] == items[k].s
  {
    if items == [] then [] else [items[0].s] + StringValues(items[1..])
  }

  function IntValue(j: Json): int
    requires IsInt(j)
  {
    if j.JInt? then j.i else if j.b then 1 else 0
  }

  function Counts(m: map<string, int>): Json {
    JObj(map key | key in m :: JInt(m[key]))
  }

  /** The record as a dictionary: what `__repr__` returns and `__str__`
      serialises under `JsonTag`. */
  function Encode(r: SourceRecord): map<string, Json> {
    var d := map["root" := JStr(r.root), "files" := Strings(r.files), "all_files" := Strings(r.allFiles)];
    if r.linesOfCode.Some? then d["lines_of_code" := Counts(r.linesOfCode.value)] else d
  }

  /** The record a dictionary that passes the schema stands for. */
  function Decode(d: map<string, Json>): Option<SourceRecord> {
    if !ValidSource(d) then None
    else
      var counts := if "lines_of_code" in d
        then Some(map key | key in d["lines_of_code"].fields :: IntValue(d["lines_of_code"].fields[key]))
        else None;
      Some(SourceRecord(d["root"].s, StringValues(d["files"].items), StringValues(d["all_files"].items), counts))
  }

  /** A record passes the schema exactly when its counts are absent or
      non-empty, and then decoding its dictionary gives it back. The
      constructor never stores an empty count, so `validate()` never fails on
      a constructed `Source`. */
  lemma EncodeDecode(r: SourceRecord)
    ensures ValidSource(Encode(r)) <==> r.linesOfCode != Some(map[])
    ensures r.linesOfCode != Some(map[]) ==> Decode(Encode(r)) == Some(r)
  {
    var d := Encode(r);
    if r.linesOfCode == Some(map[]) {
      assert d["lines_of_code"].fields == map[];
      return;
    }
    assert StringValues(d["files"].items) == r.files;
    assert StringValues(d["all_files"].items) == r.allFiles;
    if r.linesOfCode.Some? {
      var m := r.linesOfCode.value;
      var back := map key | key in d["lines_of_code"].fields :: IntValue(d["lines_of_code"].fields[key]);
      assert back == m;
    }
  }

  /** A dictionary that passes the schema, with integer (not boolean) counts,
      is the encoding of the record it decodes to. */
  lemma DecodeEncode(d: map<string, Json>)
    requires ValidSource(d)
    requires "lines_of_code" in d ==> forall key :: key in d["lines_of_code"].fields ==> d["lines_of_code"].fields[key].JInt?
    ensures Decode(d).Some? && Encode(Decode(d).value) == d
  {
    var r := Decode(d).value;
    var e := Encode(r);
    assert Strings(r.files) == d["files"] by {
      assert Map((x: string) => JStr(x), r.files) == d["files"].items;
    }
    assert Strings(r.allFiles) == d["all_files"] by {
      assert Map((x: string) => JStr(x), r.allFiles) == d["all_files"].items;
    }
    if "lines_of_code" in d {
      assert Counts(r.linesOfCode.value) == d["lines_of_code"];
    }
    assert e.Keys == d.Keys;
  }

  /** A dictionary missing `root`, `files` (required by the schema's
      `required=True`) or `all_files`, with an empty `lines_of_code` (whose
      key `str` the same flag makes required), or whose counts are not all
      integers, fails the schema. */
  lemma ValidSourceRejects(d: map<string, Json>, key: string)
    requires "root" !in d || "files" !in d || "all_files" !in d
      || ("lines_of_code" in d && d["lines_of_code"] == JObj(map[]))
      || ("lines_of_code" in d && d["lines_of_code"].JObj? && key in d["lines_of_code"].fields
          && !IsInt(d["lines_of_code"].fields[key]))
    ensures !ValidSource(d)
    ensures Decode(d) == None
  {
  }

  // ---------------------------------------------------------------------
  // The constructor's derived fields

  /** `srcloct.abspath(root) if root else ''` */
  function RootOf(abspath: string -> string, root: string): string {
    if root == "" then "" else abspath(root)
  }

  /** `sorted({srcloct.abspath(path) for path in files})` */
  function AllFiles(abspath: string -> string, files: seq<string>): (r: seq<string>)
    ensures StrictlySorted(r)
    ensures forall x :: x in r <==> exists p :: p in files && x == abspath(p)
  {
    var r := SortedSet(Map(abspath, files));
    forall x ensures x in r <==> exists p :: p in files && x == abspath(p) {
      assert x in r <==> x in Elems(Map(abspath, files));
      MapMembership(abspath, files, x);
    }
    r
  }

  /** `path[len(root)+1:]`: the slice is empty when it starts past the end. */
  function Tail(path: string, root: string): string {
    if |root| + 1 <= |path| then path[|root| + 1..] else ""
  }

  /** `files`: each path of `all_files` that begins with the root, with the
      root and the character after it cut off and the rest normalised. The
      test is a raw string prefix, so `/ab/x.c` passes under root `/a`. */
  function RelativeFiles(normpath: string -> string, root: string, allFiles: seq<string>): seq<string> {
    Map((p: string) => normpath(Tail(p, root)), Filter((p: string) => StartsWith(p, root), allFiles))
  }

  /** `files` keeps the order of `all_files`, has one entry per path that
      starts with the root, and no other. */
  lemma RelativeFilesSpec(normpath: string -> string, root: string, allFiles: seq<string>)
    ensures |RelativeFiles(normpath, root, allFiles)| <= |allFiles|
    ensures forall x :: x in RelativeFiles(normpath, root, allFiles) <==>
      exists p :: p in allFiles && StartsWith(p, root) && x == normpath(Tail(p, root))
    ensures IsSubsequence(RelativeFiles(normpath, root, allFiles), Map((p: string) => normpath(Tail(p, root)), allFiles))
  {
    var f := (p: string) => normpath(Tail(p, root));
    var kept := Filter((p: string) => StartsWith(p, root), allFiles);
    forall x ensures x in Map(f, kept) <==> exists p :: p in allFiles && StartsWith(p, root) && x == f(p) {
      MapMembership(f, kept, x);
    }
    SubsequenceMap(f, kept, allFiles);
  }

  /** The raw prefix test lets a sibling directory through, a path equal to
      the root becomes `normpath('')`, a path outside the root is dropped,
      and with no root every path loses its first character. */
  lemma RelativeFilesQuirks(normpath: string -> string)
    ensures RelativeFiles(normpath, "/a", ["/ab/x.c"]) == [normpath("/x.c")]
    ensures RelativeFiles(normpath, "/a", ["/a"]) == [normpath("")]
    ensures RelativeFiles(normpath, "/a", ["/b/y.c"]) == []
    ensures RelativeFiles(normpath, "", ["/x.c"]) == [normpath("x.c")]
  {
    assert StartsWith("/x.c", "") && Tail("/x.c", "") == "x.c";
    assert StartsWith("/ab/x.c", "/a") by { assert "/ab/x.c"[..2] == "/a"; }
    assert Tail("/ab/x.c", "/a") == "/x.c";
    assert StartsWith("/a", "/a") by { assert "/a"[..2] == "/a"; }
    assert Tail("/a", "/a") == "";
    assert !StartsWith("/b/y.c", "/a") by { assert "/b/y.c"[..2][1] == 'b'; }
  }

  // ---------------------------------------------------------------------
  // Line counting

  /** What one run of `sloc -f json <chunk>` ends in: the `summary` block of
      its output, or one of the failures `Source.sloc` distinguishes. */
  datatype SlocOutcome =
    | Summary(counts: map<string, int>)
    | NotFound                 // FileNotFoundError: no sloc on the path
    | OsError(errno: int)      // OSError; errno 2 is FileNotFoundError too
    | ProcessFailed            // CalledProcessError: sloc exits nonzero

  /** The line counter, given the working directory and one chunk of files. */
  type SlocTool = (string, seq<string>) -> SlocOutcome

  const ChunkSize: nat := 100
  const ArgumentListTooLong: int := 7
  /** ENOENT: Python raises every OSError with this errno as FileNotFoundError. */
  const NoSuchFile: int := 2

  /** An OSError that `Source.sloc` does not catch by its errno or its class. */
  predicate Escapes(errno: int) {
    errno != ArgumentListTooLong && errno != NoSuchFile
  }

  /** The chunks the `while sources:` loop takes: `sources[:100]` in turn. */
  function Chunks(s: seq<string>): (r: seq<seq<string>>)
    ensures Flatten(r) == s
    ensures forall k :: 0 <= k < |r| ==> 0 < |r[k]| <= ChunkSize
    ensures forall k :: 0 <= k < |r| - 1 ==> |r[k]| == ChunkSize
    decreases |s|
  {
    if s == [] then []
    else
      var n := if |s| < ChunkSize then |s| else ChunkSize;
      var rest := Chunks(s[n..]);
      assert ([s[..n]] + rest)[1..] == rest;
      assert s == s[..n] + s[n..];
      [s[..n]] + rest
  }

  /** A non-empty list splits into its first chunk and the chunks of the
      rest. */
  lemma ChunksStep(s: seq<string>)
    requires s != []
    ensures var n := if |s| < ChunkSize then |s| else ChunkSize;
      Chunks(s) == [s[..n]] + Chunks(s[n..])
  {
  }

  /** There are ceil(n / 100) chunks, so more than 100 files take more than
      one run of the counter. */
  lemma {:induction false} ChunkCount(s: seq<string>)
    ensures |Chunks(s)| == (|s| + ChunkSize - 1) / ChunkSize
    ensures |s| > ChunkSize ==> |Chunks(s)| > 1
    decreases |s|
  {
    if |s| > ChunkSize {
      ChunkCount(s[ChunkSize..]);
    }
  }

  function Get(m: map<string, int>, key: string): int {
    if key in m then m[key] else 0
  }

  /** One summary added into the running totals: every key of either map,
      with the two counts summed and a missing count taken as 0. */
  function AddCounts(loc: map<string, int>, data: map<string, int>): (r: map<string, int>)
    ensures r.Keys == loc.Keys + data.Keys
    ensures forall key :: key in r ==> r[key] == Get(loc, key) + Get(data, key)
  {
    map key | key in loc.Keys + data.Keys :: Get(loc, key) + Get(data, key)
  }

  /** The result of a counting run that stops at a failed chunk: not-found
      (errno 2 included), errno 7 and a failed run give up with no
      statistics; any other OSError propagates. */
  function Stopped(o: SlocOutcome): (r: Result<Option<map<string, int>>>)
    requires !o.Summary?
    ensures r.Err? <==> o.OsError? && o.errno != ArgumentListTooLong && o.errno != NoSuchFile
    ensures r.Err? ==> r.error == OSError(o.errno)
    ensures r.Ok? ==> r.value == None
  {
    match o
    case OsError(errno) => if Escapes(errno) then Err(OSError(errno)) else Ok(None)
    case _ => Ok(None)
  }

  /** The rest of the counting loop from the accumulated `loc` on: a summary
      adds to `loc`, anything else stops the loop. */
  function SlocRun(chunks: seq<seq<string>>, root: string, tool: SlocTool, loc: map<string, int>)
    : Result<Option<map<string, int>>>
  {
    if chunks == [] then Ok(Some(loc))
    else if tool(root, chunks[0]).Summary? then
      SlocRun(chunks[1..], root, tool, AddCounts(loc, tool(root, chunks[0]).counts))
    else Stopped(tool(root, chunks[0]))
  }

  /** The chunks the loop hands to the counter: all of them, or those up to
      and including the first that fails. */
  function RunChunks(chunks: seq<seq<string>>, root: string, tool: SlocTool): seq<seq<string>> {
    if chunks == [] then []
    else if tool(root, chunks[0]).Summary? then [chunks[0]] + RunChunks(chunks[1..], root, tool)
    else [chunks[0]]
  }

  /** One step of the counting loop: the first chunk's outcome decides
      whether the rest is counted. */
  lemma SlocRunStep(chunk: seq<string>, rest: seq<seq<string>>, root: string, tool: SlocTool, loc: map<string, int>)
    ensures SlocRun([chunk] + rest, root, tool, loc) ==
      if tool(root, chunk).Summary? then SlocRun(rest, root, tool, AddCounts(loc, tool(root, chunk).counts))
      else Stopped(tool(root, chunk))
    ensures RunChunks([chunk] + rest, root, tool) ==
      if tool(root, chunk).Summary? then [chunk] + RunChunks(rest, root, tool) else [chunk]
  {
    assert ([chunk] + rest)[1..] == rest;
  }

  /** `Source.sloc(files, root)` */
  function SlocSpec(files: seq<string>, root: string, tool: SlocTool): Result<Option<map<string, int>>> {
    SlocRun(Chunks(files), root, tool, map[])
  }

  predicate AllCounted(chunks: seq<seq<string>>, root: string, tool: SlocTool) {
    forall k :: 0 <= k < |chunks| ==> tool(root, chunks[k]).Summary?
  }

  /** The sum of one key over a list of summaries (a missing key counts 0). */
  function Total(chunks: seq<seq<string>>, root: string, tool: SlocTool, key: string): int
    requires AllCounted(chunks, root, tool)
  {
    if chunks == [] then 0 else Get(tool(root, chunks[0]).counts, key) + Total(chunks[1..], root, tool, key)
  }

  predicate Mentioned(chunks: seq<seq<string>>, root: string, tool: SlocTool, key: string)
    requires AllCounted(chunks, root, tool)
  {
    exists k :: 0 <= k < |chunks| && key in tool(root, chunks[k]).counts
  }

  lemma {:induction false} SlocRunTotals(chunks: seq<seq<string>>, root: string, tool: SlocTool, loc: map<string, int>)
    requires AllCounted(chunks, root, tool)
    ensures SlocRun(chunks, root, tool, loc).Ok?
    ensures SlocRun(chunks, root, tool, loc).value.Some?
    ensures forall key :: key in SlocRun(chunks, root, tool, loc).value.value <==>
      key in loc || Mentioned(chunks, root, tool, key)
    ensures forall key :: key in SlocRun(chunks, root, tool, loc).value.value ==>
      SlocRun(chunks, root, tool, loc).value.value[key] == Get(loc, key) + Total(chunks, root, tool, key)
  {
    if chunks != [] {
      var data := tool(root, chunks[0]).counts;
      var next := AddCounts(loc, data);
      SlocRunTotals(chunks[1..], root, tool, next);
      forall key ensures Mentioned(chunks, root, tool, key) <==> key in data || Mentioned(chunks[1..], root, tool, key) {
        if Mentioned(chunks[1..], root, tool, key) {
          var k :| 0 <= k < |chunks[1..]| && key in tool(root, chunks[1..][k]).counts;
          assert key in tool(root, chunks[k + 1]).counts;
        }
        if Mentioned(chunks, root, tool, key) && key !in data {
          var k :| 0 <= k < |chunks| && key in tool(root, chunks[k]).counts;
          assert k > 0 && key in tool(root, chunks[1..][k - 1]).counts;
        }
      }
    }
  }

  /** When every run succeeds, `sloc` returns for each key the sum of that
      key over all chunk summaries, and no other key. */
  lemma SlocSumsPerKey(files: seq<string>, root: string, tool: SlocTool)
    requires AllCounted(Chunks(files), root, tool)
    ensures SlocSpec(files, root, tool).Ok? && SlocSpec(files, root, tool).value.Some?
    ensures forall key :: key in SlocSpec(files, root, tool).value.value <==> Mentioned(Chunks(files), root, tool, key)
    ensures forall key :: key in SlocSpec(files, root, tool).value.value ==>
      SlocSpec(files, root, tool).value.value[key] == Total(Chunks(files), root, tool, key)
    ensures RunChunks(Chunks(files), root, tool) == Chunks(files)
  {
    SlocRunTotals(Chunks(files), root, tool, map[]);
    AllCountedRunsAll(Chunks(files), root, tool);
  }

  lemma {:induction false} AllCountedRunsAll(chunks: seq<seq<string>>, root: string, tool: SlocTool)
    requires AllCounted(chunks, root, tool)
    ensures RunChunks(chunks, root, tool) == chunks
  {
    if chunks != [] {
      AllCountedRunsAll(chunks[1..], root, tool);
    }
  }

  /** The first chunk whose run fails decides the result, and no later chunk
      is handed to the counter. */
  lemma {:induction false} SlocStopsAtFirstFailure(chunks: seq<seq<string>>, root: string, tool: SlocTool,
                                                  loc: map<string, int>, k: nat)
    requires k < |chunks|
    requires AllCounted(chunks[..k], root, tool)
    requires !tool(root, chunks[k]).Summary?
    ensures SlocRun(chunks, root, tool, loc) == Stopped(tool(root, chunks[k]))
    ensures RunChunks(chunks, root, tool) == chunks[..k + 1]
  {
    if k > 0 {
      assert tool(root, chunks[..k][0]).Summary?;
      assert chunks[1..][..k - 1] == chunks[..k][1..];
      SlocStopsAtFirstFailure(chunks[1..], root, tool, AddCounts(loc, tool(root, chunks[0]).counts), k - 1);
      assert chunks[..k + 1] == [chunks[0]] + chunks[1..][..k];
    }
  }

  // ---------------------------------------------------------------------
  // Construction

  /** The collaborators the constructor calls: `srcloct.abspath`,
      `srcloct.normpath` and the line counter. */
  datatype Env = Env(abspath: string -> string, normpath: string -> string, sloc: SlocTool)

  /** `Source(root, files, sloc)`: the record the constructor builds, or the
      OSError that escapes from `sloc`. `lines_of_code` is set only when
      counting was asked for and returned a non-empty map. */
  function Construct(root: string, files: seq<string>, sloc: bool, env: Env): Result<SourceRecord> {
    var theRoot := RootOf(env.abspath, root);
    var all := AllFiles(env.abspath, files);
    var rel := RelativeFiles(env.normpath, theRoot, all);
    if !sloc then Ok(SourceRecord(theRoot, rel, all, None))
    else
      match SlocSpec(rel, theRoot, env.sloc)
      case Err(e) => Err(e)
      case Ok(counted) =>
        Ok(SourceRecord(theRoot, rel, all, if counted.Some? && counted.value != map[] then counted else None))
  }

  /** What a constructed record promises: the absolute root (or `''`),
      `all_files` sorted and free of duplicates with exactly the absolute
      inputs, `files` derived from it under the root, `lines_of_code`
      exactly when counting was asked for and gave a non-empty map, and
      then that map, and the schema satisfied. Only an OSError from the counter escapes. */
  lemma ConstructSpec(root: string, files: seq<string>, sloc: bool, env: Env)
    ensures Construct(root, files, sloc, env).Err? <==>
      (sloc && SlocSpec(RelativeFiles(env.normpath, RootOf(env.abspath, root), AllFiles(env.abspath, files)),
                        RootOf(env.abspath, root), env.sloc).Err?)
    ensures Construct(root, files, sloc, env).Err? ==> Construct(root, files, sloc, env).error.OSError?
    ensures Construct(root, files, sloc, env).Ok? ==>
      var r := Construct(root, files, sloc, env).value;
      && (root == "" ==> r.root == "")
      && (root != "" ==> r.root == env.abspath(root))
      && StrictlySorted(r.allFiles)
      && (forall x :: x in r.allFiles <==> exists p :: p in files && x == env.abspath(p))
      && r.files == RelativeFiles(env.normpath, r.root, r.allFiles)
      && (r.linesOfCode.Some? <==>
            sloc && SlocSpec(r.files, r.root, env.sloc).value.Some? && SlocSpec(r.files, r.root, env.sloc).value.value != map[])
      && (r.linesOfCode.Some? ==> r.linesOfCode == SlocSpec(r.files, r.root, env.sloc).value)
      && ValidSource(Encode(r))
  {
    var theRoot := RootOf(env.abspath, root);
    var rel := RelativeFiles(env.normpath, theRoot, AllFiles(env.abspath, files));
    if sloc {
      SlocErrors(Chunks(rel), theRoot, env.sloc, map[]);
    }
    if Construct(root, files, sloc, env).Ok? {
      EncodeDecode(Construct(root, files, sloc, env).value);
    }
  }

  lemma {:induction false} SlocErrors(chunks: seq<seq<string>>, root: string, tool: SlocTool, loc: map<string, int>)
    ensures SlocRun(chunks, root, tool, loc).Err? ==> SlocRun(chunks, root, tool, loc).error.OSError?
  {
    if chunks != [] && tool(root, chunks[0]).Summary? {
      SlocErrors(chunks[1..], root, tool, AddCounts(loc, tool(root, chunks[0]).counts));
    }
  }

  /** The constructor depends on its file list only through the set of its
      elements: order and repetition of the input do not matter. */
  lemma ConstructByElems(root: string, files1: seq<string>, files2: seq<string>, sloc: bool, env: Env)
    requires Elems(files1) == Elems(files2)
    ensures Construct(root, files1, sloc, env) == Construct(root, files2, sloc, env)
  {
    assert Elems(Map(env.abspath, files1)) == Elems(Map(env.abspath, files2)) by {
      forall x ensures x in Map(env.abspath, files1) <==> x in Map(env.abspath, files2) {
        MapMembership(env.abspath, files1, x);
        MapMembership(env.abspath, files2, x);
        if x in Map(env.abspath, files1) {
          var p :| p in files1 && x == env.abspath(p);
          assert p in Elems(files2);
        }
        if x in Map(env.abspath, files2) {
          var p :| p in files2 && x == env.abspath(p);
          assert p in Elems(files1);
        }
      }
    }
    SortedSetByElems(Map(env.abspath, files1), Map(env.abspath, files2));
  }

  /** A source set with no files and no root is the empty, valid record. */
  lemma EmptySource(env: Env)
    ensures Construct("", [], false, env) == Ok(SourceRecord("", [], [], None))
  {
    assert AllFiles(env.abspath, []) == [];
  }

  /** A source set: the root, the files relative to it, all files as
      absolute paths, and optional line counts. It is built once and then
      only read. */
  class Source {
    var root: string
    var files: seq<string>
    var allFiles: seq<string>
    var linesOfCode: Option<map<string, int>>

    constructor Init(r: SourceRecord)
      ensures Record() == r
    {
      root := r.root;
      files := r.files;
      allFiles := r.allFiles;
      linesOfCode := r.linesOfCode;
    }

    function Record(): SourceRecord
      reads this
    {
      SourceRecord(root, files, allFiles, linesOfCode)
    }

    /** `validate()`: the object's dictionary passes the schema. */
    predicate Valid()
      reads this
    {
      ValidSource(Encode(Record()))
    }

    /** `Source.__init__(root, files, sloc)`: derive the fields, count lines
        when asked, and validate; an OSError from the counter escapes. */
    static method Create(root: string, files: seq<string>, sloc: bool, env: Env) returns (r: Result<Source>)
      ensures r.Ok? <==> Construct(root, files, sloc, env).Ok?
      ensures r.Ok? ==> fresh(r.value) && r.value.Valid() && r.value.Record() == Construct(root, files, sloc, env).value
      ensures r.Err? ==> r.error == Construct(root, files, sloc, env).error
    {
      var theRoot := RootOf(env.abspath, root);
      var all := AllFiles(env.abspath, files);
      var rel := RelativeFiles(env.normpath, theRoot, all);
      var counts: Option<map<string, int>> := None;
      if sloc {
        var counted, _ := Sloc(rel, theRoot, env.sloc);
        if counted.Err? {
          return Err(counted.error);
        }
        if counted.value.Some? && counted.value.value != map[] {
          counts := counted.value;
        }
      }
      var record := SourceRecord(theRoot, rel, all, counts);
      EncodeDecode(record);
      var s := new Source.Init(record);
      return Ok(s);
    }

    /** `Source.sloc(files, root)`: run the counter on consecutive chunks of
        at most 100 files and sum the summaries key by key; the ghost result
        lists the chunks the counter was run on. */
    static method Sloc(files: seq<string>, root: string, tool: SlocTool)
      returns (r: Result<Option<map<string, int>>>, ghost invoked: seq<seq<string>>)
      ensures r == SlocSpec(files, root, tool)
      ensures invoked == RunChunks(Chunks(files), root, tool)
    {
      var loc: map<string, int> := map[];
      var sources := files;
      invoked := [];
      while sources != []
        invariant SlocSpec(files, root, tool) == SlocRun(Chunks(sources), root, tool, loc)
        invariant RunChunks(Chunks(files), root, tool) == invoked + RunChunks(Chunks(sources), root, tool)
        decreases |sources|
      {
        var n := if |sources| < ChunkSize then |sources| else ChunkSize;
        var chunk := sources[..n];
        var rest := sources[n..];
        ChunksStep(sources);
        SlocRunStep(chunk, Chunks(rest), root, tool, loc);
        ConcatAssoc(invoked, [chunk], RunChunks(Chunks(rest), root, tool));
        sources := rest;
        invoked := invoked + [chunk];
        match tool(root, chunk)
        case Summary(data) =>
          loc := Accumulate(loc, data);
        case NotFound =>
          r := Ok(None);
          return;
        case OsError(errno) =>
          if Escapes(errno) {
            r := Err(OSError(errno));
            return;
          }
          r := Ok(None);
          return;
        case ProcessFailed =>
          r := Ok(None);
          return;
      }
      r := Ok(Some(loc));
    }

    /** The inner loop of `sloc`: add each key of one summary into `loc`. */
    static method Accumulate(loc: map<string, int>, data: map<string, int>) returns (r: map<string, int>)
      ensures r == AddCounts(loc, data)
    {
      r := loc;
      var keys := data.Keys;
      while keys != {}
        invariant keys <= data.Keys
        invariant r.Keys == loc.Keys + (data.Keys - keys)
        invariant forall key :: key in r ==> r[key] == Get(loc, key) + (if key in keys then 0 else Get(data, key))
        decreases keys
      {
        var key :| key in keys;
        r := r[key := data[key] + Get(r, key)];
        keys := keys - {key};
      }
    }
  }
}
