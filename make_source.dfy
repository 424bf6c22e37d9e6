/** `make_source`: the make-source command. It picks one discovery method
    from its options, checks that the method's required options are present,
    and builds the source set with it. */
module MakeSource {
  import opened Outcomes
  import opened SourceSet
  import opened SourceFromJson
  import opened SourceSelection
  import opened SourceFromMake

  /** `Sources`: the methods for listing source files. */
  datatype Method = Find | Walk | Make | Goto

  /** The options make-source receives. An absent list of source documents
      and an empty one are the same. */
  datatype Options = Options(
    viewerSource: seq<string>,
    goto: Option<string>,
    sourceMethod: Option<Method>,
    srcdir: Option<string>,
    wkdir: Option<string>,
    exclude: Option<Matcher>,
    extensions: Option<Matcher>)

  /** The discovery method chosen, with the arguments it is called with. */
  datatype Strategy =
    | ByJson(names: seq<string>)
    | ByGoto(goto: string, wkdir: string, srcdir: string)
    | ByMake(root: string, build: string)
    | ByFind(root: string, exclude: Option<Matcher>, extensions: Option<Matcher>)
    | ByWalk(root: string, exclude: Option<Matcher>, extensions: Option<Matcher>)
    | Nothing

  /** `fail(msg)`: the failure make-source reports. */
  function Fail(msg: string): (r: Result<Strategy>)
    ensures r.Err? && r.error.UserWarning? && r.error.message == msg
  {
    Err(UserWarning(msg))
  }

  const GotoMessage := "make-source: expected --goto and --srcdir and --wkdir"
  const MakeMessage := "make-source: expected --srcdir and --wkdir"
  const SrcdirMessage := "make-source: expected --srcdir"

  /** `srcloct.abspath(d) if d else None`: an empty directory name counts as
      absent. */
  function AbsDir(abspath: string -> string, d: Option<string>): Option<string> {
    if d.Some? && d.value != "" then Some(abspath(d.value)) else None
  }

  /** The decision `make_source` takes before building anything. */
  function Plan(opts: Options, abspath: string -> string): Result<Strategy> {
    var wkdir := AbsDir(abspath, opts.wkdir);
    var srcdir := AbsDir(abspath, opts.srcdir);
    if opts.viewerSource != [] then Ok(ByJson(opts.viewerSource))
    else if opts.sourceMethod == Some(Goto) then
      if opts.goto.None? || wkdir.None? || srcdir.None? then Fail(GotoMessage)
      else Ok(ByGoto(opts.goto.value, wkdir.value, srcdir.value))
    else if opts.sourceMethod == Some(Make) then
      if srcdir.None? || wkdir.None? then Fail(MakeMessage)
      else Ok(ByMake(srcdir.value, wkdir.value))
    else if opts.sourceMethod == Some(Find) then
      if srcdir.None? then Fail(SrcdirMessage)
      else Ok(ByFind(srcdir.value, opts.exclude, opts.extensions))
    else if opts.sourceMethod == Some(Walk) then
      if srcdir.None? then Fail(SrcdirMessage)
      else Ok(ByWalk(srcdir.value, opts.exclude, opts.extensions))
    else Ok(Nothing)
  }

  /** The options each method needs. */
  predicate HasRequired(opts: Options, abspath: string -> string, m: Method) {
    var wkdir := AbsDir(abspath, opts.wkdir);
    var srcdir := AbsDir(abspath, opts.srcdir);
    match m
    case Goto => opts.goto.Some? && wkdir.Some? && srcdir.Some?
    case Make => srcdir.Some? && wkdir.Some?
    case Find => srcdir.Some?
    case Walk => srcdir.Some?
  }

  function MissingMessage(m: Method): string {
    match m
    case Goto => GotoMessage
    case Make => MakeMessage
    case Find => SrcdirMessage
    case Walk => SrcdirMessage
  }

  /** Source documents take precedence over everything else; otherwise the
      chosen method runs exactly when its required options are there (an
      empty directory name counting as absent), fails with its own message
      when they are not, and no method at all means nothing to do. */
  lemma PlanSpec(opts: Options, abspath: string -> string)
    ensures opts.viewerSource != [] ==> Plan(opts, abspath) == Ok(ByJson(opts.viewerSource))
    ensures opts.viewerSource == [] && opts.sourceMethod.None? ==> Plan(opts, abspath) == Ok(Nothing)
    ensures opts.viewerSource == [] && opts.sourceMethod.Some? ==>
      (Plan(opts, abspath).Ok? <==> HasRequired(opts, abspath, opts.sourceMethod.value))
    ensures opts.viewerSource == [] && opts.sourceMethod.Some? && !HasRequired(opts, abspath, opts.sourceMethod.value) ==>
      Plan(opts, abspath) == Err(UserWarning(MissingMessage(opts.sourceMethod.value)))
    ensures opts.viewerSource == [] && opts.sourceMethod == Some(Goto) && HasRequired(opts, abspath, Goto) ==>
      Plan(opts, abspath) == Ok(ByGoto(opts.goto.value, abspath(opts.wkdir.value), abspath(opts.srcdir.value)))
    ensures opts.viewerSource == [] && opts.sourceMethod == Some(Make) && HasRequired(opts, abspath, Make) ==>
      Plan(opts, abspath) == Ok(ByMake(abspath(opts.srcdir.value), abspath(opts.wkdir.value)))
    ensures opts.viewerSource == [] && opts.sourceMethod == Some(Find) && HasRequired(opts, abspath, Find) ==>
      Plan(opts, abspath) == Ok(ByFind(abspath(opts.srcdir.value), opts.exclude, opts.extensions))
    ensures opts.viewerSource == [] && opts.sourceMethod == Some(Walk) && HasRequired(opts, abspath, Walk) ==>
      Plan(opts, abspath) == Ok(ByWalk(abspath(opts.srcdir.value), opts.exclude, opts.extensions))
    ensures Plan(opts, abspath).Ok? && Plan(opts, abspath).value.ByGoto? ==> opts.sourceMethod == Some(Goto)
    ensures Plan(opts, abspath).Ok? && Plan(opts, abspath).value.ByMake? ==>
      Plan(opts, abspath).value == ByMake(abspath(opts.srcdir.value), abspath(opts.wkdir.value))
  {
  }

  /** An empty directory name is as good as a missing one. */
  lemma EmptySrcdirIsMissing(opts: Options, abspath: string -> string)
    requires opts.viewerSource == [] && opts.sourceMethod == Some(Find) && opts.srcdir == Some("")
    ensures Plan(opts, abspath) == Err(UserWarning("make-source: expected --srcdir"))
  {
  }

  /** What the outside world supplies: the constructor's collaborators, the
      document parser, the symbol-table reader, how a command run in a
      directory ends (`find -L .`, the first `make clean`, the preprocessing
      build), how the second `make clean` in a build directory ends, what
      `os.walk` reports for a directory, the current directory and the files
      on disk. */
  datatype Host = Host(
    env: Env,
    parse: Parser,
    symbols: SymbolSources,
    run: (seq<string>, string) -> Completed,
    cleanAgain: string -> Completed,
    walk: string -> seq<WalkEntry>,
    cwd: string,
    disk: map<string, string>)

  /** The files `SourceFromMake.find_sources(build)` lists. */
  function MakeFiles(build: string, host: Host): Result<seq<string>> {
    MakeListing(build, host.run(CleanCommand, build), host.run(PreprocessCommand, build), host.cleanAgain(build),
                host.cwd, host.disk)
  }

  /** The record the chosen method builds. Only the make method counts
      lines. */
  function Build(s: Strategy, host: Host): Result<SourceRecord> {
    match s
    case ByJson(names) => FromJson(names, host.parse, false, host.env)
    case ByGoto(goto, wkdir, srcdir) =>
      var inputs :- GotoInputs(goto, wkdir, srcdir, host.symbols);
      Construct(inputs.0, inputs.1, false, host.env)
    case ByMake(root, build) =>
      var files :- MakeFiles(build, host);
      Construct(root, files, true, host.env)
    case ByFind(root, exclude, extensions) =>
      var files :- FindSourcesByFind(host.run(FindCommand, root), root, exclude, extensions);
      Construct(root, files, false, host.env)
    case ByWalk(root, exclude, extensions) =>
      Construct(root, SelectSourceFiles(WalkFiles(host.walk(root)), root, exclude, extensions), false, host.env)
    case Nothing => Construct("", [], false, host.env)
  }

  /** `make_source(...)`: the record it returns, or the failure. */
  function MakeSourceSpec(opts: Options, host: Host): Result<SourceRecord> {
    var s :- Plan(opts, host.env.abspath);
    Build(s, host)
  }

  /** With nothing to do, make-source returns the empty source set. */
  lemma NothingToDo(opts: Options, host: Host)
    requires opts.viewerSource == [] && opts.sourceMethod.None?
    ensures MakeSourceSpec(opts, host) == Ok(SourceRecord("", [], [], None))
  {
    EmptySource(host.env);
  }

  /** Source documents win over every other option. */
  lemma JsonTakesPrecedence(opts: Options, host: Host)
    requires opts.viewerSource != []
    ensures MakeSourceSpec(opts, host) == FromJson(opts.viewerSource, host.parse, false, host.env)
  {
  }

  /** Every source set make-source returns passes the schema, and only the
      make method can attach line counts. */
  lemma MakeSourceResult(opts: Options, host: Host)
    ensures MakeSourceSpec(opts, host).Ok? ==> ValidSource(Encode(MakeSourceSpec(opts, host).value))
    ensures MakeSourceSpec(opts, host).Ok? && MakeSourceSpec(opts, host).value.linesOfCode.Some? ==>
      Plan(opts, host.env.abspath).Ok? && Plan(opts, host.env.abspath).value.ByMake?
  {
    var plan := Plan(opts, host.env.abspath);
    if plan.Ok? {
      BuildResult(plan.value, host);
    }
  }

  /** Each method's record passes the schema; only the make method counts
      lines. */
  lemma BuildResult(s: Strategy, host: Host)
    ensures Build(s, host).Ok? ==> ValidSource(Encode(Build(s, host).value))
    ensures Build(s, host).Ok? && Build(s, host).value.linesOfCode.Some? ==> s.ByMake?
  {
    if Build(s, host).Ok? {
      match s
      case ByJson(names) =>
        var inputs := JsonInputs(names, host.parse).value;
        ConstructSpec(inputs.0, inputs.1, false, host.env);
      case ByGoto(goto, wkdir, srcdir) =>
        var inputs := GotoInputs(goto, wkdir, srcdir, host.symbols).value;
        ConstructSpec(inputs.0, inputs.1, false, host.env);
      case ByMake(root, build) =>
        ConstructSpec(root, MakeFiles(build, host).value, true, host.env);
      case ByFind(root, exclude, extensions) =>
        var files := FindSourcesByFind(host.run(FindCommand, root), root, exclude, extensions).value;
        ConstructSpec(root, files, false, host.env);
      case ByWalk(root, exclude, extensions) =>
        ConstructSpec(root, SelectSourceFiles(WalkFiles(host.walk(root)), root, exclude, extensions), false, host.env);
      case Nothing =>
        EmptySource(host.env);
    }
  }

  /** `make_source(viewer_source, goto, source_method, srcdir, wkdir,
      exclude, extensions)` */
  method Run(opts: Options, host: Host) returns (r: Result<Source>)
    ensures r.Ok? <==> MakeSourceSpec(opts, host).Ok?
    ensures r.Ok? ==> fresh(r.value) && r.value.Record() == MakeSourceSpec(opts, host).value
    ensures r.Err? ==> r.error == MakeSourceSpec(opts, host).error
  {
    var plan := Plan(opts, host.env.abspath);
    if plan.Err? {
      return Err(plan.error);
    }
    r := Execute(plan.value, host);
  }

  /** Build the source set with the chosen method. */
  method Execute(s: Strategy, host: Host) returns (r: Result<Source>)
    ensures r.Ok? <==> Build(s, host).Ok?
    ensures r.Ok? ==> fresh(r.value) && r.value.Record() == Build(s, host).value
    ensures r.Err? ==> r.error == Build(s, host).error
  {
    match s
    case ByJson(names) =>
      var inputs := JsonInputs(names, host.parse);
      if inputs.Err? {
        return Err(inputs.error);
      }
      assert Build(s, host) == Construct(inputs.value.0, inputs.value.1, false, host.env);
      r := Source.Create(inputs.value.0, inputs.value.1, false, host.env);
    case ByGoto(goto, wkdir, srcdir) =>
      var inputs := GotoInputs(goto, wkdir, srcdir, host.symbols);
      if inputs.Err? {
        return Err(inputs.error);
      }
      assert Build(s, host) == Construct(inputs.value.0, inputs.value.1, false, host.env);
      r := Source.Create(inputs.value.0, inputs.value.1, false, host.env);
    case ByMake(root, build) =>
      r := ExecuteMake(root, build, host);
    case ByFind(root, exclude, extensions) =>
      var files := FindSourcesByFind(host.run(FindCommand, root), root, exclude, extensions);
      if files.Err? {
        return Err(files.error);
      }
      assert Build(s, host) == Construct(root, files.value, false, host.env);
      r := Source.Create(root, files.value, false, host.env);
    case ByWalk(root, exclude, extensions) =>
      var files := FindSourcesByWalk(host.walk(root), root, exclude, extensions);
      r := Source.Create(root, files, false, host.env);
    case Nothing =>
      r := Source.Create("", [], false, host.env);
  }

  /** `SourceFromMake(root, build)`: list the files with the preprocessing
      build, then construct with line counting. */
  method ExecuteMake(root: string, build: string, host: Host) returns (r: Result<Source>)
    ensures r.Ok? <==> Build(ByMake(root, build), host).Ok?
    ensures r.Ok? ==> fresh(r.value) && r.value.Record() == Build(ByMake(root, build), host).value
    ensures r.Err? ==> r.error == Build(ByMake(root, build), host).error
  {
    var files := SourceFromMake.FindSources(build, host.run(CleanCommand, build), host.run(PreprocessCommand, build),
                                            host.cleanAgain(build), host.cwd, host.disk);
    assert files == MakeFiles(build, host);
    if files.Err? {
      return Err(files.error);
    }
    assert Build(ByMake(root, build), host) == Construct(root, files.value, true, host.env);
    r := Source.Create(root, files.value, true, host.env);
  }
}
