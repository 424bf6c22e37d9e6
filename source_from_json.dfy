/** `SourceFromJson`: a source set read back from the documents that earlier
    runs of make-source wrote. Each document must hold a valid record under
    `viewer-source`; the records must agree on the root, and the union of
    their `all_files` is handed to the `Source` constructor. */
module SourceFromJson {
  import opened Outcomes
  import opened Seqs
  import opened StringOrder
  import opened Json
  import opened SourceSet

  /** `parse.parse_json_file`: the parsed document, or None when the file
      cannot be read or parsed. */
  type Parser = string -> Option<Json>

  /** `load(source_json)`: the record stored under `viewer-source`. Indexing
      anything but a JSON object (including the None of a failed parse)
      raises TypeError, which becomes a UserWarning naming the file; an object
      without the tag raises KeyError; a record failing the schema raises a
      validation error. */
  function Load(name: string, doc: Option<Json>): (r: Result<map<string, Json>>)
    ensures r.Ok? <==>
      (doc.Some? && doc.value.JObj? && JsonTag in doc.value.fields
       && doc.value.fields[JsonTag].JObj? && ValidSource(doc.value.fields[JsonTag].fields))
    ensures r.Ok? ==> r.value == doc.value.fields[JsonTag].fields && ValidSource(r.value)
    ensures (doc.None? || !doc.value.JObj?) <==> r == Err(UserWarning("Failed to load sources from " + name))
    ensures doc.Some? && doc.value.JObj? && JsonTag !in doc.value.fields <==> r == Err(KeyError(JsonTag))
  {
    if doc.None? || !doc.value.JObj? then Err(UserWarning("Failed to load sources from " + name))
    else if JsonTag !in doc.value.fields then Err(KeyError(JsonTag))
    else
      var source := doc.value.fields[JsonTag];
      // A falsy value makes `validate` check the object's own (still empty)
      // dictionary instead, which fails the schema just the same.
      if source.JObj? && ValidSource(source.fields) then Ok(source.fields) else Err(ValidationError)
  }

  /** `[load(source_json) for source_json in source_jsons]`: the first
      failure propagates. */
  function LoadAll(names: seq<string>, parse: Parser): (r: Result<seq<map<string, Json>>>)
    ensures r.Ok? ==> |r.value| == |names|
    ensures r.Ok? ==> forall k :: 0 <= k < |names| ==> Load(names[k], parse(names[k])) == Ok(r.value[k])
    ensures r.Ok? ==> forall k :: 0 <= k < |names| ==> ValidSource(r.value[k])
    ensures r.Err? ==> exists k :: (0 <= k < |names| && Load(names[k], parse(names[k])) == Err(r.error)
      && forall j :: 0 <= j < k ==> Load(names[j], parse(names[j])).Ok?)
    ensures (forall k :: 0 <= k < |names| ==> Load(names[k], parse(names[k])).Ok?) ==> r.Ok?
  {
    if names == [] then Ok([])
    else
      match Load(names[0], parse(names[0]))
      case Err(e) => Err(e)
      case Ok(first) =>
        match LoadAll(names[1..], parse)
        case Err(e) =>
          assert exists k :: (0 <= k < |names| && Load(names[k], parse(names[k])) == Err(e)
            && forall j :: 0 <= j < k ==> Load(names[j], parse(names[j])).Ok?) by {
            var k :| 0 <= k < |names[1..]| && Load(names[1..][k], parse(names[1..][k])) == Err(e)
              && forall j :: 0 <= j < k ==> Load(names[1..][j], parse(names[1..][j])).Ok?;
            assert names[1..][k] == names[k + 1];
            forall j | 0 < j < k + 1 ensures Load(names[j], parse(names[j])).Ok? {
              assert names[1..][j - 1] == names[j];
            }
          }
          Err(e)
        case Ok(rest) => Ok([first] + rest)
  }

  function RootOfDocument(d: map<string, Json>): string
    requires ValidSource(d)
  {
    d["root"].s
  }

  function AllFilesOfDocument(d: map<string, Json>): seq<string>
    requires ValidSource(d)
  {
    StringValues(d["all_files"].items)
  }

  /** The distinct roots of the records. */
  function Roots(sources: seq<map<string, Json>>): (r: set<string>)
    requires forall k :: 0 <= k < |sources| ==> ValidSource(sources[k])
    ensures forall x :: x in r <==> exists k :: 0 <= k < |sources| && x == RootOfDocument(sources[k])
  {
    if sources == [] then {}
    else
      var rest := Roots(sources[1..]);
      assert forall x :: x in rest <==> exists k :: 1 <= k < |sources| && x == RootOfDocument(sources[k]) by {
        forall x | x in rest ensures exists k :: 1 <= k < |sources| && x == RootOfDocument(sources[k]) {
          var k :| 0 <= k < |sources[1..]| && x == RootOfDocument(sources[1..][k]);
          assert sources[1..][k] == sources[k + 1];
        }
        forall x | exists k :: 1 <= k < |sources| && x == RootOfDocument(sources[k]) ensures x in rest {
          var k :| 1 <= k < |sources| && x == RootOfDocument(sources[k]);
          assert sources[1..][k - 1] == sources[k];
        }
      }
      {RootOfDocument(sources[0])} + rest
  }

  /** The concatenation of every record's `all_files`. */
  function MergedFiles(sources: seq<map<string, Json>>): (r: seq<string>)
    requires forall k :: 0 <= k < |sources| ==> ValidSource(sources[k])
  {
    if sources == [] then [] else AllFilesOfDocument(sources[0]) + MergedFiles(sources[1..])
  }

  /** `merge(sources)`: the common root and the files of every record; more
      than one distinct root (or none at all) is an error naming the roots.
      Python lists the union of a set, in no particular order; this model
      lists the concatenation, which has the same elements, and the
      constructor depends only on the elements (`ConstructByElems`). */
  function Merge(sources: seq<map<string, Json>>): (r: Result<(string, seq<string>)>)
    requires forall k :: 0 <= k < |sources| ==> ValidSource(sources[k])
    ensures r.Ok? <==> |Roots(sources)| == 1
    ensures r.Err? ==> r.error == RootsDiffer(Roots(sources))
    ensures r.Ok? ==> Roots(sources) == {r.value.0}
  {
    var roots := Roots(sources);
    if |roots| != 1 then Err(RootsDiffer(roots))
    else
      var root :| root in roots;
      assert roots == {root} by {
        assert |roots - {root}| == 0;
      }
      Ok((root, MergedFiles(sources)))
  }

  /** The merged files are exactly the union of every record's `all_files`. */
  lemma {:induction false} MergedFilesUnion(sources: seq<map<string, Json>>, x: string)
    requires forall k :: 0 <= k < |sources| ==> ValidSource(sources[k])
    ensures x in MergedFiles(sources) <==> exists k :: 0 <= k < |sources| && x in AllFilesOfDocument(sources[k])
  {
    if sources != [] {
      MergedFilesUnion(sources[1..], x);
      if x in MergedFiles(sources[1..]) {
        var k :| 0 <= k < |sources[1..]| && x in AllFilesOfDocument(sources[1..][k]);
        assert sources[1..][k] == sources[k + 1];
      }
      if exists k :: 0 <= k < |sources| && x in AllFilesOfDocument(sources[k]) {
        var k :| 0 <= k < |sources| && x in AllFilesOfDocument(sources[k]);
        if k > 0 {
          assert sources[1..][k - 1] == sources[k];
        }
      }
    }
  }

  /** The arguments `SourceFromJson` hands to the `Source` constructor: no
      file names is a UserWarning; otherwise load every document and merge. */
  function JsonInputs(names: seq<string>, parse: Parser): Result<(string, seq<string>)> {
    if names == [] then Err(UserWarning("No sources"))
    else
      var sources :- LoadAll(names, parse);
      Merge(sources)
  }

  /** `SourceFromJson(source_jsons, sloc)`: the record it constructs. */
  function FromJson(names: seq<string>, parse: Parser, sloc: bool, env: Env): Result<SourceRecord> {
    var inputs :- JsonInputs(names, parse);
    Construct(inputs.0, inputs.1, sloc, env)
  }

  /** The merge succeeds exactly when every document loads and all agree on
      one root; it then passes that root and the union of the `all_files`
      lists. */
  lemma JsonInputsSpec(names: seq<string>, parse: Parser)
    ensures names == [] ==> JsonInputs(names, parse) == Err(UserWarning("No sources"))
    ensures names != [] && LoadAll(names, parse).Err? ==> JsonInputs(names, parse) == Err(LoadAll(names, parse).error)
    ensures names != [] && LoadAll(names, parse).Ok? ==>
      var sources := LoadAll(names, parse).value;
      && (JsonInputs(names, parse).Ok? <==> |Roots(sources)| == 1)
      && (JsonInputs(names, parse).Err? ==> JsonInputs(names, parse).error == RootsDiffer(Roots(sources)))
      && (JsonInputs(names, parse).Ok? ==>
            && Roots(sources) == {JsonInputs(names, parse).value.0}
            && forall x :: x in JsonInputs(names, parse).value.1 <==>
                 exists k :: 0 <= k < |sources| && x in AllFilesOfDocument(sources[k]))
  {
    if names != [] && LoadAll(names, parse).Ok? {
      var sources := LoadAll(names, parse).value;
      forall x ensures x in MergedFiles(sources) <==> exists k :: 0 <= k < |sources| && x in AllFilesOfDocument(sources[k]) {
        MergedFilesUnion(sources, x);
      }
    }
  }

  /** A document holding a record's dictionary under the tag loads back to
      that dictionary. */
  lemma LoadEncoded(name: string, parse: Parser, rec: SourceRecord)
    requires parse(name) == Some(JObj(map[JsonTag := JObj(Encode(rec))]))
    requires rec.linesOfCode != Some(map[])
    ensures Load(name, parse(name)) == Ok(Encode(rec))
  {
    EncodeDecode(rec);
  }

  /** A document whose record holds an empty `lines_of_code` fails the
      schema on loading. */
  lemma EmptyCountsRejected(name: string, parse: Parser, rec: SourceRecord)
    requires parse(name) == Some(JObj(map[JsonTag := JObj(Encode(rec))]))
    requires rec.linesOfCode == Some(map[])
    ensures Load(name, parse(name)) == Err(ValidationError)
  {
    EncodeDecode(rec);
  }

  lemma LoadAllSingle(x: string, parse: Parser)
    requires Load(x, parse(x)).Ok?
    ensures LoadAll([x], parse) == Ok([Load(x, parse(x)).value])
  {
    assert [x][0] == x && [x][1..] == [];
    assert LoadAll([], parse) == Ok([]);
    assert [Load(x, parse(x)).value] + [] == [Load(x, parse(x)).value];
  }

  lemma LoadAllPair(x: string, y: string, parse: Parser)
    requires Load(x, parse(x)).Ok? && Load(y, parse(y)).Ok?
    ensures LoadAll([x, y], parse) == Ok([Load(x, parse(x)).value, Load(y, parse(y)).value])
  {
    LoadAllSingle(y, parse);
    assert [x, y][0] == x && [x, y][1..] == [y];
    assert [Load(x, parse(x)).value] + [Load(y, parse(y)).value] == [Load(x, parse(x)).value, Load(y, parse(y)).value];
  }

  /** A single document written from a record survives the reload: its root
      and its `all_files` come back unchanged, provided `srcloct.abspath`
      leaves those already absolute paths alone. */
  lemma SingleDocumentRoundTrip(name: string, parse: Parser, rec: SourceRecord, env: Env)
    requires parse(name) == Some(JObj(map[JsonTag := JObj(Encode(rec))]))
    requires rec.linesOfCode != Some(map[])
    requires rec.root != "" ==> env.abspath(rec.root) == rec.root
    requires forall p :: p in rec.allFiles ==> env.abspath(p) == p
    requires StrictlySorted(rec.allFiles)
    ensures FromJson([name], parse, false, env).Ok?
    ensures FromJson([name], parse, false, env).value.root == rec.root
    ensures FromJson([name], parse, false, env).value.allFiles == rec.allFiles
  {
    SingleDocumentInputs(name, parse, rec);
    assert FromJson([name], parse, false, env) == Construct(rec.root, rec.allFiles, false, env);
    ConstructFixed(rec.root, rec.allFiles, env);
  }

  /** One document's root and `all_files` are the inputs handed on. */
  lemma SingleDocumentInputs(name: string, parse: Parser, rec: SourceRecord)
    requires parse(name) == Some(JObj(map[JsonTag := JObj(Encode(rec))]))
    requires rec.linesOfCode != Some(map[])
    ensures JsonInputs([name], parse) == Ok((rec.root, rec.allFiles))
  {
    EncodeDecode(rec);
    var d := Encode(rec);
    LoadEncoded(name, parse, rec);
    LoadAllSingle(name, parse);
    assert AllFilesOfDocument(d) == rec.allFiles;
    assert Roots([d]) == {rec.root};
    assert MergedFiles([d]) == rec.allFiles;
  }

  /** Constructing from a root and sorted files that `abspath` leaves alone
      keeps both. */
  lemma ConstructFixed(root: string, files: seq<string>, env: Env)
    requires root != "" ==> env.abspath(root) == root
    requires forall p :: p in files ==> env.abspath(p) == p
    requires StrictlySorted(files)
    ensures Construct(root, files, false, env).Ok?
    ensures Construct(root, files, false, env).value.root == root
    ensures Construct(root, files, false, env).value.allFiles == files
  {
    assert Map(env.abspath, files) == files;
    SortedSetOfSorted(files);
  }

  /** Two documents with different roots cannot be merged. */
  lemma DifferentRootsRejected(parse: Parser, a: SourceRecord, b: SourceRecord, env: Env)
    requires parse("a.json") == Some(JObj(map[JsonTag := JObj(Encode(a))]))
    requires parse("b.json") == Some(JObj(map[JsonTag := JObj(Encode(b))]))
    requires a.linesOfCode != Some(map[]) && b.linesOfCode != Some(map[])
    requires a.root != b.root
    ensures FromJson(["a.json", "b.json"], parse, false, env) == Err(RootsDiffer({a.root, b.root}))
  {
    var sources := [Encode(a), Encode(b)];
    PairLoads(parse, a, b);
    assert JsonInputs(["a.json", "b.json"], parse) == Merge(sources);
    RootsOfPair(Encode(a), Encode(b));
    EncodedRoot(a);
    EncodedRoot(b);
    assert |{a.root, b.root}| == 2;
  }

  lemma EncodedRoot(r: SourceRecord)
    requires ValidSource(Encode(r))
    ensures RootOfDocument(Encode(r)) == r.root
  {
  }

  lemma PairLoads(parse: Parser, a: SourceRecord, b: SourceRecord)
    requires parse("a.json") == Some(JObj(map[JsonTag := JObj(Encode(a))]))
    requires parse("b.json") == Some(JObj(map[JsonTag := JObj(Encode(b))]))
    requires a.linesOfCode != Some(map[]) && b.linesOfCode != Some(map[])
    ensures ValidSource(Encode(a)) && ValidSource(Encode(b))
    ensures LoadAll(["a.json", "b.json"], parse) == Ok([Encode(a), Encode(b)])
  {
    LoadEncoded("a.json", parse, a);
    LoadEncoded("b.json", parse, b);
    LoadAllPair("a.json", "b.json", parse);
  }

  lemma RootsOfPair(x: map<string, Json>, y: map<string, Json>)
    requires ValidSource(x) && ValidSource(y)
    ensures Roots([x, y]) == {RootOfDocument(x), RootOfDocument(y)}
  {
    assert [x, y][1..] == [y];
    assert [y][1..] == [];
  }
}
