# cbmc-viewer source sets, in Dafny

This project models how cbmc-viewer decides which source files were used to
build a goto binary (`cbmc_viewer/sourcet.py`). It covers these parts:

- **The `Source` record and its schema.** `root`, `files`, `all_files` and the optional `lines_of_code` must satisfy `VALID_SOURCE`.
- **The constructor.** It derives the absolute, sorted, duplicate-free `all_files` and the root-relative `files`. When asked, it runs the `sloc` line counter in chunks of 100 files.
- **The discovery methods.** Each one ends in that constructor:
  - reloading earlier results from JSON and merging them;
  - reading the goto symbol table;
  - `find`;
  - `os.walk` with its extension filter;
  - a preprocessing `make` build, whose output is reduced step by step: continued lines are joined, `goto-cc` commands are picked, their `-o` output files are read, and file names are taken from the preprocessor's linemarkers (`# linenum "filename" flags`).
- **The `make_source` dispatch.** It chooses among the discovery methods.

The modules follow the source:

| module | holds |
|---|---|
| `SourceSet` | record, schema, constructor, `sloc`, class `Source` |
| `SourceFromJson` | load and merge |
| `SourceSelection` | `select_source_files`, walk, find, goto guard |
| `SourceFromMake` | the make text stages |
| `MakeSource` | the dispatch |

Supporting modules model the Python library the core calls:

| module | models |
|---|---|
| `Text` | `str.strip`, `str.splitlines`, `str.lower` |
| `PosixPath` | POSIX `os.path` |
| `StringOrder` | string ordering, `sorted` and `sorted(set(...))` |
| `Seqs` | list comprehensions |
| `Json` | JSON values |
| `Outcomes` | results and exceptions |

The stateful parts are imperative Dafny:

- `Source.Create` builds a fresh `Source` object whose fields are the constructed record.
- The `sloc` batching loop is proved against the recursive `SlocSpec`.
- So are the loops of `extract_filenames`, `read_output` and the walk.

The code says two things that are easy to misread:

- **`files` is a required key.** `VALID_SOURCE` is built with `required=True`, so the plain key `files` is required even though it is not marked `Required`. The model follows the code.
- **`lines_of_code` may not be empty.** The same flag makes the key type `str` of the nested `{str: int}` a required key, so an empty counts mapping fails the schema. The constructor never stores one, since it keeps only a non-empty count.
- **A falsy record in `SourceFromJson.load` still fails.** There, `validate(source)` checks the object's own dictionary instead, and that dictionary is still empty at that point. Such a record therefore fails the schema just like any other invalid record.

## Model

| member | source | states |
|---|---|---|
| SourceSet.EncodeDecode | cbmc_viewer/sourcet.py:37-46 | a record passes `VALID_SOURCE` exactly when its counts are absent or non-empty, and then decoding its dictionary gives the record back (so, with `ConstructSpec`, `validate()` never rejects a constructed source) |
| SourceSet.DecodeEncode | cbmc_viewer/sourcet.py:37-46 | a dictionary that passes the schema with integer counts is exactly the dictionary of the record it decodes to |
| SourceSet.ValidSourceRejects | cbmc_viewer/sourcet.py:37-46 | a dictionary without `root`, `files` or `all_files`, with an empty `lines_of_code`, or with a count that is not an integer (a string, a list, a fractional number such as `1.5`), fails the schema |
| SourceSet.AllFiles | cbmc_viewer/sourcet.py:66-68 | `all_files` is strictly increasing (sorted, no duplicates) and holds exactly the `abspath` of the inputs |
| SourceSet.RelativeFilesSpec | cbmc_viewer/sourcet.py:70-73 | `files` keeps the order of `all_files`, never grows, and holds `normpath(p[len(root)+1:])` for exactly the paths `p` that start with the root |
| SourceSet.RelativeFilesQuirks | cbmc_viewer/sourcet.py:70-73 | `/ab/x.c` passes under root `/a` and becomes `normpath('/x.c')`; the root itself becomes `normpath('')`; an outside path is dropped; with no root a path loses its first character |
| SourceSet.Chunks | cbmc_viewer/sourcet.py:111-114 | the chunks concatenate back to the file list, each holds 1 to 100 files, and all but the last hold exactly 100 |
| SourceSet.ChunkCount | cbmc_viewer/sourcet.py:111-114 | there are ceil(n/100) chunks, so more than 100 files take more than one run |
| SourceSet.Stopped | cbmc_viewer/sourcet.py:122-137 | a failed run gives no statistics, except an OSError whose errno is neither 7 nor 2 (the errno of FileNotFoundError), which propagates |
| SourceSet.SlocSumsPerKey | cbmc_viewer/sourcet.py:107-143 | when every chunk is counted, `sloc` returns, for each key, the sum of that key over all chunk summaries, has no other key, and runs every chunk (no files: `{}`, no run) |
| SourceSet.SlocStopsAtFirstFailure | cbmc_viewer/sourcet.py:112-137 | the first chunk whose run fails decides the result, and no later chunk is run |
| SourceSet.Source.Sloc | cbmc_viewer/sourcet.py:107-143 | the batching loop returns what `SlocSpec` specifies and runs the counter on exactly the chunks `RunChunks` names |
| SourceSet.Source.Accumulate | cbmc_viewer/sourcet.py:140-141 | the inner loop adds each key of a summary to the running totals (a missing key counting 0) |
| SourceSet.ConstructSpec | cbmc_viewer/sourcet.py:61-81 | the constructor fails only with an OSError from the counter, and only when counting was asked for; otherwise the root is `''` when none is given, `all_files` is sorted, duplicate-free and exactly the absolute inputs, `files` is derived from it, line counts are present only when asked for and non-empty, and the schema holds |
| SourceSet.ConstructByElems | cbmc_viewer/sourcet.py:66-68 | the constructor depends on its input list only through the set of its elements |
| SourceSet.EmptySource | cbmc_viewer/sourcet.py:61-68 | a source with no root and no files is the empty record |
| SourceSet.Source.Create | cbmc_viewer/sourcet.py:61-81 | the new object holds exactly the record `Construct` specifies and is valid, or the constructor's error is returned |
| SourceFromJson.Load | cbmc_viewer/sourcet.py:164-172 | a document loads exactly when it is an object holding a valid record under `viewer-source`; a non-object (or failed parse) is a UserWarning naming the file, a missing tag a KeyError |
| SourceFromJson.LoadAll | cbmc_viewer/sourcet.py:185 | all documents load in order, or the failure is that of the first document that fails to load, all documents before it loading; every loaded record is valid |
| SourceFromJson.Roots | cbmc_viewer/sourcet.py:175 | the roots are exactly the records' roots |
| SourceFromJson.Merge | cbmc_viewer/sourcet.py:174-183 | the merge succeeds exactly when there is one distinct root, returns that root, and otherwise fails naming the set of roots |
| SourceFromJson.MergedFilesUnion | cbmc_viewer/sourcet.py:176-178 | the merged files are exactly the union of every record's `all_files` |
| SourceFromJson.JsonInputsSpec | cbmc_viewer/sourcet.py:161-186 | no documents is `UserWarning('No sources')`; a load failure propagates; otherwise the result is the one common root and the union of files, or the different-roots error |
| SourceFromJson.FromJson | cbmc_viewer/sourcet.py:150-186 | `SourceFromJson(viewer_source)` hands the merged root and files to the constructor, and fails with the first failure of the loading or the merge; `SingleDocumentRoundTrip` and `DifferentRootsRejected` state its outcomes |
| SourceFromJson.SingleDocumentRoundTrip | cbmc_viewer/sourcet.py:150-186 | reloading one written record (any record a `Source` can hold, so with absent or non-empty counts) gives back its root and its `all_files` (when `abspath` leaves those absolute paths alone) |
| SourceFromJson.EmptyCountsRejected | cbmc_viewer/sourcet.py:37-46 | a document whose record holds an empty `lines_of_code` fails validation on loading |
| SourceFromJson.DifferentRootsRejected | cbmc_viewer/sourcet.py:179-182 | two records with different roots are rejected with both roots named |
| SourceSelection.SelectSourceFiles | cbmc_viewer/sourcet.py:429-447 | normalises every input, drops those `exclude` matches, keeps those whose extension `extensions` matches (an absent pattern skipping its step), and joins the rest to the root; `SelectSourceFilesSpec` states its properties |
| SourceSelection.SelectByKeep | cbmc_viewer/sourcet.py:439-446 | the exclude and extension filters in sequence are one filter keeping what both keep |
| SourceSelection.SelectSourceFilesSpec | cbmc_viewer/sourcet.py:429-447 | the selection keeps input order, never grows, holds `join(root, normpath(p))` for exactly the inputs not matched by `exclude` whose extension matches `extensions` (an absent pattern disabling its filter), and is absolute under an absolute root |
| SourceSelection.SelectOrder | cbmc_viewer/sourcet.py:439-447 | the selected paths appear in the same order as their inputs and are never more than the inputs |
| SourceSelection.SelectMembership | cbmc_viewer/sourcet.py:439-447 | a path is selected exactly when some input, normalised, passes both filters and joins to it under the root |
| SourceSelection.IsSourceName | cbmc_viewer/sourcet.py:263-264 | a walked file name is kept when its lower-cased form ends in `.h`, `.c` or `.inl`; the next three rows state its behaviour |
| SourceSelection.IsSourceNameIgnoresCase | cbmc_viewer/sourcet.py:263-264 | the walk's file-name filter gives the same answer for a name and its lower-cased form |
| SourceSelection.IsSourceNameAcceptsUpperCase | cbmc_viewer/sourcet.py:263-264 | `LIST.H` is a source name |
| SourceSelection.IsSourceNameRejectsCpp | cbmc_viewer/sourcet.py:263-264 | `a.cpp` is not a source name |
| SourceSelection.WalkFilesMembership | cbmc_viewer/sourcet.py:261-265 | the walk lists a path exactly when some directory holds a source-named file that joins to it |
| SourceSelection.FindSourcesByWalk | cbmc_viewer/sourcet.py:252-267 | the walk loop returns the selection of the files of every directory, in walk order |
| SourceSelection.FindCandidates | cbmc_viewer/sourcet.py:230 | every candidate from the find output is a single line |
| SourceSelection.FindSourcesByFind | cbmc_viewer/sourcet.py:224-232 | runs `find -L .` in the root, splits its stripped output into lines and selects them; `FindSourcesByFindSpec` states its outcomes |
| SourceSelection.FindSourcesByFindSpec | cbmc_viewer/sourcet.py:224-232 | the listing fails exactly when `find` exits nonzero, with the CalledProcessError naming the command and status; otherwise it is the selection of the printed lines |
| SourceSelection.FindBlankOutput | cbmc_viewer/sourcet.py:224-232 | a successful `find` that printed only whitespace lists no file |
| SourceSelection.GotoInputs | cbmc_viewer/sourcet.py:193-200 | an empty goto name is `UserWarning('No goto program')`; otherwise the constructor gets `srcdir` and the symbol table's files sorted (a permutation) |
| SourceFromMake.RemoveContinuations | cbmc_viewer/sourcet.py:345 | removing continuations never lengthens the text |
| SourceFromMake.RemoveContinuationsNone | cbmc_viewer/sourcet.py:345 | text without a backslash-newline pair is unchanged |
| SourceFromMake.RemoveContinuationsAppend | cbmc_viewer/sourcet.py:345 | the removal distributes over a concatenation that does not split a pair |
| SourceFromMake.JoinsContinuedLine | cbmc_viewer/sourcet.py:345 | a backslash-newline between two texts disappears and nothing else changes |
| SourceFromMake.ContinuationLeftBehind | cbmc_viewer/sourcet.py:345 | the single left-to-right replacement can leave a backslash-newline pair behind |
| SourceFromMake.GotoCcCommands | cbmc_viewer/sourcet.py:344-350 | `build_with_preprocessor` after the run: joins continued lines, splits into lines and keeps each stripped line that starts with `goto-cc`; `GotoCcCommandsSpec` states its properties |
| SourceFromMake.GotoCcCommandsSpec | cbmc_viewer/sourcet.py:329-350 | the commands are the stripped lines starting with `goto-cc` of the joined output, in order, each stripped, and nothing else |
| SourceFromMake.NonSpaceRun | cbmc_viewer/sourcet.py:368 | the run of non-whitespace is maximal |
| SourceFromMake.FirstMatch | cbmc_viewer/sourcet.py:368 | the search returns the leftmost position where ` -o (\S+) ` matches, or none when it matches nowhere |
| SourceFromMake.OutputName | cbmc_viewer/sourcet.py:368-370 | a name is found exactly when the pattern matches somewhere, and it is non-empty and free of whitespace |
| SourceFromMake.OutputNameAfter | cbmc_viewer/sourcet.py:368-370 | in a command `pre -o x post` where `x` is a non-blank word and ` -o ` does not occur earlier, the name found is `x` |
| SourceFromMake.NonSpaceRunExact | cbmc_viewer/sourcet.py:368-370 | the `\S+` run at a position is exactly `n` long when `n` non-blank characters there are followed by a blank or the end |
| SourceFromMake.OutputNameExample | cbmc_viewer/sourcet.py:368-370 | in `cc -o a.o a.c` the name is `a.o` |
| SourceFromMake.OutputNameAtEnd | cbmc_viewer/sourcet.py:368-370 | a `-o` name at the very end of a command, with no space after it, is not found |
| SourceFromMake.CommandOutput | cbmc_viewer/sourcet.py:368-372 | a command contributes one path, `abspath(join(build, name))`, when its ` -o name ` pattern matches and none otherwise |
| SourceFromMake.OutputFilesSpec | cbmc_viewer/sourcet.py:366-373 | each command with a match contributes exactly one path, `abspath(join(build, name))`, and commands without one contribute nothing |
| SourceFromMake.AbsoluteOutputName | cbmc_viewer/sourcet.py:371-372 | an absolute output name does not depend on the build directory |
| SourceFromMake.ExtractFilenames | cbmc_viewer/sourcet.py:352-373 | the loop returns the output files `OutputFiles` specifies, in command order |
| SourceFromMake.OutputLines | cbmc_viewer/sourcet.py:379-389 | every line read holds no line boundary |
| SourceFromMake.OutputLinesSkipsMissing | cbmc_viewer/sourcet.py:381-388 | skipping a missing file is the same as not listing it |
| SourceFromMake.OutputLinesOfOneFile | cbmc_viewer/sourcet.py:382-383 | a file written as newline-terminated lines gives back exactly those lines |
| SourceFromMake.ReadOutput | cbmc_viewer/sourcet.py:375-389 | the loop returns the lines of the existing files, file by file |
| SourceFromMake.Quoted | cbmc_viewer/sourcet.py:410 | `re.search(r'"(.*)"', line).group(1)`, or None where the search fails; `QuotedSpec` states what it returns |
| SourceFromMake.QuotedSpec | cbmc_viewer/sourcet.py:410 | on a line without newlines the name is the text between the first and the last double quote, and there is none with fewer than two quotes |
| SourceFromMake.LinemarkerNames | cbmc_viewer/sourcet.py:410-411 | every linemarker yields its quoted name in order, or the error is an AttributeError naming the first linemarker without a name, all before it having one |
| SourceFromMake.ExtractSourceFilenames | cbmc_viewer/sourcet.py:391-425 | keeps the linemarkers, takes their quoted names, drops the built-in ones, joins the rest to the build directory and returns them sorted without duplicates; `ExtractSourceFilenamesFails` and `ExtractSourceFilenamesResult` state its outcomes |
| SourceFromMake.ExtractSourceFilenamesFails | cbmc_viewer/sourcet.py:407-411 | extraction fails exactly when some linemarker has no quoted name, and reports such a line |
| SourceFromMake.ExtractSourceFilenamesFirstFailure | cbmc_viewer/sourcet.py:407-411 | the line reported is the first linemarker of the output without a quoted name |
| SourceFromMake.ExtractSourceFilenamesResult | cbmc_viewer/sourcet.py:407-425 | on success the result is sorted and duplicate-free and holds `normpath(join(build, name))` for exactly the linemarker names whose base name is not `<built-in>`, `<command-line>` or `<command line>` |
| SourceFromMake.NoSpaceAfterHash | cbmc_viewer/sourcet.py:404-407 | a line that starts with a non-blank character not followed by a space (a `#directive`) is not a linemarker |
| SourceFromMake.HashSpaceIsLinemarker | cbmc_viewer/sourcet.py:404-407 | a line starting `# ` and ending in a non-blank character is a linemarker |
| SourceFromMake.DirectiveIsNotLinemarker | cbmc_viewer/sourcet.py:404-407 | `#include <stdio.h>` is not a linemarker |
| SourceFromMake.LinemarkerExample | cbmc_viewer/sourcet.py:404-407 | `# 1 "/p/<built-in>" 3` is a linemarker |
| SourceFromMake.QuotedBetweenQuotes | cbmc_viewer/sourcet.py:410 | in a line with exactly two double quotes and no newline, the quoted group is the text between them |
| SourceFromMake.QuotedExample | cbmc_viewer/sourcet.py:410 | the name in `# 1 "/p/<built-in>" 3` is `/p/<built-in>` |
| SourceFromMake.BuiltinNameExample | cbmc_viewer/sourcet.py:418-422 | `/p/<built-in>` is dropped by its base name |
| SourceFromMake.MakeListing | cbmc_viewer/sourcet.py:307-327 | `find_sources(build)`: `make clean`, the preprocessing build, the linemarker file names of the preprocessed outputs of its `goto-cc` commands, then `make clean` again, each failure ending the listing; `MakeListingSpec` states its outcomes |
| SourceFromMake.MakeListingSpec | cbmc_viewer/sourcet.py:307-327 | a failing first `make clean` is a CalledProcessError naming it; so is a build ending with a status other than 0 and 2; otherwise an extraction failure propagates, a failing second `make clean` is a CalledProcessError, and if all succeed the result is the extracted file list |
| SourceFromMake.LinkFailureTolerated | cbmc_viewer/sourcet.py:340-342 | a build that ends with the ignored status 2 gives the same listing as one that ends with 0 |
| SourceFromMake.FindSources | cbmc_viewer/sourcet.py:307-327 | the method runs the stages in order, stops at the first failing make run or failing extraction, and returns exactly `MakeListing` |
| MakeSource.Plan | cbmc_viewer/sourcet.py:460-499 | the decision `make_source` takes before building: JSON first, then the requested method with its directories made absolute, or `fail` with the method's message, or nothing to do; `PlanSpec` states its cases |
| MakeSource.PlanSpec | cbmc_viewer/sourcet.py:454-499 | source documents take precedence; otherwise the chosen method runs exactly when its required options are present (an empty directory counting as absent); when they are not, it fails through `fail` with a UserWarning carrying that method's own message; no method means nothing to do; each method whose options are present gives its own strategy with its directories made absolute (goto: the goto binary with the working and source directories; make: the source and working directories; find and walk: the source directory with the exclusion pattern and extensions) |
| MakeSource.EmptySrcdirIsMissing | cbmc_viewer/sourcet.py:464-465 | an empty `--srcdir` is reported as missing |
| MakeSource.NothingToDo | cbmc_viewer/sourcet.py:498-499 | with no documents and no method the result is the empty source set |
| MakeSource.JsonTakesPrecedence | cbmc_viewer/sourcet.py:467-469 | with source documents the result is the JSON merge, whatever else is given |
| MakeSource.MakeSourceResult | cbmc_viewer/sourcet.py:460-499 | every source set make-source returns passes the schema, and only the make method can attach line counts |
| MakeSource.BuildResult | cbmc_viewer/sourcet.py:467-499 | whatever method builds the record, it passes the schema, and only the make method attaches line counts |
| MakeSource.Run | cbmc_viewer/sourcet.py:460-499 | make-source returns a fresh source holding exactly the record `MakeSourceSpec` specifies, or its error |
| MakeSource.Execute | cbmc_viewer/sourcet.py:467-499 | each method builds the record `Build` specifies |
| MakeSource.ExecuteMake | cbmc_viewer/sourcet.py:297-305 | the make method lists its files with the build and constructs with line counting |
| StringOrder.SortedSet | cbmc_viewer/sourcet.py:68 | `sorted(set(xs))` is strictly increasing with the elements of `xs` |
| StringOrder.Sort | cbmc_viewer/sourcet.py:199 | `sorted(xs)` is ordered and a permutation of `xs` |
| StringOrder.StrictlySortedUnique | cbmc_viewer/sourcet.py:425 | a sorted duplicate-free list is determined by its elements |
| Text.Strip | cbmc_viewer/sourcet.py:348 | `strip` removes exactly the surrounding whitespace |
| Text.SplitLinesUnlines | cbmc_viewer/sourcet.py:383 | `splitlines` recovers the lines of a newline-terminated text |
| PosixPath.AbsPath | cbmc_viewer/sourcet.py:372 | `os.path.abspath` against the given current directory: normalises, joining a relative path to that directory first, and the result is absolute when either is |
| PosixPath.NormPath | cbmc_viewer/sourcet.py:424 | `normpath` is never empty and keeps a path absolute or relative |
| PosixPath.Join | cbmc_viewer/sourcet.py:423 | `join` keeps an absolute second part, and otherwise extends the first |
| PosixPath.SplitExt | cbmc_viewer/sourcet.py:445 | `splitext` splits the path into two parts that concatenate back to it; the extension is empty or a dot followed by no dot or separator |
| PosixPath.BaseName | cbmc_viewer/sourcet.py:419 | `basename` is the separator-free tail of the path |

## Left out

- The processes themselves are not run. Each run of `find -L .`, `make clean` or the preprocessing build is given by how it ended, a `Completed` value with an exit status and the text it printed. The run that `runt.run` does is modelled from its use here: it returns the text for status 0 or an ignored status, and raises CalledProcessError otherwise. `runt.py` is not part of this model. Each `sloc` run is a `SlocOutcome`.
- A missing `make` or `find` program is not modelled. Its FileNotFoundError would propagate from `runt.run`, and no `Completed` value stands for it.
- The two `make clean` runs in a build directory are separate inputs (`Host.run` and `Host.cleanAgain`). The make runs' effects on the files in the build directory are not modelled; the files the build leaves are the input map.
- A `sloc` result whose JSON has no `summary` or holds a non-integer count is not modelled. The summary is a map of integers.
- `os.walk` is not modelled. The directories it reports are an input list.
- The file system is a map from file name to contents. Read errors other than a missing file are not modelled.
- JSON parsing and printing are not modelled: `parse.parse_json_file`, `json.loads`, `json.dumps`, `__str__` and `dump`. A document is a `Json` value. `Encode` stands for the `__dict__` that `__repr__` returns.
- `srcloct.abspath`, `srcloct.normpath` and `symbol_table.source_files` are function parameters with no properties. `os.path.abspath` takes the current directory as a parameter.
- The regular-expression engine behind `exclude` and `extensions` is not modelled. Each pattern is a predicate saying whether it matches a prefix of its argument, ignoring case.
- Logging is not modelled.
- SourceFromJson.Merge: Python lists the union of the files as a set, in no particular order. The model lists the concatenation, which has the same elements. `ConstructByElems` shows the constructor's result does not depend on that order.
- SourceFromJson.Merge: the different-roots error carries the set of roots rather than the formatted message.
- Text.Lower: it lower-cases ASCII letters only. For the walk filter this agrees with Python's `str.lower`. Only two other characters lower to text containing an ASCII letter: the Kelvin sign lowers to `k`, which none of `.h`, `.c` and `.inl` contains, and `İ` lowers to `i` followed by a combining dot, so the `i` is never followed by `nl`. A name therefore ends in one of the suffixes after Python's lowering exactly when it does after ASCII lowering.
- `None` and the empty string are one value for `root`, `srcdir` and `wkdir`. `None` and the empty list are one value for `viewer_source`. The source treats each pair alike.
