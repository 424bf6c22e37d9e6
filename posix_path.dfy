/** The POSIX `os.path` functions the source-set core calls: `join`,
    `normpath`, `basename`, `splitext` and `abspath` (the current directory,
    which `abspath` reads from the process, is a parameter). */
module PosixPath {
  import opened Text

  predicate IsAbs(p: string) {
    StartsWith(p, "/")
  }

  /** `os.path.join(a, b)`: an absolute `b` replaces `a`; otherwise `b` is
      appended after a separator unless `a` is empty or already ends in one. */
  function Join(a: string, b: string): (r: string)
    ensures IsAbs(b) ==> r == b
    ensures !IsAbs(b) ==> StartsWith(r, a) && EndsWith(r, b)
  {
    if IsAbs(b) then b
    else if a == "" || EndsWith(a, "/") then a + b
    else a + "/" + b
  }

  /** `s.split(sep)`: always at least one piece, none holding `sep`. */
  function SplitOn(s: string, sep: char): (r: seq<string>)
    ensures |r| >= 1
    ensures forall k :: 0 <= k < |r| ==> sep !in r[k]
  {
    if s == [] then [""]
    else
      var rest := SplitOn(s[1..], sep);
      if s[0] == sep then [""] + rest else [[s[0]] + rest[0]] + rest[1..]
  }

  /** `sep.join(parts)` */
  function JoinWith(parts: seq<string>, sep: string): (r: string)
    ensures parts != [] ==> StartsWith(r, parts[0])
  {
    if parts == [] then ""
    else if |parts| == 1 then parts[0]
    else parts[0] + sep + JoinWith(parts[1..], sep)
  }

  /** A component `normpath` keeps: not empty, not ".", no separator, and
      not ".." below an absolute root. */
  predicate CleanComponent(c: string, absolute: bool) {
    c != "" && c != "." && '/' !in c && (absolute ==> c != "..")
  }

  /** The component loop of `normpath`: drop empty and "." components, let
      ".." cancel the previous kept component, keep a leading ".." of a
      relative path, and drop ".." at an absolute root. */
  function NormComps(comps: seq<string>, absolute: bool, acc: seq<string>): (r: seq<string>)
    requires forall k :: 0 <= k < |comps| ==> '/' !in comps[k]
    requires forall k :: 0 <= k < |acc| ==> CleanComponent(acc[k], absolute)
    ensures forall k :: 0 <= k < |r| ==> CleanComponent(r[k], absolute)
    decreases |comps|
  {
    if comps == [] then acc
    else
      var c := comps[0];
      if c == "" || c == "." then NormComps(comps[1..], absolute, acc)
      else if c != ".." || (!absolute && acc == []) || (acc != [] && acc[|acc| - 1] == "..") then
        NormComps(comps[1..], absolute, acc + [c])
      else if acc != [] then NormComps(comps[1..], absolute, acc[..|acc| - 1])
      else NormComps(comps[1..], absolute, acc)
  }

  /** `os.path.normpath(p)`: POSIX keeps exactly two leading slashes and folds
      three or more into one; an empty result is ".". */
  function NormPath(p: string): (r: string)
    ensures r != ""
    ensures IsAbs(r) <==> IsAbs(p)
  {
    assert !IsAbs(".") by { assert "."[..1] == "." && "." != "/"; }
    if p == "" then "."
    else
      var slashes := if StartsWith(p, "/") then (if StartsWith(p, "//") && !StartsWith(p, "///") then "//" else "/") else "";
      var comps := NormComps(SplitOn(p, '/'), slashes != "", []);
      var body := JoinWith(comps, "/");
      assert comps != [] ==> CleanComponent(comps[0], slashes != "") && body[0] == comps[0][0];
      assert comps != [] ==> comps[0][0] in comps[0];
      assert body != "" ==> comps != [];
      var r := slashes + body;
      assert slashes != "" ==> r[0] == '/';
      assert slashes == "" && r != "" ==> r[0] != '/';
      assert r != "" ==> r[..1] == [r[0]];
      if r == "" then "." else r
  }

  /** `os.path.abspath(p)` with `cwd` standing for `os.getcwd()`. */
  function AbsPath(cwd: string, p: string): (r: string)
    ensures IsAbs(cwd) || IsAbs(p) ==> IsAbs(r)
  {
    NormPath(if IsAbs(p) then p else Join(cwd, p))
  }

  /** The index of the last `c` in `s`, or -1 (`s.rfind(c)`). */
  function RFind(s: string, c: char): (r: int)
    ensures -1 <= r < |s|
    ensures r >= 0 ==> s[r] == c
    ensures forall k :: r < k < |s| ==> s[k] != c
  {
    if s == [] then -1
    else if s[|s| - 1] == c then |s| - 1
    else RFind(s[..|s| - 1], c)
  }

  /** `os.path.basename(p)`: the text after the last separator. */
  function BaseName(p: string): (r: string)
    ensures '/' !in r && EndsWith(p, r)
    ensures |r| < |p| ==> p[|p| - |r| - 1] == '/'
  {
    p[RFind(p, '/') + 1..]
  }

  /** `os.path.splitext(p)`: the extension starts at the last dot of the last
      component, unless only dots precede it there (a leading-dot name has no
      extension). */
  function SplitExt(p: string): (r: (string, string))
    ensures r.0 + r.1 == p
    ensures r.1 == "" || (r.1[0] == '.' && '/' !in r.1 && '.' !in r.1[1..])
  {
    var sep := RFind(p, '/');
    var dot := RFind(p, '.');
    if dot > sep && !(forall k :: sep + 1 <= k < dot ==> p[k] == '.') then
      assert p[..dot] + p[dot..] == p;
      (p[..dot], p[dot..])
    else (p, "")
  }
}
