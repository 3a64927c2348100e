/**
 * The parts of Rust's `std::path::Path` the download and export code uses,
 * on `/`-separated paths: a path is its list of normal components (empty and
 * `.` components are dropped as `Path::components` drops them), plus whether
 * it starts at the root.
 */
module Paths {
  import opened Wrappers
  import opened Strings

  datatype Path = Path(absolute: bool, parts: seq<string>)

  /** Every component is a plain name: not empty, not `.`, without `/`. */
  predicate WellFormed(p: Path) {
    forall i :: 0 <= i < |p.parts| ==> p.parts[i] != "" && p.parts[i] != "." && '/' !in p.parts[i]
  }

  /** The components of a path string: the `/`-separated pieces that are
      neither empty nor `.`. */
  function Components(s: string): (r: seq<string>)
    ensures forall i :: 0 <= i < |r| ==> r[i] != "" && r[i] != "." && '/' !in r[i]
  {
    Keep(Split(s, '/'))
  }

  function Keep(pieces: seq<string>): (r: seq<string>)
    requires forall i :: 0 <= i < |pieces| ==> '/' !in pieces[i]
    ensures forall i :: 0 <= i < |r| ==> r[i] != "" && r[i] != "." && '/' !in r[i]
    ensures forall x :: x in r ==> x in pieces
  {
    if pieces == [] then []
    else if pieces[0] == "" || pieces[0] == "." then Keep(pieces[1..])
    else [pieces[0]] + Keep(pieces[1..])
  }

  /** `Path::new(s)` */
  function FromString(s: string): Path {
    Path(StartsWith(s, "/"), Components(s))
  }

  lemma FromStringWellFormed(s: string)
    ensures WellFormed(FromString(s))
  {
  }

  /** `path.display()` */
  function Display(p: Path): string {
    (if p.absolute then "/" else "") + Join(p.parts, "/")
  }

  /** `path.file_name()`: the last component, unless it is `..` or there is none. */
  function FileName(p: Path): (r: Option<string>)
    ensures r.Some? ==> p.parts != [] && r.value == p.parts[|p.parts| - 1] && r.value != ".."
  {
    if p.parts == [] || p.parts[|p.parts| - 1] == ".." then None else Some(p.parts[|p.parts| - 1])
  }

  /** `path.parent()`: the path without its last component; `None` for the
      root and the empty path. */
  function Parent(p: Path): Option<Path> {
    if p.parts == [] then None else Some(Path(p.absolute, p.parts[..|p.parts| - 1]))
  }

  /** `path.join(name)` for a relative `name`. */
  function JoinName(p: Path, name: string): Path {
    Path(p.absolute, p.parts + Components(name))
  }

  /** `path.with_file_name(name)`: the file name replaced, or `name` pushed
      when the path has none. */
  function WithFileName(p: Path, name: string): Path {
    if FileName(p).Some? then JoinName(Path(p.absolute, p.parts[..|p.parts| - 1]), name) else JoinName(p, name)
  }

  /** The path with its file name replaced by `name`, as one component. */
  function Sibling(p: Path, name: string): Path {
    Path(p.absolute, (if FileName(p).Some? then p.parts[..|p.parts| - 1] else p.parts) + [name])
  }

  /** For a plain name, `with_file_name` gives the sibling. */
  lemma SiblingIsWithFileName(p: Path, name: string)
    requires name != "" && name != "." && '/' !in name
    ensures WithFileName(p, name) == Sibling(p, name)
  {
    assert Split(name, '/') == [name];
    assert [name][1..] == [];
    assert Keep([name]) == [name] + Keep([]);
  }

  /** The last `.` of a name and the text on each side; `None` when there is none. */
  function LastDot(name: string): (r: Option<(string, string)>)
    ensures r.Some? ==> name == r.value.0 + "." + r.value.1 && '.' !in r.value.1
    ensures r.None? ==> '.' !in name
    decreases |name|
  {
    if name == [] then None
    else if name[|name| - 1] == '.' then
      assert name == name[..|name| - 1] + "." + "";
      Some((name[..|name| - 1], ""))
    else match LastDot(name[..|name| - 1])
      case None =>
        assert name == name[..|name| - 1] + [name[|name| - 1]];
        None
      case Some((a, b)) =>
        assert name == a + "." + (b + [name[|name| - 1]]);
        Some((a, b + [name[|name| - 1]]))
  }

  /** The (stem, extension) split of a file name: at the last `.`, except that
      `..` and a name whose only `.` leads it have no extension. */
  function SplitAtDot(name: string): (string, Option<string>) {
    if name == ".." then (name, None)
    else match LastDot(name)
      case None => (name, None)
      case Some((before, after)) => if before == "" then (name, None) else (before, Some(after))
  }

  /** `path.file_stem()` */
  function FileStem(p: Path): Option<string> {
    match FileName(p)
    case None => None
    case Some(n) => Some(SplitAtDot(n).0)
  }

  /** `path.extension()` */
  function Extension(p: Path): Option<string> {
    match FileName(p)
    case None => None
    case Some(n) => SplitAtDot(n).1
  }

  /** The stem and the extension put back together give the file name. */
  lemma StemExtension(p: Path)
    requires FileName(p).Some?
    ensures Extension(p).None? ==> FileStem(p) == FileName(p)
    ensures Extension(p).Some? ==> FileName(p).value == FileStem(p).value + "." + Extension(p).value
  {
  }

  /** `with_file_name` keeps the parent and sets the file name, for a plain name. */
  lemma WithFileNameParts(p: Path, name: string)
    requires name != "" && name != "." && name != ".." && '/' !in name
    ensures FileName(WithFileName(p, name)) == Some(name)
    ensures FileName(p).Some? ==> Parent(WithFileName(p, name)) == Parent(p)
  {
    SiblingIsWithFileName(p, name);
  }
}
