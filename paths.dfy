/**
 * A model of POSIX `pathlib` pure paths: a path is anchored at the root or
 * not, followed by its components. Parsing drops empty and "." components, as
 * `pathlib.PurePosixPath` does; ".." is kept as written.
 */
module Paths {
  import opened Wrappers
  import Strings

  datatype Path = Path(absolute: bool, parts: seq<string>)

  /** The root directory "/". */
  const Root := Path(true, [])

  /** The current directory ".", the empty relative path. */
  const Here := Path(false, [])

  predicate IsComponent(s: string) {
    s != "" && s != "." && '/' !in s
  }

  /** The paths that parsing can produce. */
  predicate WellFormed(p: Path) {
    forall i :: 0 <= i < |p.parts| ==> IsComponent(p.parts[i])
  }

  /** The pieces of a split on "/" that name a component. */
  function Components(pieces: seq<string>): (r: seq<string>)
    requires forall i :: 0 <= i < |pieces| ==> '/' !in pieces[i]
    ensures forall i :: 0 <= i < |r| ==> IsComponent(r[i])
    ensures |r| <= |pieces|
  {
    if pieces == [] then []
    else if pieces[0] == "" || pieces[0] == "." then Components(pieces[1..])
    else [pieces[0]] + Components(pieces[1..])
  }

  /** `pathlib.PurePosixPath(s)`. */
  function Parse(s: string): (p: Path)
    ensures WellFormed(p)
    ensures p.absolute <==> |s| > 0 && s[0] == '/'
  {
    Path(|s| > 0 && s[0] == '/', Components(Strings.Split(s, '/')))
  }

  /** `str(p)`: the components joined by "/", after "/" if anchored; "." when empty and relative. */
  function Str(p: Path): string {
    if p.parts == [] then (if p.absolute then "/" else ".")
    else if p.absolute then "/" + Strings.JoinWith(p.parts, '/')
    else Strings.JoinWith(p.parts, '/')
  }

  /** `p / q`: an absolute right operand replaces the left one. */
  function Join(p: Path, q: Path): (r: Path)
    ensures q.absolute ==> r == q
    ensures !q.absolute ==> RelativeTo(r, p) == Some(q)
    ensures WellFormed(p) && WellFormed(q) ==> WellFormed(r)
  {
    if q.absolute then q
    else
      var r := Path(p.absolute, p.parts + q.parts);
      assert r.parts[|p.parts|..] == q.parts;
      r
  }

  /** `p.name`: the last component, or "" for the root and for ".". */
  function Name(p: Path): (r: string)
    ensures r == "" <==> p.parts == [] || p.parts[|p.parts| - 1] == ""
    ensures WellFormed(p) && r != "" ==> IsComponent(r)
  {
    if p.parts == [] then "" else p.parts[|p.parts| - 1]
  }

  /** `p.parent`: the root and "." are their own parents. */
  function Parent(p: Path): (r: Path)
    ensures |r.parts| == if p.parts == [] then 0 else |p.parts| - 1
    ensures r.absolute == p.absolute
    ensures p.parts == [] ==> r == p
    ensures p.parts != [] ==> r.parts == p.parts[..|p.parts| - 1]
  {
    if p.parts == [] then p else Path(p.absolute, p.parts[..|p.parts| - 1])
  }

  /** `p.relative_to(base)`: the rest of `p` after `base`, or `None` where Python raises `ValueError`. */
  function RelativeTo(p: Path, base: Path): (r: Option<Path>)
    ensures r.Some? <==> p.absolute == base.absolute && base.parts <= p.parts
    ensures r.Some? ==> !r.value.absolute && p.parts == base.parts + r.value.parts
  {
    if p.absolute == base.absolute && base.parts <= p.parts
    then Some(Path(false, p.parts[|base.parts|..]))
    else None
  }

  /**
   * A directory joined with a name from the command line or the
   * configuration (`os.path.join(d, name)`, `d / Path(name)`): an absolute
   * name replaces the directory, and a relative one lies under it with
   * exactly the name's components.
   */
  function JoinName(dir: Path, name: string): (r: Path)
    ensures Parse(name).absolute ==> r == Parse(name)
    ensures !Parse(name).absolute ==> RelativeTo(r, dir) == Some(Parse(name))
  {
    Join(dir, Parse(name))
  }

  /** Taking the parent undoes joining one component. */
  lemma ParentOfChild(p: Path, c: string)
    requires IsComponent(c)
    ensures Parent(Join(p, Path(false, [c]))) == p
  {
    assert (p.parts + [c])[..|p.parts|] == p.parts;
  }

  /** Joining back what `relative_to` returned gives the original path. */
  lemma JoinRelativeTo(p: Path, base: Path)
    requires RelativeTo(p, base).Some?
    ensures Join(base, RelativeTo(p, base).value) == p
  {
  }

  /** Parsing the printed form of a well-formed path gives the path back. */
  lemma ParseStr(p: Path)
    requires WellFormed(p)
    ensures Parse(Str(p)) == p
  {
    if p.parts == [] {
      if p.absolute {
        assert Strings.Split("/", '/') == [""] + Strings.Split("", '/');
      } else {
        assert Strings.Split(".", '/') == [['.'] + ""];
      }
    } else {
      var j := Strings.JoinWith(p.parts, '/');
      Strings.SplitJoin(p.parts, '/');
      ComponentsOfComponents(p.parts);
      if p.absolute {
        assert ("/" + j)[0] == '/' && ("/" + j)[1..] == j;
        assert Components(Strings.Split("/" + j, '/')) == Components([""] + p.parts);
      } else {
        assert j == Strings.JoinWith(p.parts, '/');
        assert p.parts[0][0] != '/';
        JoinHead(p.parts);
      }
    }
  }

  /** A non-empty list of components keeps every element. */
  lemma {:induction false} ComponentsOfComponents(parts: seq<string>)
    requires forall i :: 0 <= i < |parts| ==> IsComponent(parts[i])
    requires forall i :: 0 <= i < |parts| ==> '/' !in parts[i]
    ensures Components(parts) == parts
    ensures forall rest :: rest == [""] + parts ==> Components(rest) == parts
  {
    if parts != [] {
      ComponentsOfComponents(parts[1..]);
      assert parts == [parts[0]] + parts[1..];
    }
    assert ([""] + parts)[1..] == parts;
  }

  /** The printed join starts with the first component's first character. */
  lemma JoinHead(parts: seq<string>)
    requires |parts| >= 1 && parts[0] != ""
    ensures |Strings.JoinWith(parts, '/')| > 0 && Strings.JoinWith(parts, '/')[0] == parts[0][0]
  {
  }

  /** The position of the last `c` in `s`, or -1 (Python's `str.rfind`). */
  function LastIndex(s: string, c: char): (r: int)
    ensures -1 <= r < |s|
    ensures r >= 0 ==> s[r] == c
    ensures forall k :: r < k < |s| ==> s[k] != c
  {
    if s == [] then -1
    else if s[|s| - 1] == c then |s| - 1
    else LastIndex(s[..|s| - 1], c)
  }

  /**
   * `PurePath.suffix` of a name: from the last dot on, unless that dot is the
   * first or the last character, in which case there is no suffix.
   */
  function Suffix(name: string): (x: string)
    ensures x == "" || (2 <= |x| < |name| && x[0] == '.' && '.' !in x[1..])
    ensures x == name[|name| - |x|..]
    ensures x != "" <==> 0 < LastIndex(name, '.') < |name| - 1
  {
    var i := LastIndex(name, '.');
    if 0 < i < |name| - 1 then name[i..] else ""
  }

  /** `PurePath.stem` of a name: the name without its suffix; empty only for the empty name. */
  function Stem(name: string): (t: string)
    ensures t + Suffix(name) == name
    ensures t == "" <==> name == ""
  {
    name[..|name| - |Suffix(name)|]
  }

  /**
   * `p.with_suffix(suffix)` for a valid suffix: the last component's suffix
   * replaced (or the suffix appended when there is none); `None` where Python
   * raises `ValueError` because the path has an empty name.
   */
  function WithSuffix(p: Path, suffix: string): (r: Option<Path>)
    requires suffix == "" || (|suffix| >= 2 && suffix[0] == '.' && '/' !in suffix)
    ensures r.None? <==> Name(p) == ""
    ensures r.Some? ==> Parent(r.value) == Parent(p) && Name(r.value) == Stem(Name(p)) + suffix
  {
    if Name(p) == "" then None
    else Some(Path(p.absolute, p.parts[..|p.parts| - 1] + [Stem(Name(p)) + suffix]))
  }
}
