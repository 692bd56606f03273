/**
 * The part of the file system the scripts touch: which paths exist and which
 * of them are symbolic links (and to what). Paths are compared as written.
 * The operations follow `os.mkdir` / `Path.mkdir`, `Path.mkdir(parents=True)`,
 * `os.rmdir` and `Path.symlink_to`, with their error cases.
 */
module FileSystem {
  import opened Wrappers
  import opened Paths

  datatype FsError = FileExists | FileNotFound | DirectoryNotEmpty | InvalidArgument

  datatype Tree = Tree(entries: set<Path>, links: map<Path, Path>)

  /** Every existing path's parent exists, "/" and "." exist, and every link is an entry. */
  predicate Valid(t: Tree) {
    && Root in t.entries
    && Here in t.entries
    && (forall p {:trigger Parent(p)} :: p in t.entries ==> Parent(p) in t.entries)
    && t.links.Keys <= t.entries
  }

  predicate Exists(t: Tree, p: Path) {
    p in t.entries
  }

  /** `Path(p).mkdir()` / `os.mkdir(p)`: fails on an existing path and on a missing parent. */
  function MkdirOn(t: Tree, p: Path): (r: Result<Tree, FsError>)
    ensures r == Err(FileExists) <==> p in t.entries
    ensures r == Err(FileNotFound) <==> p !in t.entries && Parent(p) !in t.entries
    ensures r.Ok? <==> p !in t.entries && Parent(p) in t.entries
    ensures r.Ok? ==> r.value.entries == t.entries + {p} && r.value.links == t.links
    ensures Valid(t) && r.Ok? ==> Valid(r.value)
  {
    if p in t.entries then Err(FileExists)
    else if Parent(p) !in t.entries then Err(FileNotFound)
    else Ok(t.(entries := t.entries + {p}))
  }

  /** `p` and every ancestor of `p`, up to "/" or ".". */
  function Lineage(p: Path): (r: set<Path>)
    ensures p in r
    ensures forall q {:trigger Parent(q)} :: q in r ==> Parent(q) in r
    ensures forall q :: q in r ==> q.absolute == p.absolute && q.parts <= p.parts
    decreases |p.parts|
  {
    if p.parts == [] then {p} else {p} + Lineage(Parent(p))
  }

  /**
   * `Path(p).mkdir(parents=True)`: fails only when `p` exists; otherwise `p`
   * and all its missing ancestors are created.
   */
  function MkdirParentsOn(t: Tree, p: Path): (r: Result<Tree, FsError>)
    ensures r.Err? <==> p in t.entries
    ensures r.Err? ==> r.error == FileExists
    ensures r.Ok? ==> r.value.entries == t.entries + Lineage(p) && r.value.links == t.links
    ensures Valid(t) && r.Ok? ==> Valid(r.value)
  {
    if p in t.entries then Err(FileExists)
    else Ok(t.(entries := t.entries + Lineage(p)))
  }

  /** `os.rmdir(p)`: fails on a missing path, a path with entries below it, and "/" or ".". */
  function RmdirOn(t: Tree, p: Path): (r: Result<Tree, FsError>)
    ensures r.Ok? <==> p in t.entries && p.parts != [] && p !in t.links
                        && forall q :: q in t.entries && q != p ==> Parent(q) != p
    ensures r.Ok? ==> r.value == t.(entries := t.entries - {p})
    ensures Valid(t) && r.Ok? ==> Valid(r.value)
  {
    if p !in t.entries then Err(FileNotFound)
    else if p.parts == [] || p in t.links then Err(InvalidArgument)
    else if exists q :: q in t.entries && q != p && Parent(q) == p then Err(DirectoryNotEmpty)
    else Ok(t.(entries := t.entries - {p}))
  }

  /** `Path(link).symlink_to(target)`: fails on an existing path and on a missing parent. */
  function SymlinkOn(t: Tree, link: Path, target: Path): (r: Result<Tree, FsError>)
    ensures r == Err(FileExists) <==> link in t.entries
    ensures r == Err(FileNotFound) <==> link !in t.entries && Parent(link) !in t.entries
    ensures r.Ok? <==> link !in t.entries && Parent(link) in t.entries
    ensures r.Ok? ==> r.value == Tree(t.entries + {link}, t.links[link := target])
    ensures Valid(t) && r.Ok? ==> Valid(r.value)
  {
    if link in t.entries then Err(FileExists)
    else if Parent(link) !in t.entries then Err(FileNotFound)
    else Ok(Tree(t.entries + {link}, t.links[link := target]))
  }

  /** In a valid tree every ancestor of an existing path exists. */
  lemma {:induction false} AncestorsExist(t: Tree, p: Path)
    requires Valid(t) && p in t.entries
    ensures Lineage(p) <= t.entries
    decreases |p.parts|
  {
    if p.parts != [] {
      AncestorsExist(t, Parent(p));
    }
  }

  /** Creating a directory and removing it again gives back the tree it started from. */
  lemma MkdirRmdir(t: Tree, p: Path)
    requires Valid(t) && MkdirOn(t, p).Ok?
    ensures RmdirOn(MkdirOn(t, p).value, p) == Ok(t)
  {
    var t' := MkdirOn(t, p).value;
    forall q | q in t'.entries && q != p
      ensures Parent(q) != p
    {
      assert q in t.entries;
    }
    assert t'.entries - {p} == t.entries;
  }

  /** The file system as the scripts see it: one mutable tree. */
  class Fs {
    var tree: Tree

    constructor (t: Tree)
      requires Valid(t)
      ensures tree == t
    {
      tree := t;
    }

    predicate Exists(p: Path)
      reads this
    {
      p in tree.entries
    }

    method Mkdir(p: Path) returns (err: Option<FsError>)
      modifies this
      ensures var r := MkdirOn(old(tree), p);
        if r.Ok? then err.None? && tree == r.value else err == Some(r.error) && tree == old(tree)
    {
      var r := MkdirOn(tree, p);
      if r.Ok? {
        tree := r.value;
        err := None;
      } else {
        err := Some(r.error);
      }
    }

    method MkdirParents(p: Path) returns (err: Option<FsError>)
      modifies this
      ensures var r := MkdirParentsOn(old(tree), p);
        if r.Ok? then err.None? && tree == r.value else err == Some(r.error) && tree == old(tree)
    {
      var r := MkdirParentsOn(tree, p);
      if r.Ok? {
        tree := r.value;
        err := None;
      } else {
        err := Some(r.error);
      }
    }

    method Rmdir(p: Path) returns (err: Option<FsError>)
      modifies this
      ensures var r := RmdirOn(old(tree), p);
        if r.Ok? then err.None? && tree == r.value else err == Some(r.error) && tree == old(tree)
    {
      var r := RmdirOn(tree, p);
      if r.Ok? {
        tree := r.value;
        err := None;
      } else {
        err := Some(r.error);
      }
    }

    method Symlink(link: Path, target: Path) returns (err: Option<FsError>)
      modifies this
      ensures var r := SymlinkOn(old(tree), link, target);
        if r.Ok? then err.None? && tree == r.value else err == Some(r.error) && tree == old(tree)
    {
      var r := SymlinkOn(tree, link, target);
      if r.Ok? {
        tree := r.value;
        err := None;
      } else {
        err := Some(r.error);
      }
    }
  }
}
