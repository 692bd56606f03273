/**
 * `scripts/audit-new.py`: create an audit project directory under the
 * configured projects directory, first the sub-directories of a named
 * template, then the project directory itself, then optionally a link to it.
 */
module AuditNew {
  import opened Wrappers
  import opened Paths
  import opened FileSystem
  import Strings

  /**
   * A `[templates]` value as `load_config` turns it into a list: the
   * comma-separated pieces, each with its surrounding whitespace stripped.
   */
  function ParseTemplate(value: string): (names: seq<string>)
    ensures |names| == |Strings.Split(value, ',')| == multiset(value)[','] + 1
    ensures forall i :: 0 <= i < |names| ==> ',' !in names[i]
    ensures forall i :: 0 <= i < |names| ==>
      var piece := Strings.Split(value, ',')[i]; names[i] == Strings.Strip(piece)
  {
    var pieces := Strings.Split(value, ',');
    Strings.SplitCount(value, ',');
    seq(|pieces|, i requires 0 <= i < |pieces| => Strings.Strip(pieces[i]))
  }

  /** One template per key of the `[templates]` section, under the same key. */
  function LoadTemplates(section: map<string, string>): (templates: map<string, seq<string>>)
    ensures templates.Keys == section.Keys
  {
    map k | k in section :: ParseTemplate(section[k])
  }

  /**
   * Each configured template holds at least one name, so every template the
   * argument parser accepts is non-empty.
   */
  lemma LoadedTemplateNonEmpty(section: map<string, string>, key: string)
    requires key in section
    ensures key in LoadTemplates(section)
    ensures LoadTemplates(section)[key] == ParseTemplate(section[key])
    ensures |LoadTemplates(section)[key]| >= 1
  {
  }

  /** A name that `strip()` leaves alone and that holds no comma. */
  predicate CleanName(n: string) {
    ',' !in n && Strings.Strip(n) == n
  }

  /** Writing clean names joined by commas and parsing the value gives the names back. */
  lemma ParseTemplateJoin(names: seq<string>)
    requires |names| >= 1
    requires forall i :: 0 <= i < |names| ==> CleanName(names[i])
    ensures ParseTemplate(Strings.JoinWith(names, ',')) == names
  {
    Strings.SplitJoin(names, ',');
  }

  /** An empty value gives a template of one empty name. */
  lemma ParseEmptyTemplate()
    ensures ParseTemplate("") == [""]
  {
    assert Strings.Split("", ',') == [""];
    assert Strings.Strip("") == "";
  }

  /** Every parsed name is stripped and comma-free, so parsing is stable on its own output. */
  lemma ParsedNamesAreClean(value: string)
    ensures forall i :: 0 <= i < |ParseTemplate(value)| ==> CleanName(ParseTemplate(value)[i])
  {
    var names := ParseTemplate(value);
    forall i | 0 <= i < |names|
      ensures CleanName(names[i])
    {
      Strings.StripIdempotent(Strings.Split(value, ',')[i]);
    }
  }

  /** What `load_config` ends with: no file, a read error, or the settings it read. */
  datatype Config = Missing | Unreadable | Loaded(projectsDir: Path, section: map<string, string>)

  /** The messages the script prints, as tags. */
  datatype Event =
    | ConfigNotFound
    | ConfigReadError
    | UsageError
    | TemplateMkdirFailed(path: Path, error: FsError)
    | TemplateCreated(names: seq<string>)
    | ProjectMkdirFailed(error: FsError)
    | ProjectCreated(path: Path)
    | LinkExists(link: Path)
    | SymlinkFailed(error: FsError)
    | LinkCreated(link: Path)

  /**
   * The process exit status, the value `main` returned (if it got to return
   * one), the file system afterwards and what was printed.
   */
  datatype Run = Run(status: int, returned: Option<int>, tree: Tree, log: seq<Event>)

  /** `os.path.join(projects_dir, name)`. */
  function ProjectPath(dir: Path, name: string): Path {
    JoinName(dir, name)
  }

  /** `Path(project_path) / Path(directory)` for one template entry: an absolute entry escapes the project. */
  function TemplatePath(project: Path, directory: string): Path {
    JoinName(project, directory)
  }

  /** `args.template` / `args.link` is truthy: given and not empty. */
  predicate Given(arg: Option<string>) {
    arg.Some? && arg.value != ""
  }

  /**
   * The template loop: a plain `mkdir` of each entry in order, stopping at
   * the first one that raises. Returns the tree and the error, if any.
   */
  function MkdirEach(t: Tree, project: Path, dirs: seq<string>): (r: (Tree, Option<(Path, FsError)>))
    ensures t.entries <= r.0.entries && r.0.links == t.links
    ensures r.0.entries <= t.entries + set i | 0 <= i < |dirs| :: TemplatePath(project, dirs[i])
    ensures Valid(t) ==> Valid(r.0)
    decreases |dirs|
  {
    if dirs == [] then (t, None)
    else
      var p := TemplatePath(project, dirs[0]);
      match MkdirOn(t, p)
      case Err(e) => (t, Some((p, e)))
      case Ok(t1) => MkdirEach(t1, project, dirs[1..])
  }

  /** Without an error every template directory exists afterwards. */
  lemma {:induction false} MkdirEachCreates(t: Tree, project: Path, dirs: seq<string>)
    ensures var r := MkdirEach(t, project, dirs);
      r.1.None? ==> forall i :: 0 <= i < |dirs| ==> TemplatePath(project, dirs[i]) in r.0.entries
    decreases |dirs|
  {
    if dirs != [] {
      var p := TemplatePath(project, dirs[0]);
      var r := MkdirEach(t, project, dirs);
      if MkdirOn(t, p).Ok? && r.1.None? {
        var t1 := MkdirOn(t, p).value;
        var rest := dirs[1..];
        assert r == MkdirEach(t1, project, rest);
        MkdirEachCreates(t1, project, rest);
        assert p in r.0.entries;
        forall i | 0 <= i < |dirs|
          ensures TemplatePath(project, dirs[i]) in r.0.entries
        {
          if i > 0 {
            assert dirs[i] == rest[i - 1];
          }
        }
      }
    }
  }

  /** The paths of the first `k` template entries. */
  ghost function Made(project: Path, dirs: seq<string>, k: nat): set<Path>
    requires k <= |dirs|
  {
    set i | 0 <= i < k :: TemplatePath(project, dirs[i])
  }

  /**
   * With an error, it is the `mkdir` of some entry that failed, in the tree
   * the loop had reached; exactly the entries before it were created, and
   * none after it.
   */
  lemma {:induction false} MkdirEachStops(t: Tree, project: Path, dirs: seq<string>)
    ensures var r := MkdirEach(t, project, dirs);
      r.1.Some? ==>
        exists k :: 0 <= k < |dirs| && r.1.value.0 == TemplatePath(project, dirs[k])
                    && MkdirOn(r.0, r.1.value.0) == Err(r.1.value.1)
                    && r.0.entries == t.entries + Made(project, dirs, k)
    decreases |dirs|
  {
    if dirs != [] {
      var p := TemplatePath(project, dirs[0]);
      var r := MkdirEach(t, project, dirs);
      if MkdirOn(t, p).Err? {
        assert r == (t, Some((p, MkdirOn(t, p).error)));
        assert Made(project, dirs, 0) == {};
        assert r.1.value.0 == TemplatePath(project, dirs[0]) && r.0.entries == t.entries + Made(project, dirs, 0);
      } else if r.1.Some? {
        var t1 := MkdirOn(t, p).value;
        var rest := dirs[1..];
        assert r == MkdirEach(t1, project, rest);
        MkdirEachStops(t1, project, rest);
        var k :| 0 <= k < |rest| && r.1.value.0 == TemplatePath(project, rest[k])
                 && MkdirOn(r.0, r.1.value.0) == Err(r.1.value.1)
                 && r.0.entries == t1.entries + Made(project, rest, k);
        assert dirs[k + 1] == rest[k];
        calc {
          r.0.entries;
          t1.entries + Made(project, rest, k);
          t.entries + {p} + Made(project, rest, k);
          { MadeShift(project, dirs, k); }
          t.entries + Made(project, dirs, k + 1);
        }
        assert r.1.value.0 == TemplatePath(project, dirs[k + 1]);
      }
    }
  }

  /** The entries made before index `k + 1` are the first one and those made before `k` in the rest. */
  lemma MadeShift(project: Path, dirs: seq<string>, k: nat)
    requires k < |dirs| - 1
    ensures Made(project, dirs, k + 1) == {TemplatePath(project, dirs[0])} + Made(project, dirs[1..], k)
  {
    var rest := dirs[1..];
    var lhs, rhs := Made(project, dirs, k + 1), {TemplatePath(project, dirs[0])} + Made(project, rest, k);
    forall x | x in lhs ensures x in rhs {
      var i :| 0 <= i < k + 1 && x == TemplatePath(project, dirs[i]);
      if i > 0 {
        assert dirs[i] == rest[i - 1];
      }
    }
    forall x | x in rhs ensures x in lhs {
      if x != TemplatePath(project, dirs[0]) {
        var i :| 0 <= i < k && x == TemplatePath(project, rest[i]);
        assert rest[i] == dirs[i + 1];
      }
    }
  }

  /**
   * The whole run of the script, `load_config` to `sys.exit(0)`. An exception
   * nobody catches (from a template `mkdir` or from `symlink_to`) ends the
   * process with status 1; `main`'s own `return 1` is discarded.
   */
  function Spec(t: Tree, cfg: Config, name: string, template: Option<string>, link: Option<string>): Run {
    match cfg
    case Missing => Run(1, None, t, [ConfigNotFound])
    case Unreadable => Run(1, None, t, [ConfigReadError])
    case Loaded(dir, section) => Start(t, dir, LoadTemplates(section), name, template, link)
  }

  /** The run once the configuration is loaded, from argument parsing on. */
  function Start(t: Tree, dir: Path, templates: map<string, seq<string>>, name: string,
                 template: Option<string>, link: Option<string>): Run
  {
    if template.Some? && template.value !in templates then Run(2, None, t, [UsageError])
    else
      var project := ProjectPath(dir, name);
      if !Given(template) then CreateProject(t, project, link, [])
      else
        var dirs := templates[template.value];
        var step := MkdirEach(t, project, dirs);
        if step.1.Some? then Run(1, None, step.0, [TemplateMkdirFailed(step.1.value.0, step.1.value.1)])
        else CreateProject(step.0, project, link, [TemplateCreated(dirs)])
  }

  /**
   * From `mkdir(parents=True)` of the project on, after `log` was printed: a
   * failure is printed and `main` returns 1, which the process ignores.
   */
  function CreateProject(t: Tree, project: Path, link: Option<string>, log: seq<Event>): Run {
    match MkdirParentsOn(t, project)
    case Err(e) => Run(0, Some(1), t, log + [ProjectMkdirFailed(e)])
    case Ok(t2) => LinkProject(t2, project, link, log + [ProjectCreated(project)])
  }

  /** The `--link` step: a link is made only where nothing exists yet. */
  function LinkProject(t: Tree, project: Path, link: Option<string>, log: seq<Event>): Run {
    if !Given(link) then Run(0, None, t, log)
    else
      var l := Parse(link.value);
      if Exists(t, l) then Run(0, None, t, log + [LinkExists(l)])
      else
        match SymlinkOn(t, l, project)
        case Ok(t3) => Run(0, None, t3, log + [LinkCreated(l)])
        case Err(e) => Run(1, None, t, log + [SymlinkFailed(e)])
  }

  /** The template loop over the mutable file system. */
  method MakeTemplateDirs(fs: Fs, project: Path, dirs: seq<string>) returns (failure: Option<(Path, FsError)>)
    modifies fs
    ensures (fs.tree, failure) == MkdirEach(old(fs.tree), project, dirs)
  {
    var i := 0;
    while i < |dirs|
      invariant 0 <= i <= |dirs|
      invariant MkdirEach(old(fs.tree), project, dirs) == MkdirEach(fs.tree, project, dirs[i..])
    {
      var p := TemplatePath(project, dirs[i]);
      var err := fs.Mkdir(p);
      if err.Some? {
        return Some((p, err.value));
      }
      i := i + 1;
    }
    return None;
  }

  /** The project directory and the link over the mutable file system. */
  method MakeProject(fs: Fs, project: Path, link: Option<string>, log: seq<Event>)
    returns (status: int, returned: Option<int>, out: seq<Event>)
    modifies fs
    ensures Run(status, returned, fs.tree, out) == CreateProject(old(fs.tree), project, link, log)
  {
    var err := fs.MkdirParents(project);
    if err.Some? {
      return 0, Some(1), log + [ProjectMkdirFailed(err.value)];
    }
    out := log + [ProjectCreated(project)];
    if Given(link) {
      var l := Parse(link.value);
      if fs.Exists(l) {
        return 0, None, out + [LinkExists(l)];
      }
      err := fs.Symlink(l, project);
      if err.Some? {
        return 1, None, out + [SymlinkFailed(err.value)];
      }
      out := out + [LinkCreated(l)];
    }
    return 0, None, out;
  }

  /** `main` followed by `sys.exit(0)`, over the mutable file system. */
  method Execute(fs: Fs, cfg: Config, name: string, template: Option<string>, link: Option<string>)
    returns (status: int, returned: Option<int>, log: seq<Event>)
    modifies fs
    ensures Run(status, returned, fs.tree, log) == Spec(old(fs.tree), cfg, name, template, link)
  {
    if cfg.Missing? {
      return 1, None, [ConfigNotFound];
    } else if cfg.Unreadable? {
      return 1, None, [ConfigReadError];
    }
    var templates := LoadTemplates(cfg.section);
    // argparse accepts only one of the template keys
    if template.Some? && template.value !in templates {
      return 2, None, [UsageError];
    }
    var project := ProjectPath(cfg.projectsDir, name);
    log := [];
    if Given(template) {
      if template.value in templates {
        var dirs := templates[template.value];
        var failure := MakeTemplateDirs(fs, project, dirs);
        if failure.Some? {
          return 1, None, [TemplateMkdirFailed(failure.value.0, failure.value.1)];
        }
        log := [TemplateCreated(dirs)];
      } else {
        // the unknown-template branch: the argument parser has already refused the name
        assert false;
      }
    }
    status, returned, log := MakeProject(fs, project, link, log);
  }

  /** Every path whose components start those of `p`, on the same side of the root, is in `Lineage(p)`. */
  lemma {:induction false} InLineage(p: Path, q: Path)
    requires q.absolute == p.absolute && q.parts <= p.parts
    ensures q in Lineage(p)
    decreases |p.parts|
  {
    if q != p {
      assert q.parts != p.parts;
      assert q.parts <= Parent(p).parts;
      InLineage(Parent(p), q);
    }
  }

  /**
   * Once the `mkdir` of a relative template entry succeeds, the project
   * directory exists: the entry is the project itself or lies below it, and
   * a directory can only be made inside an existing one.
   */
  lemma ProjectExistsAfterEntry(t: Tree, project: Path, directory: string)
    requires Valid(t) && !Parse(directory).absolute
    requires MkdirOn(t, TemplatePath(project, directory)).Ok?
    ensures project in MkdirOn(t, TemplatePath(project, directory)).value.entries
  {
    var p := TemplatePath(project, directory);
    var t1 := MkdirOn(t, p).value;
    AncestorsExist(t1, p);
    InLineage(p, project);
  }

  /**
   * With a template whose first entry is a relative path (an empty value
   * included), the link step is never reached: either a template `mkdir`
   * raises (the project does not exist yet, so the entry's parent is
   * missing) or the project exists by the time `mkdir(parents=True)` runs, which
   * then fails and makes `main` return 1. No link is ever made.
   */
  lemma TemplateBlocksLink(t: Tree, dir: Path, templates: map<string, seq<string>>, name: string,
                           template: Option<string>, link: Option<string>)
    requires Valid(t)
    requires Given(template) && template.value in templates && templates[template.value] != []
    requires !Parse(templates[template.value][0]).absolute
    ensures var r := Start(t, dir, templates, name, template, link);
      && r.tree.links == t.links
      && (r.status == 1 || r.returned == Some(1))
      && forall i :: 0 <= i < |r.log| ==> !r.log[i].LinkCreated? && !r.log[i].LinkExists?
  {
    var dirs := templates[template.value];
    var project := ProjectPath(dir, name);
    var step := MkdirEach(t, project, dirs);
    var r := Start(t, dir, templates, name, template, link);
    assert r == if step.1.Some? then Run(1, None, step.0, [TemplateMkdirFailed(step.1.value.0, step.1.value.1)])
                else CreateProject(step.0, project, link, [TemplateCreated(dirs)]);
    if step.1.None? {
      TemplateMakesProject(t, project, dirs);
      CreateProjectReturn(step.0, project, link, [TemplateCreated(dirs)]);
      assert r == Run(0, Some(1), step.0, [TemplateCreated(dirs), ProjectMkdirFailed(FileExists)]);
    } else {
      assert r == Run(1, None, step.0, [TemplateMkdirFailed(step.1.value.0, step.1.value.1)]);
    }
  }

  /** A template loop that made a relative first entry has made the project directory too. */
  lemma TemplateMakesProject(t: Tree, project: Path, dirs: seq<string>)
    requires Valid(t) && dirs != [] && !Parse(dirs[0]).absolute
    requires MkdirEach(t, project, dirs).1.None?
    ensures project in MkdirEach(t, project, dirs).0.entries
  {
    var t1 := MkdirEach(t, project, dirs).0;
    var p0 := TemplatePath(project, dirs[0]);
    MkdirEachCreates(t, project, dirs);
    assert p0 in t1.entries;
    AncestorsExist(t1, p0);
    InLineage(p0, project);
  }

  /** `main`'s `return 1` never reaches the process: the exit status is then 0. */
  lemma ReturnValueDiscarded(t: Tree, dir: Path, templates: map<string, seq<string>>, name: string,
                             template: Option<string>, link: Option<string>)
    ensures var r := Start(t, dir, templates, name, template, link);
      r.returned.Some? ==> r.returned == Some(1) && r.status == 0 && r.log != [] && r.log[|r.log| - 1].ProjectMkdirFailed?
  {
    var project := ProjectPath(dir, name);
    if !(template.Some? && template.value !in templates) {
      if !Given(template) {
        CreateProjectReturn(t, project, link, []);
      } else {
        var dirs := templates[template.value];
        var step := MkdirEach(t, project, dirs);
        if step.1.None? {
          CreateProjectReturn(step.0, project, link, [TemplateCreated(dirs)]);
        }
      }
    }
  }

  lemma CreateProjectReturn(t: Tree, project: Path, link: Option<string>, log: seq<Event>)
    ensures var r := CreateProject(t, project, link, log);
      && (r.returned.Some? <==> project in t.entries)
      && (r.returned.Some? ==> r == Run(0, Some(1), t, log + [ProjectMkdirFailed(FileExists)]))
  {
  }

  /**
   * Without a template the project directory and any missing ancestors are
   * created exactly when the project does not exist yet.
   */
  lemma ProjectCreatedIffAbsent(t: Tree, dir: Path, templates: map<string, seq<string>>, name: string,
                                template: Option<string>, link: Option<string>)
    requires !Given(template) && (template.Some? ==> template.value in templates)
    ensures var r := Start(t, dir, templates, name, template, link);
      var project := ProjectPath(dir, name);
      && (r.returned == Some(1) <==> project in t.entries)
      && (project !in t.entries ==> t.entries + Lineage(project) <= r.tree.entries)
  {
  }

  /**
   * A link is made only when one was asked for and its path did not exist;
   * it points at the project directory. When the path exists, only a
   * warning is printed and the new project directory is kept.
   */
  lemma LinkOnlyWhereAbsent(t: Tree, project: Path, link: Option<string>, log: seq<Event>)
    requires Valid(t) && MkdirParentsOn(t, project).Ok?
    ensures var r := CreateProject(t, project, link, log);
      && project in r.tree.entries
      && (r.tree.links != t.links <==>
            Given(link) && !Exists(MkdirParentsOn(t, project).value, Parse(link.value))
            && SymlinkOn(MkdirParentsOn(t, project).value, Parse(link.value), project).Ok?)
      && (r.tree.links != t.links ==> r.tree.links == t.links[Parse(link.value) := project])
      && (Given(link) && Exists(MkdirParentsOn(t, project).value, Parse(link.value)) ==>
            r.status == 0 && r.tree == MkdirParentsOn(t, project).value)
  {
    if Given(link) {
      var t2 := MkdirParentsOn(t, project).value;
      var l := Parse(link.value);
      if !Exists(t2, l) && SymlinkOn(t2, l, project).Ok? {
        assert l !in t.links;
        assert t.links[l := project][l] == project;
      }
    }
  }
}
