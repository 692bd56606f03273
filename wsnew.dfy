/**
 * `wsnew.py`: create an engagement directory under the configured
 * engagements directory and, on request, a symbolic link to it; when the
 * link path is already taken the new directory is removed again.
 */
module WsNew {
  import opened Wrappers
  import opened Paths
  import opened FileSystem

  /** What `load_config` ends with: no file, a read error, or the `[engagements] directory` setting. */
  datatype Config = Missing | Unreadable | Loaded(engagementsDir: Path)

  /** The messages the script prints, as tags. */
  datatype Event =
    | ConfigNotFound
    | ConfigReadError
    | MkdirFailed(error: FsError)
    | LinkExists(link: Path)
    | RmdirFailed(error: FsError)
    | SymlinkFailed(error: FsError)
    | LinkCreated(link: Path)

  /** The process exit status, the file system afterwards and what was printed. */
  datatype Run = Run(status: int, tree: Tree, log: seq<Event>)

  /** `os.path.join(engagements_dir, engagement_name)`. */
  function EngagementPath(dir: Path, name: string): Path {
    JoinName(dir, name)
  }

  /** `args.link` is truthy: given and not empty. */
  predicate LinkRequested(link: Option<string>) {
    link.Some? && link.value != ""
  }

  /**
   * The whole run of the script, `load_config` to `sys.exit`. An exception
   * nobody catches (from `os.rmdir` or `symlink_to`) ends the process with
   * status 1, like `sys.exit(1)`.
   */
  function Spec(t: Tree, cfg: Config, name: string, link: Option<string>): Run {
    match cfg
    case Missing => Run(1, t, [ConfigNotFound])
    case Unreadable => Run(1, t, [ConfigReadError])
    case Loaded(dir) =>
      var path := EngagementPath(dir, name);
      match MkdirOn(t, path)
      case Err(e) => Run(0, t, [MkdirFailed(e)])
      case Ok(t1) =>
        if !LinkRequested(link) then Run(0, t1, [])
        else
          var l := Parse(link.value);
          if Exists(t1, l) then
            match RmdirOn(t1, path)
            case Ok(t2) => Run(1, t2, [LinkExists(l)])
            case Err(e) => Run(1, t1, [LinkExists(l), RmdirFailed(e)])
          else
            match SymlinkOn(t1, l, path)
            case Ok(t2) => Run(0, t2, [LinkCreated(l)])
            case Err(e) => Run(1, t1, [SymlinkFailed(e)])
  }

  /** `main` followed by `sys.exit(0)`, over the mutable file system. */
  method Execute(fs: Fs, cfg: Config, name: string, link: Option<string>) returns (status: int, log: seq<Event>)
    modifies fs
    ensures Run(status, fs.tree, log) == Spec(old(fs.tree), cfg, name, link)
  {
    if cfg.Missing? {
      return 1, [ConfigNotFound];
    } else if cfg.Unreadable? {
      return 1, [ConfigReadError];
    }
    var path := EngagementPath(cfg.engagementsDir, name);
    var err := fs.Mkdir(path);
    if err.Some? {
      return 0, [MkdirFailed(err.value)];
    }
    if LinkRequested(link) {
      var l := Parse(link.value);
      if fs.Exists(l) {
        err := fs.Rmdir(path);
        if err.Some? {
          return 1, [LinkExists(l), RmdirFailed(err.value)];
        }
        return 1, [LinkExists(l)];
      }
      err := fs.Symlink(l, path);
      if err.Some? {
        return 1, [SymlinkFailed(err.value)];
      }
      return 0, [LinkCreated(l)];
    }
    return 0, [];
  }

  /** A missing or unreadable configuration exits with status 1 before any directory is touched. */
  lemma ConfigFailureTouchesNothing(t: Tree, cfg: Config, name: string, link: Option<string>)
    requires !cfg.Loaded?
    ensures Spec(t, cfg, name, link).status == 1 && Spec(t, cfg, name, link).tree == t
  {
  }

  /**
   * When the directory cannot be created the error is printed, no link is
   * attempted, nothing changes and the exit status is still 0.
   */
  lemma MkdirFailureExitsZero(t: Tree, dir: Path, name: string, link: Option<string>)
    requires MkdirOn(t, EngagementPath(dir, name)).Err?
    ensures Spec(t, Loaded(dir), name, link)
      == Run(0, t, [MkdirFailed(MkdirOn(t, EngagementPath(dir, name)).error)])
  {
  }

  /**
   * When the link path already exists, the new directory is removed again
   * and the process exits with 1: the file system ends exactly as it began.
   */
  lemma RollbackRestoresTree(t: Tree, dir: Path, name: string, link: Option<string>)
    requires Valid(t)
    requires MkdirOn(t, EngagementPath(dir, name)).Ok? && LinkRequested(link)
    requires Exists(MkdirOn(t, EngagementPath(dir, name)).value, Parse(link.value))
    ensures Spec(t, Loaded(dir), name, link) == Run(1, t, [LinkExists(Parse(link.value))])
  {
    MkdirRmdir(t, EngagementPath(dir, name));
  }

  /** Without `--link`, a successful `mkdir` creates the engagement directory and the run exits with 0. */
  lemma DirectoryCreated(t: Tree, dir: Path, name: string, link: Option<string>)
    requires MkdirOn(t, EngagementPath(dir, name)).Ok? && !LinkRequested(link)
    ensures var r := Spec(t, Loaded(dir), name, link);
      && r.status == 0 && r.log == []
      && r.tree.entries == t.entries + {EngagementPath(dir, name)} && r.tree.links == t.links
  {
  }

  /**
   * With `--link` naming a free path whose parent exists once the engagement
   * directory is made, both are created, the link points at the directory,
   * and the run exits with 0.
   */
  lemma LinkCreatedWhenFree(t: Tree, dir: Path, name: string, link: Option<string>)
    requires MkdirOn(t, EngagementPath(dir, name)).Ok? && LinkRequested(link)
    requires Parse(link.value) !in t.entries + {EngagementPath(dir, name)}
    requires Parent(Parse(link.value)) in t.entries + {EngagementPath(dir, name)}
    ensures var r := Spec(t, Loaded(dir), name, link);
      var path, l := EngagementPath(dir, name), Parse(link.value);
      && r.status == 0 && r.log == [LinkCreated(l)]
      && r.tree.entries == t.entries + {path, l} && r.tree.links == t.links[l := path]
  {
  }

  /**
   * Nothing but the engagement directory and the link ever appears, nothing
   * disappears, and the link, when made, points at the new directory; a link
   * is made only after a successful `mkdir` and only when one was requested.
   */
  lemma NothingElseChanges(t: Tree, cfg: Config, name: string, link: Option<string>)
    requires Valid(t)
    ensures var r := Spec(t, cfg, name, link);
      && t.entries <= r.tree.entries
      && (cfg.Loaded? ==> r.tree.entries <= t.entries + {EngagementPath(cfg.engagementsDir, name)}
                                            + (if LinkRequested(link) then {Parse(link.value)} else {}))
      && (r.tree.links != t.links ==>
            && cfg.Loaded? && LinkRequested(link)
            && MkdirOn(t, EngagementPath(cfg.engagementsDir, name)).Ok?
            && r.tree.links == t.links[Parse(link.value) := EngagementPath(cfg.engagementsDir, name)])
  {
    if cfg.Loaded? {
      var path := EngagementPath(cfg.engagementsDir, name);
      if MkdirOn(t, path).Ok? && LinkRequested(link) && Exists(MkdirOn(t, path).value, Parse(link.value)) {
        RollbackRestoresTree(t, cfg.engagementsDir, name, link);
      }
    }
  }
}
