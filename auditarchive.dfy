/**
 * `scripts/audit-archive.py`: open the KeePass database when encrypting,
 * make sure the "Audits" group exists, then, for each project path given on
 * the command line, take ownership with `sudo chown`, write a 7z archive of
 * its files next to the other projects and, when encrypting, record the
 * archive's random password in the database.
 *
 * Everything the script asks of the outside world is an input: whether a path
 * is a directory or a file, the `chown` exit status, the files a walk finds,
 * the random bytes, and whether opening, adding to and saving the database
 * succeed. The functions below are the specification; `Execute` at the end is the
 * loop itself, proved to reach the state they describe.
 */
module AuditArchive {
  import opened Wrappers
  import opened Paths
  import Strings
  import Secrets
  import Vault

  /** The requested password length (`password_length`). */
  const PasswordLength: nat := 25
  const GroupName := "Audits"
  /** The user name every entry the script adds is given. */
  const EntryUsername := "encrypted archive"
  const ArchiveSuffix := ".7z"

  // ---------------------------------------------------------------- configuration

  datatype Config = Config(projectsDir: Path, keepassDb: Option<Path>, keepassKey: Option<Path>)

  /** `keepass_kdbx` / `keepass_key` setting: an empty value means "not configured". */
  function OptionalPath(setting: string): (r: Option<Path>)
    ensures r.None? <==> setting == ""
    ensures r.Some? ==> WellFormed(r.value) && (r.value.absolute <==> setting[0] == '/')
  {
    if setting == "" then None else Some(Parse(setting))
  }

  // ---------------------------------------------------------------- open_kdbx

  datatype KdbxStep = PromptPassword | CheckDatabase | CheckKeyfile | OpenDatabase

  /** Why `open_kdbx` ends the process with status 1. */
  datatype KdbxFailure =
    | DatabaseUnset     // `None.is_file()` raises
    | DatabaseNotFound
    | KeyfileNotFound
    | OpenFailed

  /** What the file system and `PyKeePass(...)` answer. */
  datatype KdbxProbe = KdbxProbe(dbIsFile: bool, keyIsFile: bool, opens: bool, contents: Vault.Db)

  /** The steps `open_kdbx` takes, in order, and the database it returns or why it stops. */
  function OpenKdbx(db: Option<Path>, key: Option<Path>, probe: KdbxProbe): (r: (seq<KdbxStep>, Result<Vault.Db, KdbxFailure>))
    ensures |r.0| >= 1 && r.0[0] == PromptPassword
    ensures r.1.Ok? <==> db.Some? && probe.dbIsFile && (key.None? || probe.keyIsFile) && probe.opens
    ensures r.1.Ok? ==> r.1.value == probe.contents
    ensures (OpenDatabase in r.0) <==> db.Some? && probe.dbIsFile && (key.None? || probe.keyIsFile)
    ensures (CheckKeyfile in r.0) <==> db.Some? && probe.dbIsFile && key.Some?
    ensures CheckKeyfile in r.0 ==> r.0[1] == CheckDatabase && r.0[2] == CheckKeyfile
  {
    if db.None? then ([PromptPassword], Err(DatabaseUnset))
    else if !probe.dbIsFile then ([PromptPassword, CheckDatabase], Err(DatabaseNotFound))
    else
      var checked := if key.Some? then [PromptPassword, CheckDatabase, CheckKeyfile] else [PromptPassword, CheckDatabase];
      if key.Some? && !probe.keyIsFile then (checked, Err(KeyfileNotFound))
      else if !probe.opens then (checked + [OpenDatabase], Err(OpenFailed))
      else (checked + [OpenDatabase], Ok(probe.contents))
  }

  // ---------------------------------------------------------------- pure helpers

  /** The shell command that takes ownership of a project: `sudo chown user:user path`. */
  function ChownCommand(user: string, target: Path): string {
    "sudo chown " + user + ":" + user + " " + Str(target)
  }

  /** With no space in the user name or the path, the command is exactly four words: no `-R`. */
  lemma ChownWords(user: string, target: Path)
    requires ' ' !in user && ' ' !in Str(target)
    ensures Strings.Split(ChownCommand(user, target), ' ') == ["sudo", "chown", user + ":" + user, Str(target)]
  {
    var owner := user + ":" + user;
    assert ' ' !in owner by {
      assert forall k :: 0 <= k < |owner| ==> owner[k] == (if k < |user| then user[k] else if k == |user| then ':' else user[k - |user| - 1]);
    }
    assert ChownCommand(user, target) == "sudo" + [' '] + ("chown" + [' '] + (owner + [' '] + Str(target)));
    Strings.SplitPrefixed("sudo", "chown" + [' '] + (owner + [' '] + Str(target)), ' ');
    Strings.SplitPrefixed("chown", owner + [' '] + Str(target), ' ');
    Strings.SplitPrefixed(owner, Str(target), ' ');
    Strings.SplitFree(Str(target), ' ');
  }

  /** The path is not quoted: a project name with a space in it hands `chown` one extra argument per space. */
  lemma ChownSpaceSplitsPath(user: string, head: string, tail: string)
    requires ' ' !in user && ' ' !in head && ' ' !in tail
    ensures Strings.Split(ChownCommand(user, Path(false, [head + " " + tail])), ' ')
         == ["sudo", "chown", user + ":" + user, head, tail]
  {
    var owner := user + ":" + user;
    assert ' ' !in owner by {
      assert forall k :: 0 <= k < |owner| ==> owner[k] == (if k < |user| then user[k] else if k == |user| then ':' else user[k - |user| - 1]);
    }
    var name := head + " " + tail;
    assert Str(Path(false, [name])) == name;
    assert ChownCommand(user, Path(false, [name]))
        == "sudo" + [' '] + ("chown" + [' '] + (owner + [' '] + (head + [' '] + tail)));
    Strings.SplitPrefixed("sudo", "chown" + [' '] + (owner + [' '] + (head + [' '] + tail)), ' ');
    Strings.SplitPrefixed("chown", owner + [' '] + (head + [' '] + tail), ' ');
    Strings.SplitPrefixed(owner, head + [' '] + tail, ' ');
    Strings.SplitPrefixed(head, tail, ' ');
    Strings.SplitFree(tail, ' ');
  }

  /** Appending ".7z" to a non-empty stem gives a name whose suffix is ".7z" and whose stem is that stem. */
  lemma ArchiveSuffixOf(stem: string)
    requires stem != ""
    ensures Suffix(stem + ArchiveSuffix) == ArchiveSuffix && Stem(stem + ArchiveSuffix) == stem
  {
    var name := stem + ArchiveSuffix;
    assert name[|stem|] == '.' && name[|stem| + 1] == '7' && name[|stem| + 2] == 'z';
    LastIndexAt(name, '.', |stem|);
  }

  /** A `c` at `k` with none after it is the last one. */
  lemma LastIndexAt(s: string, c: char, k: nat)
    requires k < |s| && s[k] == c
    requires forall j :: k < j < |s| ==> s[j] != c
    ensures LastIndex(s, c) == k
  {
  }

  /**
   * `Path(project_path).with_suffix('.7z').name`: the base name with its last
   * suffix replaced by ".7z" (appended when there is none); `None` where
   * `with_suffix` raises because the base name is empty.
   */
  function ArchiveName(target: Path): (r: Option<string>)
    ensures r.None? <==> Name(target) == ""
    ensures r.Some? ==> Suffix(r.value) == ArchiveSuffix && Stem(r.value) == Stem(Name(target))
    ensures r.Some? && WellFormed(target) ==> IsComponent(r.value)
  {
    match WithSuffix(target, ArchiveSuffix)
    case None => None
    case Some(p) =>
      ArchiveSuffixOf(Stem(Name(target)));
      Some(Name(p))
  }

  /** Naming an archive again changes nothing. */
  lemma ArchiveNameIdempotent(target: Path)
    requires WellFormed(target) && ArchiveName(target).Some?
    ensures ArchiveName(Path(false, [ArchiveName(target).value])) == ArchiveName(target)
  {
    var name := ArchiveName(target).value;
    ArchiveSuffixOf(Stem(name));
  }

  /** A name whose last dot sits at `k`, neither first nor last, has the stem before it. */
  lemma StemAt(name: string, k: nat)
    requires 0 < k < |name| - 1 && name[k] == '.'
    requires forall j :: k < j < |name| ==> name[j] != '.'
    ensures Stem(name) == name[..k]
  {
    LastIndexAt(name, '.', k);
  }

  /** Two projects whose base names share a stem get the same archive name. */
  lemma SameStemSameArchive(p: Path, q: Path)
    requires Name(p) != "" && Name(q) != "" && Stem(Name(p)) == Stem(Name(q))
    ensures ArchiveName(p) == ArchiveName(q)
  {
  }

  /** So "acme.2023" and "acme.2024" both become "acme.7z". */
  lemma ArchiveNamesCollide()
    ensures ArchiveName(Path(true, ["audits", "acme.2023"])) == ArchiveName(Path(true, ["audits", "acme.2024"]))
    ensures ArchiveName(Path(true, ["audits", "acme.2023"])) == Some("acme.7z")
  {
    var p := Path(true, ["audits", "acme.2023"]);
    var q := Path(true, ["audits", "acme.2024"]);
    StemAt("acme.2023", 4);
    StemAt("acme.2024", 4);
    assert Name(p) == "acme.2023" && Name(q) == "acme.2024";
    assert "acme.2023"[..4] == "acme";
    SameStemSameArchive(p, q);
    var r := ArchiveName(p).value;
    assert Stem(r) == "acme" && Suffix(r) == ArchiveSuffix;
    assert r == Stem(r) + Suffix(r);
    assert "acme" + ArchiveSuffix == "acme.7z";
  }

  /** The "." and "/" targets have no base name. */
  lemma EmptyBaseName()
    ensures ArchiveName(Parse(".")).None? && ArchiveName(Parse("/")).None?
  {
    Strings.SplitFree(".", '/');
    Strings.SplitPrefixed("", "", '/');
    assert "" + ['/'] + "" == "/";
    Strings.SplitFree("", '/');
  }

  /** `projects_dir / archive_basename`. */
  function ArchivePath(dir: Path, name: string): Path {
    JoinName(dir, name)
  }

  /** A name is parsed as the single component it is. */
  lemma ParseComponent(name: string)
    requires IsComponent(name)
    ensures Parse(name) == Path(false, [name])
  {
    Strings.SplitFree(name, '/');
  }

  /** Every archive lands directly in the projects directory, whatever the project's own location. */
  lemma ArchiveInProjectsDir(dir: Path, target: Path)
    requires WellFormed(target) && ArchiveName(target).Some?
    ensures RelativeTo(ArchivePath(dir, ArchiveName(target).value), dir) == Some(Path(false, [ArchiveName(target).value]))
  {
    ParseComponent(ArchiveName(target).value);
  }

  /**
   * The member names `file_path.relative_to(projects_dir)` gives the walked
   * files, in order, up to the first file not under the projects directory,
   * which is returned as the one the walk fails on.
   */
  function Members(files: seq<Path>, dir: Path): (r: (seq<Path>, Option<Path>))
    ensures |r.0| <= |files|
    ensures r.1.None? <==> |r.0| == |files|
    ensures r.1.Some? ==> r.1.value == files[|r.0|] && RelativeTo(files[|r.0|], dir).None?
  {
    if files == [] then ([], None)
    else match RelativeTo(files[0], dir)
      case None => ([], Some(files[0]))
      case Some(m) =>
        var rest := Members(files[1..], dir);
        ([m] + rest.0, rest.1)
  }

  /** Each member name is relative, and joined back onto the projects directory it is the file it came from. */
  lemma {:induction false} MembersRestoreFiles(files: seq<Path>, dir: Path)
    ensures var m := Members(files, dir).0;
            forall i :: 0 <= i < |m| ==> !m[i].absolute && Join(dir, m[i]) == files[i]
  {
    if files != [] && RelativeTo(files[0], dir).Some? {
      JoinRelativeTo(files[0], dir);
      MembersRestoreFiles(files[1..], dir);
    }
  }

  /** A relative project path under an absolute projects directory fails on its first file. */
  lemma RelativeProjectFails(files: seq<Path>, dir: Path)
    requires dir.absolute && |files| > 0 && !files[0].absolute
    ensures Members(files, dir) == ([], Some(files[0]))
  {
  }

  // ---------------------------------------------------------------- state

  /** A written archive: its member names and its password, if encrypted. */
  datatype Archive = Archive(members: seq<Path>, password: Option<string>)

  /** What became of the vault entry for an encrypted archive. */
  datatype EntryStatus = NotRequested | AddFailed | SaveFailed | Saved

  /** What one target came to, when the run did not stop on it. */
  datatype Outcome =
    | NotADirectory
    | OwnershipFailed
    | EntryAlreadyExists(name: string)
    | Archived(name: string, password: Option<string>, entry: EntryStatus)

  /** An exception nothing catches: the run stops with exit status 1. */
  datatype Crash =
    | GroupSaveFailed
    | EmptyName(target: Path)
    | OutsideProjectsDir(file: Path)

  /** The messages the script prints, as tags. */
  datatype Event =
    | UsageError
    | KdbxStopped(failure: KdbxFailure)
    | GroupCreated
    | UnknownPath(target: Path)
    | Chown(command: string, status: int)
    | EntryExists(name: string)
    | ArchiveCreated(path: Path)
    | EntryError

  /** The open database session, the file it was loaded from or last saved to, and the group handle. */
  datatype Keepass = Keepass(session: Vault.Db, stored: Vault.Db, group: Option<nat>)

  /** `keepass` is present exactly when encrypting. */
  datatype State = State(keepass: Option<Keepass>, archives: map<Path, Archive>, log: seq<Event>,
                         outcomes: seq<Outcome>, crash: Option<Crash>)

  /** What the outside world answers for one target. */
  datatype Probe = Probe(isDir: bool, chownStatus: int, files: seq<Path>, entropy: seq<Secrets.byte>,
                         addOk: bool, saveOk: bool)

  /** `token_hex(password_length // 2)` draws this many random bytes. */
  predicate ProbeOk(p: Probe) {
    |p.entropy| == PasswordLength / 2
  }

  /** The password generated for a target. */
  function ArchivePassword(p: Probe): (pw: string)
    requires ProbeOk(p)
    ensures |pw| == 24 < PasswordLength
    ensures forall k :: 0 <= k < |pw| ==> Secrets.IsLowerHex(pw[k])
  {
    Secrets.Password(PasswordLength, p.entropy)
  }

  // ---------------------------------------------------------------- one target

  /** Write the archive `name` of `files`; the container is closed, holding what was written, even when the walk raises. */
  function WriteArchive(st: State, dir: Path, name: string, password: Option<string>, files: seq<Path>): (r: State)
    ensures r.keepass == st.keepass && r.outcomes == st.outcomes
    ensures r.archives == st.archives[ArchivePath(dir, name) := Archive(Members(files, dir).0, password)]
    ensures r.crash.Some? <==> st.crash.Some? || Members(files, dir).1.Some?
  {
    var path := ArchivePath(dir, name);
    var m := Members(files, dir);
    var written := st.(archives := st.archives[path := Archive(m.0, password)]);
    if m.1.Some? then written.(crash := Some(OutsideProjectsDir(m.1.value)))
    else written.(log := written.log + [ArchiveCreated(path)])
  }

  /** Add the entry for an encrypted archive and save; failures are only printed. */
  function RecordEntry(st: State, name: string, pw: string, p: Probe): (r: State)
    requires st.keepass.Some?
  {
    var kp := st.keepass.value;
    var entries := kp.session.entries;
    if kp.group.None? || Vault.HasDuplicate(entries, kp.group, name, EntryUsername) || !p.addOk then
      st.(log := st.log + [EntryError], outcomes := st.outcomes + [Archived(name, Some(pw), AddFailed)])
    else
      var session := kp.session.(entries := entries + [Vault.Entry(kp.group, name, EntryUsername, pw)]);
      if p.saveOk then
        st.(keepass := Some(kp.(session := session, stored := session)),
            outcomes := st.outcomes + [Archived(name, Some(pw), Saved)])
      else
        st.(keepass := Some(kp.(session := session)), log := st.log + [EntryError],
            outcomes := st.outcomes + [Archived(name, Some(pw), SaveFailed)])
  }

  /** The archival of a target that has a name and whose ownership was taken. */
  function Archival(st: State, dir: Path, name: string, p: Probe): State
    requires ProbeOk(p)
  {
    if st.keepass.None? then
      var w := WriteArchive(st, dir, name, None, p.files);
      if w.crash.Some? then w else w.(outcomes := w.outcomes + [Archived(name, None, NotRequested)])
    else if Vault.HasUsername(st.keepass.value.session, name) then
      st.(log := st.log + [EntryExists(name)], outcomes := st.outcomes + [EntryAlreadyExists(name)])
    else
      var pw := ArchivePassword(p);
      var w := WriteArchive(st, dir, name, Some(pw), p.files);
      if w.crash.Some? then w else RecordEntry(w, name, pw, p)
  }

  /** After running `chown`: the command and its exit status are printed. */
  function Owned(st: State, user: string, target: Path, p: Probe): State {
    st.(log := st.log + [Chown(ChownCommand(user, target), p.chownStatus)])
  }

  /** One iteration of the loop over the project paths; a stopped run stays as it is. */
  function Step(st: State, dir: Path, user: string, target: Path, p: Probe): State
    requires ProbeOk(p)
  {
    if st.crash.Some? then st
    else if !p.isDir then
      st.(log := st.log + [UnknownPath(target)], outcomes := st.outcomes + [NotADirectory])
    else
      var owned := Owned(st, user, target, p);
      if p.chownStatus != 0 then owned.(outcomes := owned.outcomes + [OwnershipFailed])
      else match ArchiveName(target)
        case None => owned.(crash := Some(EmptyName(target)))
        case Some(name) => Archival(owned, dir, name, p)
  }

  predicate ProbesOk(ps: seq<Probe>) {
    forall i :: 0 <= i < |ps| ==> ProbeOk(ps[i])
  }

  /** The loop over the targets, until one raises. */
  function Loop(st: State, dir: Path, user: string, targets: seq<Path>, ps: seq<Probe>): State
    requires |ps| == |targets| && ProbesOk(ps)
    decreases |targets|
  {
    if targets == [] || st.crash.Some? then st
    else Loop(Step(st, dir, user, targets[0], ps[0]), dir, user, targets[1..], ps[1..])
  }

  // ---------------------------------------------------------------- the whole run

  /** The state before the loop: with encryption, the database opened and the group looked up or created. */
  function Setup(cfg: Config, encrypt: bool, kdbx: KdbxProbe, groupSaveOk: bool, archives: map<Path, Archive>): State {
    var idle := State(None, archives, [], [], None);
    if !encrypt then idle
    else match OpenKdbx(cfg.keepassDb, cfg.keepassKey, kdbx).1
      case Err(f) => idle.(log := [KdbxStopped(f)], crash := None)
      case Ok(db) =>
        var found := Vault.FindGroup(db.groups, GroupName);
        if found.Some? then idle.(keepass := Some(Keepass(db, db, found)))
        else
          var created := db.(groups := db.groups + [GroupName]);
          if groupSaveOk then idle.(keepass := Some(Keepass(created, created, None)), log := [GroupCreated])
          else idle.(keepass := Some(Keepass(created, db, None)), crash := Some(GroupSaveFailed))
  }

  /** Whether `open_kdbx` ends the process before the loop. */
  predicate KdbxStops(cfg: Config, encrypt: bool, kdbx: KdbxProbe) {
    encrypt && OpenKdbx(cfg.keepassDb, cfg.keepassKey, kdbx).1.Err?
  }

  /** The targets `pathlib.Path(project_path)` makes of the command-line arguments. */
  function Targets(paths: seq<string>): (ts: seq<Path>)
    ensures |ts| == |paths|
    ensures forall i :: 0 <= i < |paths| ==> ts[i] == Parse(paths[i])
  {
    seq(|paths|, i requires 0 <= i < |paths| => Parse(paths[i]))
  }

  /**
   * The process exit status and final state of `audit-archive.py [-e] path...`.
   * The argument parser wants at least one path and exits with status 2
   * before anything else is done.
   */
  function Run(cfg: Config, encrypt: bool, kdbx: KdbxProbe, groupSaveOk: bool, archives: map<Path, Archive>,
               user: string, paths: seq<string>, ps: seq<Probe>): (int, State)
    requires |ps| == |paths| && ProbesOk(ps)
  {
    if paths == [] then (2, State(None, archives, [UsageError], [], None))
    else
      var st := Setup(cfg, encrypt, kdbx, groupSaveOk, archives);
      if KdbxStops(cfg, encrypt, kdbx) then (1, st)
      else
        var r := Loop(st, cfg.projectsDir, user, Targets(paths), ps);
        (if r.crash.Some? then 1 else 0, r)
  }

  // ---------------------------------------------------------------- properties of one target

  /** The outcomes appended from `before` to `after`. */
  function Added(before: State, after: State): seq<Outcome> {
    if |before.outcomes| <= |after.outcomes| then after.outcomes[|before.outcomes|..] else []
  }

  lemma AddedChain(x: State, y: State, z: State)
    requires x.outcomes <= y.outcomes <= z.outcomes
    ensures Added(x, z) == Added(x, y) + Added(y, z)
  {
    assert z.outcomes[|x.outcomes|..] == y.outcomes[|x.outcomes|..] + z.outcomes[|y.outcomes|..];
  }

  /** The part of the state later targets depend on. */
  function Core(st: State): (Option<Keepass>, map<Path, Archive>, Option<Crash>) {
    (st.keepass, st.archives, st.crash)
  }

  /** How a step decomposes when it reaches the archival. */
  lemma StepArchives(st: State, dir: Path, user: string, target: Path, p: Probe)
    requires ProbeOk(p) && st.crash.None? && p.isDir && p.chownStatus == 0 && ArchiveName(target).Some?
    ensures Step(st, dir, user, target, p) == Archival(Owned(st, user, target, p), dir, ArchiveName(target).value, p)
  {
  }

  /**
   * A step that does not reach the archival: a stopped run stays as it is; a
   * target that is not a directory, or whose `chown` fails, gets no archive
   * and no entry and the loop goes on; a target without a base name stops
   * the run with nothing written.
   */
  lemma SkippedTarget(st: State, dir: Path, user: string, target: Path, p: Probe)
    requires ProbeOk(p) && !(st.crash.None? && p.isDir && p.chownStatus == 0 && ArchiveName(target).Some?)
    ensures var r := Step(st, dir, user, target, p);
            r.keepass == st.keepass && r.archives == st.archives
            && r.crash == (if st.crash.None? && p.isDir && p.chownStatus == 0 then Some(EmptyName(target)) else st.crash)
            && r.outcomes == (if st.crash.Some? || (p.isDir && p.chownStatus == 0) then st.outcomes
                              else st.outcomes + [if p.isDir then OwnershipFailed else NotADirectory])
  {
  }

  lemma ArchivalOutcomes(st: State, dir: Path, name: string, p: Probe)
    requires ProbeOk(p)
    ensures var r := Archival(st, dir, name, p);
            st.outcomes <= r.outcomes && |r.outcomes| <= |st.outcomes| + 1
  {
  }

  /** A step only appends to the outcomes, at most one of them. */
  lemma StepOutcomes(st: State, dir: Path, user: string, target: Path, p: Probe)
    requires ProbeOk(p)
    ensures var r := Step(st, dir, user, target, p);
            st.outcomes <= r.outcomes && |r.outcomes| <= |st.outcomes| + 1
  {
    if st.crash.None? && p.isDir && p.chownStatus == 0 && ArchiveName(target).Some? {
      StepArchives(st, dir, user, target, p);
      ArchivalOutcomes(Owned(st, user, target, p), dir, ArchiveName(target).value, p);
    } else {
      SkippedTarget(st, dir, user, target, p);
    }
  }

  lemma ArchivalCore(a: State, b: State, dir: Path, name: string, p: Probe)
    requires ProbeOk(p) && Core(a) == Core(b)
    ensures var ra, rb := Archival(a, dir, name, p), Archival(b, dir, name, p);
            Core(ra) == Core(rb) && Added(a, ra) == Added(b, rb)
  {
    ArchivalOutcomes(a, dir, name, p);
    ArchivalOutcomes(b, dir, name, p);
  }

  /** What a step does depends on the database, the archives and whether the run stopped, not on what was printed. */
  lemma StepCore(a: State, b: State, dir: Path, user: string, target: Path, p: Probe)
    requires ProbeOk(p) && Core(a) == Core(b)
    ensures var ra, rb := Step(a, dir, user, target, p), Step(b, dir, user, target, p);
            Core(ra) == Core(rb) && Added(a, ra) == Added(b, rb)
  {
    StepOutcomes(a, dir, user, target, p);
    StepOutcomes(b, dir, user, target, p);
    if !(a.crash.None? && p.isDir && p.chownStatus == 0 && ArchiveName(target).Some?) {
      SkippedTarget(a, dir, user, target, p);
      SkippedTarget(b, dir, user, target, p);
    } else {
      StepArchives(a, dir, user, target, p);
      StepArchives(b, dir, user, target, p);
      ArchivalCore(Owned(a, user, target, p), Owned(b, user, target, p), dir, ArchiveName(target).value, p);
    }
  }

  lemma ArchivalPassword(st: State, dir: Path, name: string, p: Probe)
    requires ProbeOk(p) && st.crash.None? && st.keepass.Some?
    requires var r := Archival(st, dir, name, p);
             |r.outcomes| > |st.outcomes| && r.outcomes[|st.outcomes|].Archived?
    ensures var r := Archival(st, dir, name, p);
            var o := r.outcomes[|st.outcomes|];
            var kp := st.keepass.value;
            o.name == name && o.password == Some(ArchivePassword(p))
            && r.archives == st.archives[ArchivePath(dir, name) := Archive(Members(p.files, dir).0, o.password)]
            && r.crash.None? && r.keepass.Some?
            && (o.entry == AddFailed <==> kp.group.None? || Vault.HasDuplicate(kp.session.entries, kp.group, name, EntryUsername) || !p.addOk)
            && (o.entry == AddFailed ==> r.keepass == st.keepass)
            && (o.entry != AddFailed ==>
                  r.keepass.value.session.entries
                  == kp.session.entries + [Vault.Entry(kp.group, name, EntryUsername, ArchivePassword(p))])
            && (o.entry == Saved <==> o.entry != AddFailed && p.saveOk)
            && (o.entry == Saved ==> r.keepass.value.stored == r.keepass.value.session)
            && (o.entry != Saved ==> r.keepass.value.stored == kp.stored)
  {
  }

  /**
   * With encryption, one password serves the archive and the entry: the
   * archive is written with it, and an entry, when added, holds it under the
   * archive's name. When adding fails nothing is rolled back: the archive
   * stays, the database is untouched and the loop goes on.
   */
  lemma OnePasswordPerArchive(st: State, dir: Path, user: string, target: Path, p: Probe)
    requires ProbeOk(p) && st.crash.None? && st.keepass.Some?
    requires var r := Step(st, dir, user, target, p);
             |r.outcomes| > |st.outcomes| && r.outcomes[|st.outcomes|].Archived?
    ensures ArchiveName(target).Some?
    ensures var r := Step(st, dir, user, target, p);
            var o := r.outcomes[|st.outcomes|];
            var kp := st.keepass.value;
            o.name == ArchiveName(target).value && o.password == Some(ArchivePassword(p))
            && r.archives == st.archives[ArchivePath(dir, o.name) := Archive(Members(p.files, dir).0, o.password)]
            && r.crash.None? && r.keepass.Some?
            && (o.entry == AddFailed <==> kp.group.None? || Vault.HasDuplicate(kp.session.entries, kp.group, o.name, EntryUsername) || !p.addOk)
            && (o.entry == AddFailed ==> r.keepass == st.keepass)
            && (o.entry != AddFailed ==>
                  r.keepass.value.session.entries
                  == kp.session.entries + [Vault.Entry(kp.group, o.name, EntryUsername, ArchivePassword(p))])
            && (o.entry == Saved <==> o.entry != AddFailed && p.saveOk)
            && (o.entry == Saved ==> r.keepass.value.stored == r.keepass.value.session)
            && (o.entry != Saved ==> r.keepass.value.stored == kp.stored)
  {
    if p.isDir && p.chownStatus == 0 && ArchiveName(target).Some? {
      StepArchives(st, dir, user, target, p);
      ArchivalPassword(Owned(st, user, target, p), dir, ArchiveName(target).value, p);
    }
  }

  /**
   * An encrypted archival whose walk raises: the archive written so far stays
   * on disk under a freshly drawn password, no entry is added, and the run
   * stops, so that password is recorded nowhere.
   */
  lemma WalkRaisesEncrypted(st: State, dir: Path, user: string, target: Path, p: Probe)
    requires ProbeOk(p) && st.crash.None? && st.keepass.Some?
    requires p.isDir && p.chownStatus == 0 && ArchiveName(target).Some?
    requires !Vault.HasUsername(st.keepass.value.session, ArchiveName(target).value)
    requires Members(p.files, dir).1.Some?
    ensures var r := Step(st, dir, user, target, p);
            var name := ArchiveName(target).value;
            r.crash == Some(OutsideProjectsDir(Members(p.files, dir).1.value))
            && r.keepass == st.keepass && r.outcomes == st.outcomes
            && r.archives == st.archives[ArchivePath(dir, name) := Archive(Members(p.files, dir).0, Some(ArchivePassword(p)))]
  {
    StepArchives(st, dir, user, target, p);
  }

  lemma ArchivalRefused(st: State, dir: Path, name: string, p: Probe)
    requires ProbeOk(p) && st.crash.None? && st.keepass.Some? && Suffix(name) == ArchiveSuffix
    requires Members(p.files, dir).1.None?
    requires Vault.HasDuplicate(st.keepass.value.session.entries, st.keepass.value.group, name, EntryUsername)
    requires !Vault.HasUsername(st.keepass.value.session, name)
    ensures var r := Archival(st, dir, name, p);
            r.archives == st.archives[ArchivePath(dir, name) := Archive(Members(p.files, dir).0, Some(ArchivePassword(p)))]
            && r.keepass == st.keepass && r.crash.None?
            && r.outcomes == st.outcomes + [Archived(name, Some(ArchivePassword(p)), AddFailed)]
  {
  }

  /**
   * Re-archiving a project whose entry the script already added: the archive
   * is overwritten with a fresh password, `add_entry` refuses the duplicate,
   * and the database keeps only the old password.
   */
  lemma RerunLosesPassword(st: State, dir: Path, user: string, target: Path, p: Probe, oldPassword: string)
    requires ProbeOk(p) && st.crash.None? && st.keepass.Some?
    requires p.isDir && p.chownStatus == 0 && ArchiveName(target).Some?
    requires Members(p.files, dir).1.None?
    requires Vault.Entry(st.keepass.value.group, ArchiveName(target).value, EntryUsername, oldPassword)
             in st.keepass.value.session.entries
    requires !Vault.HasUsername(st.keepass.value.session, ArchiveName(target).value)
    ensures var r := Step(st, dir, user, target, p);
            var name := ArchiveName(target).value;
            r.archives == st.archives[ArchivePath(dir, name) := Archive(Members(p.files, dir).0, Some(ArchivePassword(p)))]
            && r.keepass == st.keepass && r.crash.None?
            && r.outcomes == st.outcomes + [Archived(name, Some(ArchivePassword(p)), AddFailed)]
  {
    var name := ArchiveName(target).value;
    var kp := st.keepass.value;
    var k :| 0 <= k < |kp.session.entries| && kp.session.entries[k] == Vault.Entry(kp.group, name, EntryUsername, oldPassword);
    assert Vault.HasDuplicate(kp.session.entries, kp.group, name, EntryUsername);
    StepArchives(st, dir, user, target, p);
    ArchivalRefused(Owned(st, user, target, p), dir, name, p);
  }

  /** "encrypted archive" has no suffix, so it is never an archive name. */
  lemma EntryUsernameHasNoSuffix()
    ensures Suffix(EntryUsername) == ""
  {
    assert forall k :: 0 <= k < |EntryUsername| ==> EntryUsername[k] != '.';
  }

  /** No entry's user name is an archive name. */
  predicate NoArchiveUsernames(db: Vault.Db) {
    forall i :: 0 <= i < |db.entries| ==> Suffix(db.entries[i].username) != ArchiveSuffix
  }

  lemma ArchivalNotRecorded(st: State, dir: Path, name: string, p: Probe)
    requires ProbeOk(p) && st.keepass.Some? && NoArchiveUsernames(st.keepass.value.session)
    requires Suffix(name) == ArchiveSuffix
    ensures var r := Archival(st, dir, name, p);
            forall i :: |st.outcomes| <= i < |r.outcomes| ==> !r.outcomes[i].EntryAlreadyExists?
  {
  }

  /**
   * With `-e`, a target whose archive name is already some entry's user name
   * is skipped: "Entry already exists" is printed, no archive is written and
   * the database is left as it was.
   */
  lemma StepAlreadyRecorded(st: State, dir: Path, user: string, target: Path, p: Probe)
    requires ProbeOk(p) && st.crash.None? && p.isDir && p.chownStatus == 0 && ArchiveName(target).Some?
    requires st.keepass.Some? && Vault.HasUsername(st.keepass.value.session, ArchiveName(target).value)
    ensures var r := Step(st, dir, user, target, p);
            var name := ArchiveName(target).value;
            r.crash.None? && r.keepass == st.keepass && r.archives == st.archives
            && r.outcomes == st.outcomes + [EntryAlreadyExists(name)]
            && r.log == st.log + [Chown(ChownCommand(user, target), 0), EntryExists(name)]
  {
    StepArchives(st, dir, user, target, p);
  }

  /** A step skips a target as already recorded only when an entry's user name is an archive name. */
  lemma StepNotRecorded(st: State, dir: Path, user: string, target: Path, p: Probe)
    requires ProbeOk(p) && st.keepass.Some? && NoArchiveUsernames(st.keepass.value.session)
    ensures var r := Step(st, dir, user, target, p);
            forall i :: |st.outcomes| <= i < |r.outcomes| ==> !r.outcomes[i].EntryAlreadyExists?
  {
    if st.crash.None? && p.isDir && p.chownStatus == 0 && ArchiveName(target).Some? {
      StepArchives(st, dir, user, target, p);
      ArchivalNotRecorded(Owned(st, user, target, p), dir, ArchiveName(target).value, p);
    } else {
      SkippedTarget(st, dir, user, target, p);
    }
  }

  /**
   * How the database may change over the loop: the group handle and the
   * groups stay as they were, entries are only appended, each in the looked-up
   * group and with the user name "encrypted archive", and none at all when
   * the group was not found.
   */
  predicate Extends(kp0: Keepass, kp: Keepass) {
    kp.group == kp0.group && kp.session.groups == kp0.session.groups
    && kp0.session.entries <= kp.session.entries
    && (kp0.group.None? ==> kp.session.entries == kp0.session.entries)
    && forall i :: |kp0.session.entries| <= i < |kp.session.entries| ==>
         kp.session.entries[i].group == kp0.group && kp.session.entries[i].username == EntryUsername
  }

  lemma ExtendsTransitive(a: Keepass, b: Keepass, c: Keepass)
    requires Extends(a, b) && Extends(b, c)
    ensures Extends(a, c)
  {
  }

  lemma ArchivalVault(st: State, dir: Path, name: string, p: Probe)
    requires ProbeOk(p) && st.keepass.Some?
    ensures var r := Archival(st, dir, name, p);
            r.keepass.Some? && Extends(st.keepass.value, r.keepass.value)
  {
  }

  lemma StepVault(st: State, dir: Path, user: string, target: Path, p: Probe)
    requires ProbeOk(p) && st.keepass.Some?
    ensures var r := Step(st, dir, user, target, p);
            r.keepass.Some? && Extends(st.keepass.value, r.keepass.value)
  {
    if st.crash.None? && p.isDir && p.chownStatus == 0 && ArchiveName(target).Some? {
      StepArchives(st, dir, user, target, p);
      ArchivalVault(Owned(st, user, target, p), dir, ArchiveName(target).value, p);
    } else {
      SkippedTarget(st, dir, user, target, p);
    }
  }

  /** Running the targets of `a` and then those of `b` is running `a + b`. */
  lemma {:induction false} LoopAppend(st: State, dir: Path, user: string, a: seq<Path>, pa: seq<Probe>, b: seq<Path>, pb: seq<Probe>)
    requires |pa| == |a| && |pb| == |b| && ProbesOk(pa) && ProbesOk(pb)
    ensures ProbesOk(pa + pb)
    ensures Loop(st, dir, user, a + b, pa + pb) == Loop(Loop(st, dir, user, a, pa), dir, user, b, pb)
    decreases |a|
  {
    assert forall i :: 0 <= i < |pa + pb| ==> (pa + pb)[i] == if i < |pa| then pa[i] else pb[i - |pa|];
    if a == [] {
      assert a + b == b && pa + pb == pb;
    } else if st.crash.None? {
      assert (a + b)[1..] == a[1..] + b && (pa + pb)[1..] == pa[1..] + pb;
      LoopAppend(Step(st, dir, user, a[0], pa[0]), dir, user, a[1..], pa[1..], b, pb);
    } else {
      assert b == [] || Loop(st, dir, user, b, pb) == st;
    }
  }

  /** The loop only appends to the outcomes. */
  lemma {:induction false} LoopOutcomes(st: State, dir: Path, user: string, targets: seq<Path>, ps: seq<Probe>)
    requires |ps| == |targets| && ProbesOk(ps)
    ensures st.outcomes <= Loop(st, dir, user, targets, ps).outcomes
    decreases |targets|
  {
    if targets != [] && st.crash.None? {
      StepOutcomes(st, dir, user, targets[0], ps[0]);
      LoopOutcomes(Step(st, dir, user, targets[0], ps[0]), dir, user, targets[1..], ps[1..]);
    }
  }

  /** What the rest of the run does depends only on the database, the archives and whether the run stopped. */
  lemma {:induction false} LoopCore(a: State, b: State, dir: Path, user: string, targets: seq<Path>, ps: seq<Probe>)
    requires |ps| == |targets| && ProbesOk(ps) && Core(a) == Core(b)
    ensures var ra, rb := Loop(a, dir, user, targets, ps), Loop(b, dir, user, targets, ps);
            Core(ra) == Core(rb) && Added(a, ra) == Added(b, rb)
    decreases |targets|
  {
    if targets != [] && a.crash.None? {
      var a1, b1 := Step(a, dir, user, targets[0], ps[0]), Step(b, dir, user, targets[0], ps[0]);
      StepCore(a, b, dir, user, targets[0], ps[0]);
      StepOutcomes(a, dir, user, targets[0], ps[0]);
      StepOutcomes(b, dir, user, targets[0], ps[0]);
      LoopCore(a1, b1, dir, user, targets[1..], ps[1..]);
      LoopOutcomes(a1, dir, user, targets[1..], ps[1..]);
      LoopOutcomes(b1, dir, user, targets[1..], ps[1..]);
      var ra, rb := Loop(a1, dir, user, targets[1..], ps[1..]), Loop(b1, dir, user, targets[1..], ps[1..]);
      AddedChain(a, a1, ra);
      AddedChain(b, b1, rb);
    }
  }

  /**
   * Targets are independent: a target that is not a directory, or whose
   * `chown` fails, can be dropped from the command line without changing
   * what happens to the database or the archives, or the outcome of any
   * other target.
   */
  lemma SkippedTargetIndependent(st: State, dir: Path, user: string, a: seq<Path>, pa: seq<Probe>,
                                 t: Path, p: Probe, b: seq<Path>, pb: seq<Probe>)
    requires |pa| == |a| && |pb| == |b| && ProbesOk(pa) && ProbesOk(pb) && ProbeOk(p)
    requires !p.isDir || p.chownStatus != 0
    ensures ProbesOk(pa + [p] + pb) && ProbesOk(pa + pb)
    ensures var with := Loop(st, dir, user, a + [t] + b, pa + [p] + pb);
            var without := Loop(st, dir, user, a + b, pa + pb);
            var mid := Loop(st, dir, user, a, pa);
            Core(with) == Core(without)
            && (mid.crash.None? ==>
                  Added(st, with) == Added(st, mid) + [if p.isDir then OwnershipFailed else NotADirectory]
                                     + Added(mid, without))
  {
    LoopAppend(st, dir, user, a, pa, [t] + b, [p] + pb);
    LoopAppend(st, dir, user, a, pa, b, pb);
    assert a + [t] + b == a + ([t] + b) && pa + [p] + pb == pa + ([p] + pb);
    var mid := Loop(st, dir, user, a, pa);
    LoopAfterSkip(mid, dir, user, t, p, b, pb);
    if mid.crash.None? {
      LoopOutcomes(st, dir, user, a, pa);
      LoopOutcomes(mid, dir, user, [t] + b, [p] + pb);
      AddedChain(st, mid, Loop(mid, dir, user, [t] + b, [p] + pb));
    }
  }

  lemma LoopAfterSkip(st: State, dir: Path, user: string, t: Path, p: Probe, b: seq<Path>, pb: seq<Probe>)
    requires |pb| == |b| && ProbesOk(pb) && ProbeOk(p)
    requires !p.isDir || p.chownStatus != 0
    ensures ProbesOk([p] + pb)
    ensures var with, without := Loop(st, dir, user, [t] + b, [p] + pb), Loop(st, dir, user, b, pb);
            Core(with) == Core(without)
            && (st.crash.None? ==> Added(st, with) == [if p.isDir then OwnershipFailed else NotADirectory] + Added(st, without))
  {
    assert ([t] + b)[0] == t && ([t] + b)[1..] == b && ([p] + pb)[0] == p && ([p] + pb)[1..] == pb;
    if st.crash.None? {
      var s1 := Step(st, dir, user, t, p);
      var with, without := Loop(s1, dir, user, b, pb), Loop(st, dir, user, b, pb);
      SkippedTarget(st, dir, user, t, p);
      LoopCore(s1, st, dir, user, b, pb);
      LoopOutcomes(s1, dir, user, b, pb);
      AddedChain(st, s1, with);
    } else {
      assert b == [] || Loop(st, dir, user, b, pb) == st;
    }
  }

  /** Over the whole loop the database changes only as `Extends` allows. */
  lemma {:induction false} LoopVault(st: State, dir: Path, user: string, targets: seq<Path>, ps: seq<Probe>)
    requires |ps| == |targets| && ProbesOk(ps) && st.keepass.Some?
    ensures var r := Loop(st, dir, user, targets, ps);
            r.keepass.Some? && Extends(st.keepass.value, r.keepass.value)
    decreases |targets|
  {
    if targets != [] && st.crash.None? {
      var s1 := Step(st, dir, user, targets[0], ps[0]);
      StepVault(st, dir, user, targets[0], ps[0]);
      LoopVault(s1, dir, user, targets[1..], ps[1..]);
      ExtendsTransitive(st.keepass.value, s1.keepass.value, Loop(s1, dir, user, targets[1..], ps[1..]).keepass.value);
    }
  }

  /** The saved database is either the one the step began with or the step's session. */
  lemma ArchivalStored(st: State, dir: Path, name: string, p: Probe)
    requires ProbeOk(p) && st.keepass.Some?
    ensures var r := Archival(st, dir, name, p);
            r.keepass.Some?
            && (r.keepass.value.stored == st.keepass.value.stored || r.keepass.value.stored == r.keepass.value.session)
  {
  }

  lemma StepStored(st: State, dir: Path, user: string, target: Path, p: Probe)
    requires ProbeOk(p) && st.keepass.Some?
    ensures var r := Step(st, dir, user, target, p);
            r.keepass.Some?
            && (r.keepass.value.stored == st.keepass.value.stored || r.keepass.value.stored == r.keepass.value.session)
  {
    if st.crash.None? && p.isDir && p.chownStatus == 0 && ArchiveName(target).Some? {
      StepArchives(st, dir, user, target, p);
      ArchivalStored(Owned(st, user, target, p), dir, ArchiveName(target).value, p);
    } else {
      SkippedTarget(st, dir, user, target, p);
    }
  }

  /**
   * Entries the script adds never make a target be skipped: starting from a
   * session and a saved database where no user name is an archive name, no
   * target of the loop is skipped as already recorded, and both the session
   * and the saved database, which the next run opens, still have no such
   * user name.
   */
  lemma {:induction false} NeverAlreadyRecorded(st: State, dir: Path, user: string, targets: seq<Path>, ps: seq<Probe>)
    requires |ps| == |targets| && ProbesOk(ps) && st.keepass.Some?
    requires NoArchiveUsernames(st.keepass.value.session) && NoArchiveUsernames(st.keepass.value.stored)
    ensures var r := Loop(st, dir, user, targets, ps);
            r.keepass.Some? && NoArchiveUsernames(r.keepass.value.session) && NoArchiveUsernames(r.keepass.value.stored)
            && forall i :: |st.outcomes| <= i < |r.outcomes| ==> !r.outcomes[i].EntryAlreadyExists?
    decreases |targets|
  {
    if targets != [] && st.crash.None? {
      var s1 := Step(st, dir, user, targets[0], ps[0]);
      var r := Loop(s1, dir, user, targets[1..], ps[1..]);
      StepOutcomes(st, dir, user, targets[0], ps[0]);
      StepNotRecorded(st, dir, user, targets[0], ps[0]);
      StepVault(st, dir, user, targets[0], ps[0]);
      StepStored(st, dir, user, targets[0], ps[0]);
      EntryUsernameHasNoSuffix();
      assert NoArchiveUsernames(s1.keepass.value.session) by {
        var e0, e1 := st.keepass.value.session.entries, s1.keepass.value.session.entries;
        forall i | 0 <= i < |e1|
          ensures Suffix(e1[i].username) != ArchiveSuffix
        {
          if i < |e0| { assert e1[i] == e0[i]; }
        }
      }
      NeverAlreadyRecorded(s1, dir, user, targets[1..], ps[1..]);
      LoopOutcomes(s1, dir, user, targets[1..], ps[1..]);
      assert forall i :: |st.outcomes| <= i < |s1.outcomes| ==> r.outcomes[i] == s1.outcomes[i];
    }
  }

  lemma ArchivalPlain(st: State, dir: Path, name: string, p: Probe)
    requires ProbeOk(p) && st.keepass.None?
    ensures var r := Archival(st, dir, name, p);
            r.keepass.None?
            && (forall i :: |st.outcomes| <= i < |r.outcomes| ==> r.outcomes[i] == Archived(name, None, NotRequested))
            && forall k :: k in r.archives && (k !in st.archives || r.archives[k] != st.archives[k]) ==>
                 r.archives[k].password.None?
  {
  }

  lemma StepPlain(st: State, dir: Path, user: string, target: Path, p: Probe)
    requires ProbeOk(p) && st.keepass.None?
    ensures var r := Step(st, dir, user, target, p);
            r.keepass.None?
            && (forall i :: |st.outcomes| <= i < |r.outcomes| && r.outcomes[i].Archived? ==>
                  r.outcomes[i].password.None? && r.outcomes[i].entry == NotRequested)
            && forall k :: k in r.archives && (k !in st.archives || r.archives[k] != st.archives[k]) ==>
                 r.archives[k].password.None?
  {
    if st.crash.None? && p.isDir && p.chownStatus == 0 && ArchiveName(target).Some? {
      StepArchives(st, dir, user, target, p);
      ArchivalPlain(Owned(st, user, target, p), dir, ArchiveName(target).value, p);
    } else {
      SkippedTarget(st, dir, user, target, p);
    }
  }

  /** Without encryption no database is opened, and no archive or outcome carries a password. */
  lemma {:induction false} LoopPlain(st: State, dir: Path, user: string, targets: seq<Path>, ps: seq<Probe>)
    requires |ps| == |targets| && ProbesOk(ps) && st.keepass.None?
    ensures var r := Loop(st, dir, user, targets, ps);
            r.keepass.None?
            && (forall i :: |st.outcomes| <= i < |r.outcomes| && r.outcomes[i].Archived? ==>
                  r.outcomes[i].password.None? && r.outcomes[i].entry == NotRequested)
            && forall k :: k in r.archives && (k !in st.archives || r.archives[k] != st.archives[k]) ==>
                 r.archives[k].password.None?
    decreases |targets|
  {
    if targets != [] && st.crash.None? {
      var s1 := Step(st, dir, user, targets[0], ps[0]);
      var r := Loop(s1, dir, user, targets[1..], ps[1..]);
      StepOutcomes(st, dir, user, targets[0], ps[0]);
      StepPlain(st, dir, user, targets[0], ps[0]);
      LoopPlain(s1, dir, user, targets[1..], ps[1..]);
      LoopOutcomes(s1, dir, user, targets[1..], ps[1..]);
      assert forall i :: |st.outcomes| <= i < |s1.outcomes| ==> r.outcomes[i] == s1.outcomes[i];
      forall k | k in r.archives && (k !in st.archives || r.archives[k] != st.archives[k])
        ensures r.archives[k].password.None?
      {
        if k in s1.archives && r.archives[k] == s1.archives[k] {
          assert k !in st.archives || s1.archives[k] != st.archives[k];
        }
      }
    }
  }

  // ---------------------------------------------------------------- properties of a run

  /**
   * The "Audits" group is looked up once, before the loop: it is created only
   * when absent, and every entry the run adds goes to the group the lookup
   * found. A group the run had to create therefore never receives an entry.
   */
  lemma GroupLookedUpOnce(cfg: Config, kdbx: KdbxProbe, groupSaveOk: bool, archives: map<Path, Archive>,
                          user: string, paths: seq<string>, ps: seq<Probe>)
    requires |ps| == |paths| && ProbesOk(ps) && !KdbxStops(cfg, true, kdbx)
    ensures paths == [] ==> Run(cfg, true, kdbx, groupSaveOk, archives, user, paths, ps).1.keepass.None?
    ensures var db := kdbx.contents;
            var kp := Run(cfg, true, kdbx, groupSaveOk, archives, user, paths, ps).1.keepass;
            paths != [] ==>
            kp.Some?
            && kp.value.group == Vault.FindGroup(db.groups, GroupName)
            && kp.value.session.groups == (if GroupName in db.groups then db.groups else db.groups + [GroupName])
            && db.entries <= kp.value.session.entries
            && (GroupName !in db.groups ==> kp.value.session.entries == db.entries)
            && forall i :: |db.entries| <= i < |kp.value.session.entries| ==>
                 kp.value.session.entries[i].group == Vault.FindGroup(db.groups, GroupName)
                 && kp.value.session.entries[i].username == EntryUsername
  {
    var st := Setup(cfg, true, kdbx, groupSaveOk, archives);
    LoopVault(st, cfg.projectsDir, user, Targets(paths), ps);
  }

  /** Without `-e`, nothing is asked of the database and no archive is encrypted. */
  lemma PlainRun(cfg: Config, kdbx: KdbxProbe, groupSaveOk: bool, archives: map<Path, Archive>,
                 user: string, paths: seq<string>, ps: seq<Probe>)
    requires |ps| == |paths| && ProbesOk(ps)
    ensures var r := Run(cfg, false, kdbx, groupSaveOk, archives, user, paths, ps).1;
            r.keepass.None?
            && (forall i :: 0 <= i < |r.outcomes| && r.outcomes[i].Archived? ==>
                  r.outcomes[i].password.None? && r.outcomes[i].entry == NotRequested)
            && forall k :: k in r.archives && (k !in archives || r.archives[k] != archives[k]) ==>
                 r.archives[k].password.None?
  {
    LoopPlain(Setup(cfg, false, kdbx, groupSaveOk, archives), cfg.projectsDir, user, Targets(paths), ps);
  }

  /**
   * Across runs: when the database a run opens has no archive name as a user
   * name, no target is skipped as already recorded and the database it
   * leaves saved has none either, so the next run starts the same way.
   */
  lemma RunNeverAlreadyRecorded(cfg: Config, kdbx: KdbxProbe, groupSaveOk: bool, archives: map<Path, Archive>,
                                user: string, paths: seq<string>, ps: seq<Probe>)
    requires |ps| == |paths| && ProbesOk(ps) && NoArchiveUsernames(kdbx.contents)
    ensures var r := Run(cfg, true, kdbx, groupSaveOk, archives, user, paths, ps).1;
            (forall i :: 0 <= i < |r.outcomes| ==> !r.outcomes[i].EntryAlreadyExists?)
            && (r.keepass.Some? ==> NoArchiveUsernames(r.keepass.value.stored))
  {
    if paths != [] && !KdbxStops(cfg, true, kdbx) {
      var st := Setup(cfg, true, kdbx, groupSaveOk, archives);
      assert st.keepass.Some? && st.outcomes == [];
      assert st.keepass.value.session.entries == kdbx.contents.entries;
      assert st.keepass.value.stored.entries == kdbx.contents.entries;
      NeverAlreadyRecorded(st, cfg.projectsDir, user, Targets(paths), ps);
    }
  }

  /**
   * The exit status is 2 exactly when no path is given, and then nothing is
   * done; otherwise it is 1 exactly when `open_kdbx` stops the process or an
   * exception ends the loop, and when `open_kdbx` stops it no target is looked at.
   */
  lemma ExitStatus(cfg: Config, encrypt: bool, kdbx: KdbxProbe, groupSaveOk: bool, archives: map<Path, Archive>,
                   user: string, paths: seq<string>, ps: seq<Probe>)
    requires |ps| == |paths| && ProbesOk(ps)
    ensures var (status, r) := Run(cfg, encrypt, kdbx, groupSaveOk, archives, user, paths, ps);
            (status == 0 || status == 1 || status == 2)
            && (status == 2 <==> paths == [])
            && (paths == [] ==> r == State(None, archives, [UsageError], [], None))
            && (status == 1 <==> paths != [] && (KdbxStops(cfg, encrypt, kdbx) || r.crash.Some?))
            && (KdbxStops(cfg, encrypt, kdbx) ==> r.archives == archives && r.outcomes == [] && r.keepass.None?)
  {
  }

  // ---------------------------------------------------------------- the script

  /** The 7z files on disk. */
  class Disk {
    var archives: map<Path, Archive>

    constructor(archives: map<Path, Archive>)
      ensures this.archives == archives
    {
      this.archives := archives;
    }

    /** `py7zr.SevenZipFile(path, 'w', password=...)`: an empty container replaces whatever was there. */
    method Create(path: Path, password: Option<string>)
      modifies this
      ensures archives == old(archives)[path := Archive([], password)]
    {
      archives := archives[path := Archive([], password)];
    }

    /** `archive.write(file, member)`. */
    method Add(path: Path, member: Path)
      requires path in archives
      modifies this
      ensures archives == old(archives)[path := Archive(old(archives)[path].members + [member], old(archives)[path].password)]
    {
      archives := archives[path := Archive(archives[path].members + [member], archives[path].password)];
    }
  }

  /**
   * The `with py7zr.SevenZipFile(...)` block: the container is created, then
   * every walked file is added under its member name until one is not under
   * the projects directory; `failed` is that file.
   */
  method WriteArchive7z(disk: Disk, dir: Path, name: string, password: Option<string>, files: seq<Path>)
    returns (failed: Option<Path>)
    modifies disk
    ensures disk.archives == old(disk.archives)[ArchivePath(dir, name) := Archive(Members(files, dir).0, password)]
    ensures failed == Members(files, dir).1
  {
    var path := ArchivePath(dir, name);
    disk.Create(path, password);
    var rest := files;
    failed := None;
    ghost var written: seq<Path> := [];
    ghost var all := Members(files, dir);
    assert [] + all.0 == all.0;
    while rest != [] && failed.None?
      invariant path in disk.archives
      invariant disk.archives == old(disk.archives)[path := Archive(written, password)]
      invariant failed.None? ==> all == (written + Members(rest, dir).0, Members(rest, dir).1)
      invariant failed.Some? ==> all == (written, failed)
      decreases |rest|
    {
      var member := RelativeTo(rest[0], dir);
      if member.None? {
        assert Members(rest, dir) == ([], Some(rest[0])) && written + [] == written;
        failed := Some(rest[0]);
      } else {
        disk.Add(path, member.value);
        written := written + [member.value];
        assert all.0 == written + Members(rest[1..], dir).0;
      }
      rest := rest[1..];
    }
    if failed.None? {
      assert written + [] == written;
    }
  }

  /** The state the script's variables and objects stand for. */
  function Snapshot(kp: Vault.Session?, group: Option<nat>, disk: Disk, log: seq<Event>, outcomes: seq<Outcome>,
                    crash: Option<Crash>): State
    reads kp, disk
  {
    State(if kp == null then None else Some(Keepass(kp.Contents(), kp.stored, group)), disk.archives, log, outcomes, crash)
  }

  /** The body of the loop from the encryption test on, for a target with a name whose ownership was taken; `kp` is `null` without `-e`. */
  method ArchiveTarget(kp: Vault.Session?, group: Option<nat>, disk: Disk, dir: Path, name: string, p: Probe,
                       log0: seq<Event>, outcomes0: seq<Outcome>)
    returns (log: seq<Event>, outcomes: seq<Outcome>, crash: Option<Crash>)
    requires ProbeOk(p)
    modifies disk, kp
    ensures Snapshot(kp, group, disk, log, outcomes, crash)
            == Archival(old(Snapshot(kp, group, disk, log0, outcomes0, None)), dir, name, p)
  {
    log, outcomes, crash := log0, outcomes0, None;
    if kp == null {
      var failed := WriteArchive7z(disk, dir, name, None, p.files);
      if failed.Some? {
        crash := Some(OutsideProjectsDir(failed.value));
        return;
      }
      log := log + [ArchiveCreated(ArchivePath(dir, name))];
      outcomes := outcomes + [Archived(name, None, NotRequested)];
    } else if Vault.HasUsername(kp.Contents(), name) {
      log := log + [EntryExists(name)];
      outcomes := outcomes + [EntryAlreadyExists(name)];
    } else {
      var password := ArchivePassword(p);
      var failed := WriteArchive7z(disk, dir, name, Some(password), p.files);
      if failed.Some? {
        crash := Some(OutsideProjectsDir(failed.value));
        return;
      }
      log := log + [ArchiveCreated(ArchivePath(dir, name))];
      var added := kp.AddEntry(group, name, EntryUsername, password, p.addOk);
      if !added {
        log := log + [EntryError];
        outcomes := outcomes + [Archived(name, Some(password), AddFailed)];
      } else {
        var saved := kp.Save(p.saveOk);
        if saved {
          outcomes := outcomes + [Archived(name, Some(password), Saved)];
        } else {
          log := log + [EntryError];
          outcomes := outcomes + [Archived(name, Some(password), SaveFailed)];
        }
      }
    }
  }

  /** One pass of the `for project_path in args.path` loop. */
  method ProcessTarget(kp: Vault.Session?, group: Option<nat>, disk: Disk, dir: Path, user: string, target: Path,
                       p: Probe, log0: seq<Event>, outcomes0: seq<Outcome>)
    returns (log: seq<Event>, outcomes: seq<Outcome>, crash: Option<Crash>)
    requires ProbeOk(p)
    modifies disk, kp
    ensures Snapshot(kp, group, disk, log, outcomes, crash)
            == Step(old(Snapshot(kp, group, disk, log0, outcomes0, None)), dir, user, target, p)
  {
    crash := None;
    if !p.isDir {
      log, outcomes := log0 + [UnknownPath(target)], outcomes0 + [NotADirectory];
      return;
    }
    log, outcomes := log0 + [Chown(ChownCommand(user, target), p.chownStatus)], outcomes0;
    if p.chownStatus != 0 {
      outcomes := outcomes + [OwnershipFailed];
      return;
    }
    var name := ArchiveName(target);
    if name.None? {
      crash := Some(EmptyName(target));
      return;
    }
    log, outcomes, crash := ArchiveTarget(kp, group, disk, dir, name.value, p, log, outcomes);
  }

  /**
   * With `-e`, open the database and make sure the "Audits"
   * group exists. `stopped` says that `open_kdbx` ended the process.
   */
  method OpenVault(cfg: Config, encrypt: bool, kdbx: KdbxProbe, groupSaveOk: bool, disk: Disk)
    returns (stopped: bool, kp: Vault.Session?, group: Option<nat>, log: seq<Event>, crash: Option<Crash>)
    ensures kp != null ==> fresh(kp)
    ensures stopped == KdbxStops(cfg, encrypt, kdbx)
    ensures Snapshot(kp, group, disk, log, [], crash) == Setup(cfg, encrypt, kdbx, groupSaveOk, disk.archives)
  {
    stopped, kp, group, log, crash := false, null, None, [], None;
    if encrypt {
      var checked := OpenKdbx(cfg.keepassDb, cfg.keepassKey, kdbx);
      if checked.1.Err? {
        return true, null, None, [KdbxStopped(checked.1.error)], None;
      }
      kp := new Vault.Session.Open(checked.1.value);
      group := Vault.FindGroup(kp.groups, GroupName);
      if group.None? {
        kp.AddGroup(GroupName);
        var saved := kp.Save(groupSaveOk);
        if !saved {
          crash := Some(GroupSaveFailed);
          return;
        }
        log := [GroupCreated];
      }
    }
  }

  /** The `for project_path in args.path` loop, until a target raises. */
  method ArchiveAll(kp: Vault.Session?, group: Option<nat>, disk: Disk, dir: Path, user: string,
                    paths: seq<string>, ps: seq<Probe>, log0: seq<Event>, crash0: Option<Crash>)
    returns (log: seq<Event>, outcomes: seq<Outcome>, crash: Option<Crash>)
    requires |ps| == |paths| && ProbesOk(ps)
    modifies disk, kp
    ensures Snapshot(kp, group, disk, log, outcomes, crash)
            == Loop(old(Snapshot(kp, group, disk, log0, [], crash0)), dir, user, Targets(paths), ps)
  {
    log, outcomes, crash := log0, [], crash0;
    ghost var targets := Targets(paths);
    ghost var start := Snapshot(kp, group, disk, log, outcomes, crash);
    assert targets[0..] == targets && ps[0..] == ps;
    var i := 0;
    while i < |paths| && crash.None?
      invariant 0 <= i <= |paths|
      invariant ProbesOk(ps[i..])
      invariant Loop(Snapshot(kp, group, disk, log, outcomes, crash), dir, user, targets[i..], ps[i..])
                == Loop(start, dir, user, targets, ps)
    {
      assert targets[i..][0] == targets[i] && targets[i..][1..] == targets[i + 1..];
      assert ps[i..][0] == ps[i] && ps[i..][1..] == ps[i + 1..];
      log, outcomes, crash := ProcessTarget(kp, group, disk, dir, user, Parse(paths[i]), ps[i], log, outcomes);
      i := i + 1;
    }
  }

  /**
   * `main`: the exit status, the database session (`null` without `-e` or
   * when `open_kdbx` stops the process), the group handle, what was printed,
   * the outcome of each target looked at, and the exception that ended the
   * run, if any.
   */
  method Execute(cfg: Config, encrypt: bool, kdbx: KdbxProbe, groupSaveOk: bool, disk: Disk, user: string,
              paths: seq<string>, ps: seq<Probe>)
    returns (status: int, kp: Vault.Session?, group: Option<nat>, log: seq<Event>, outcomes: seq<Outcome>,
             crash: Option<Crash>)
    requires |ps| == |paths| && ProbesOk(ps)
    modifies disk
    ensures kp != null ==> fresh(kp)
    ensures (status, Snapshot(kp, group, disk, log, outcomes, crash))
            == Run(cfg, encrypt, kdbx, groupSaveOk, old(disk.archives), user, paths, ps)
  {
    if paths == [] {
      return 2, null, None, [UsageError], [], None;
    }
    var stopped;
    stopped, kp, group, log, crash := OpenVault(cfg, encrypt, kdbx, groupSaveOk, disk);
    ghost var start := Snapshot(kp, group, disk, log, [], crash);
    ghost var run := Run(cfg, encrypt, kdbx, groupSaveOk, old(disk.archives), user, paths, ps);
    if stopped {
      assert run == (1, start);
      return 1, kp, group, log, [], crash;
    }
    assert run.1 == Loop(start, cfg.projectsDir, user, Targets(paths), ps);
    log, outcomes, crash := ArchiveAll(kp, group, disk, cfg.projectsDir, user, paths, ps, log, crash);
    status := if crash.Some? then 1 else 0;
  }
}
