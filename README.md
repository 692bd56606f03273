# audit-tools operator scripts, modelled in Dafny

audit-tools is a small set of scripts that a penetration tester uses to
manage audit projects on disk. This project models three of them:

- `wsnew.py` creates an engagement directory under the configured
  engagements directory. On request it also creates a symbolic link to that
  directory. When the link path is already taken, it removes the new
  directory again and exits with status 1.
- `scripts/audit-new.py` creates an audit project under the configured
  projects directory. It first creates the sub-directories listed by a named
  template, then the project directory itself with `mkdir(parents=True)`,
  then an optional link. Templates come from the `[templates]` section of
  the configuration: comma-separated directory names, each stripped of
  surrounding whitespace.
- `scripts/audit-archive.py` archives finished projects. For each project
  path given, it takes ownership with `sudo chown user:user path`. It then
  writes `<projects dir>/<stem>.7z` holding every file of the project, with
  member names relative to the projects directory. With `-e` it first opens
  the KeePass database, creating the "Audits" group if it is missing. It then
  encrypts each archive with a fresh random password and adds that password
  to the database under the archive's name, with the user name
  "encrypted archive".

The model has one module per script and one per library layer it needs:

- `Strings`: `split`, `strip`, `join`.
- `Paths`: pure POSIX paths as `pathlib` treats them, including `with_suffix`
  and `relative_to`.
- `Secrets`: `secrets.token_hex` over bytes supplied by the caller.
- `FileSystem`: existing paths and symbolic links, with `mkdir`, `rmdir` and
  `symlink_to` and their error cases.
- `Vault`: the part of a `pykeepass` session the script uses.

Each script is written twice:

- A specification function (`Spec`, `Run`) computes the exit status, the
  final state and the printed messages. Printed messages are kept as tags.
- An imperative `Execute` works on mutable objects: the file system, the 7z
  files on disk and the KeePass session. Its contract says it reaches exactly
  the state the specification function describes.

The lemmas state what the scripts guarantee, and also where they fall short.

Some things `audit-archive.py` does not do, and the model does not do them
either:

- the `chown` command has no `-R`, so only the project directory itself
  changes owner;
- nothing is deleted, neither the archived sources nor an earlier archive's
  entry;
- a failed `add_entry` leaves the archive in place, encrypted with a password
  that is stored nowhere; so does a walk that raises after the encrypted
  archive was opened, since the entry is only added once the archive is
  written;
- one password is drawn per archive; it is never rotated and no history of
  earlier passwords is kept;
- there is no limit on the size of a project.

The model includes one behaviour of the `pykeepass` library, because the
script depends on it. `add_entry` refuses an entry whose title and user name
repeat those of an entry already in the same group. Combined with the script's
existence check, this gives the re-run behaviour stated in
`AuditArchive.RerunLosesPassword`. The check looks up the archive name as a
*user name*, while the script stores the archive name as the *title*.

## Model

| member | source | states |
|---|---|---|
| Strings.Split | scripts/audit-new.py:43 | `str.split(sep)` gives at least one piece, and no piece contains the separator |
| Strings.JoinWith | scripts/audit-new.py:86 | `",".join(names)`; `JoinSplit` and `SplitJoin` state that it and `split` undo each other |
| Strings.JoinSplit | scripts/audit-new.py:42-43 | joining the pieces of a split with the separator gives back the original string |
| Strings.SplitJoin | scripts/audit-new.py:86 | splitting separator-free pieces joined by the separator gives back the pieces |
| Strings.SplitCount | scripts/audit-new.py:43 | a split yields one piece more than the number of separators |
| Strings.StripLeft | scripts/audit-new.py:42 | `lstrip` removes only leading whitespace and leaves a result that starts with a non-space |
| Strings.StripRight | scripts/audit-new.py:42 | `rstrip` removes only trailing whitespace and leaves a result that ends with a non-space |
| Strings.Strip | scripts/audit-new.py:42 | `strip` returns a contiguous piece of its input |
| Strings.StripTrimmed | scripts/audit-new.py:42 | what `strip` keeps neither starts nor ends with whitespace |
| Strings.StripCutsSpace | scripts/audit-new.py:42 | everything `strip` removes, on either side, is whitespace |
| Strings.StripIdempotent | scripts/audit-new.py:42 | stripping twice is the same as stripping once |
| Strings.StripAllSpace | scripts/audit-new.py:42 | a string made only of whitespace strips to the empty string |
| Paths.Parse | scripts/audit-archive.py:110 | `pathlib.Path(s)` is well formed, and it is absolute exactly when `s` starts with "/" |
| Paths.Join | scripts/audit-archive.py:133 | `p / q` is `q` when `q` is absolute; otherwise `q` is exactly what is left after `p` |
| Paths.JoinName | wsnew.py:52 | a directory joined with a name: an absolute name replaces the directory; a relative one lies under it, with exactly the name's components |
| Paths.Str | scripts/audit-archive.py:119 | the printed form of a path; `ParseStr` states that parsing it gives the path back |
| Paths.Name | scripts/audit-archive.py:132 | the base name is empty exactly for a path with no components or an empty last one; for a well-formed path it is a single component |
| Paths.RelativeTo | scripts/audit-archive.py:153 | `relative_to` succeeds exactly when the base is a prefix on the same side of the root, and it returns the remaining components |
| Paths.JoinRelativeTo | scripts/audit-archive.py:153 | joining the result of `relative_to` back onto the base gives the original path |
| Paths.ParseStr | scripts/audit-archive.py:119 | parsing the printed form of a well-formed path gives back the path |
| Paths.Parent | wsnew.py:53 | the parent of "/" and "." is the path itself; any other path loses exactly its last component and keeps its root |
| Paths.ParentOfChild | wsnew.py:52-53 | the parent of `p / c` is `p` for a single component `c` |
| Paths.LastIndex | scripts/audit-archive.py:132 | the position of the last occurrence of the character, with none after it, or -1 if it does not occur |
| Paths.Suffix | scripts/audit-archive.py:132 | the suffix is a dot-led ending of the name with no other dot, shorter than the name; it is non-empty exactly when the last dot is neither the first nor the last character |
| Paths.Stem | scripts/audit-archive.py:132 | stem followed by suffix is the name, and the stem is empty only for the empty name |
| Paths.WithSuffix | scripts/audit-archive.py:132 | `with_suffix` fails exactly when the name is empty; otherwise the parent is kept and the name becomes stem plus suffix |
| Secrets.TokenHex | scripts/audit-archive.py:147 | `token_hex` writes two lowercase hexadecimal digits per byte |
| Secrets.FromHex | scripts/audit-archive.py:147 | the inverse of `token_hex`'s encoding, one byte per two hex digits; `FromHexTokenHex` states that it undoes `TokenHex`, and `PasswordInjective` is proved with it |
| Secrets.FromHexTokenHex | scripts/audit-archive.py:147 | the hex text determines the bytes it was made from |
| Secrets.Password | scripts/audit-archive.py:144-147 | the password has exactly 2*(length/2) lowercase hex digits, so a length of 25 yields 24 digits and the slice cuts nothing |
| Secrets.PasswordInjective | scripts/audit-archive.py:147 | different random bytes give different passwords |
| FileSystem.MkdirOn | wsnew.py:53 | `os.mkdir` succeeds exactly when the path is absent and its parent exists, and then adds only that path; it fails with FileExists exactly on an existing path and with FileNotFound exactly on a missing parent |
| FileSystem.Lineage | scripts/audit-new.py:95 | the path and all its ancestors, closed under taking the parent |
| FileSystem.MkdirParentsOn | scripts/audit-new.py:95 | `mkdir(parents=True)` fails exactly when the path exists; otherwise it adds the path and every missing ancestor |
| FileSystem.RmdirOn | wsnew.py:61 | `os.rmdir` succeeds exactly on an existing, empty, non-root directory that is not a link, and removes only it |
| FileSystem.SymlinkOn | wsnew.py:64 | `symlink_to` succeeds exactly when the link path is absent and its parent exists, and then adds only the link, pointing at the target; it fails on an existing path and on a missing parent |
| FileSystem.AncestorsExist | scripts/audit-new.py:84-85 | in a valid tree every ancestor of an existing path exists |
| FileSystem.MkdirRmdir | wsnew.py:53-61 | creating a directory and then removing it gives back the original tree |
| FileSystem.Fs.Mkdir | wsnew.py:53 | updates the tree as `MkdirOn` does, or reports its error and changes nothing |
| FileSystem.Fs.MkdirParents | scripts/audit-new.py:95 | updates the tree as `MkdirParentsOn` does, or reports its error and changes nothing |
| FileSystem.Fs.Rmdir | wsnew.py:61 | updates the tree as `RmdirOn` does, or reports its error and changes nothing |
| FileSystem.Fs.Symlink | scripts/audit-new.py:107-108 | updates the tree as `SymlinkOn` does, or reports its error and changes nothing |
| Vault.FindGroup | scripts/audit-archive.py:99 | `find_groups(first=True)` returns nothing exactly when no group has the name; otherwise it returns the first group with that name |
| Vault.HasDuplicate | scripts/audit-archive.py:158 | `add_entry` refuses a repeated title and user name in the same group; `Session.AddEntry`, `OnePasswordPerArchive` and `RerunLosesPassword` state its effect |
| Vault.HasUsername | scripts/audit-archive.py:139 | `find_entries_by_username` finds an entry; `StepNotRecorded` and `NeverAlreadyRecorded` state when it does |
| Vault.Session.Open | scripts/audit-archive.py:70 | the opened session and the stored file both hold the database's contents |
| Vault.Session.AddGroup | scripts/audit-archive.py:102 | the new group is appended after all existing ones, and nothing is saved |
| Vault.Session.AddEntry | scripts/audit-archive.py:158 | the entry is appended exactly when the group handle exists, no entry in that group has the same title and user name, and the library call succeeds |
| Vault.Session.Save | scripts/audit-archive.py:103 | on success the stored file holds the session's contents; on failure it is unchanged |
| WsNew.Execute | wsnew.py:37-70 | the exit status, the final tree and the messages are those of `Spec`, covering configuration failures, mkdir failure, link taken with rollback, and link creation |
| WsNew.EngagementPath | wsnew.py:52 | `os.path.join(engagements_dir, name)`, which is `Paths.JoinName`; its contract states where the directory lies |
| WsNew.Spec | wsnew.py:16-70 | the whole run; `ConfigFailureTouchesNothing`, `MkdirFailureExitsZero`, `DirectoryCreated`, `LinkCreatedWhenFree`, `RollbackRestoresTree` and `NothingElseChanges` state its properties and `Execute` is proved against it |
| WsNew.ConfigFailureTouchesNothing | wsnew.py:19-31 | a missing or unreadable configuration exits with status 1 and touches nothing |
| WsNew.MkdirFailureExitsZero | wsnew.py:51-55 | when the directory cannot be created, the error is printed, nothing changes, no link is attempted and the exit status is 0 |
| WsNew.DirectoryCreated | wsnew.py:50-57 | without `--link`, a successful `mkdir` adds exactly the engagement directory, prints nothing more and exits with 0 |
| WsNew.LinkCreatedWhenFree | wsnew.py:57-65 | with `--link` naming a free path whose parent exists, the directory and the link are both created, the link points at the directory, and the run exits with 0 |
| WsNew.RollbackRestoresTree | wsnew.py:59-62 | when the link path already exists, the new directory is removed and the tree ends exactly as it began, with exit status 1 |
| WsNew.NothingElseChanges | wsnew.py:50-65 | nothing disappears; only the engagement directory and the link can appear; a link, when made, points at the new directory and only follows a requested link and a successful mkdir |
| AuditNew.ParseTemplate | scripts/audit-new.py:41-43 | a template value gives one stripped, comma-free name per comma-separated piece |
| AuditNew.LoadTemplates | scripts/audit-new.py:38-44 | one template per key of the `[templates]` section |
| AuditNew.LoadedTemplateNonEmpty | scripts/audit-new.py:39-44 | every configured template holds at least one name |
| AuditNew.ParseTemplateJoin | scripts/audit-new.py:42-43 | parsing clean names joined by commas gives the names back |
| AuditNew.ProjectPath | scripts/audit-new.py:76 | `os.path.join(projects_dir, name)`, which is `Paths.JoinName`; its contract states where the project lies |
| AuditNew.TemplatePath | scripts/audit-new.py:84 | `Path(project) / Path(directory)`, which is `Paths.JoinName`: an absolute template entry escapes the project, a relative one lies under it |
| AuditNew.ParseEmptyTemplate | scripts/audit-new.py:42-43 | an empty value gives a template made of one empty name |
| AuditNew.ParsedNamesAreClean | scripts/audit-new.py:42-43 | every parsed name is already stripped and comma-free |
| AuditNew.MkdirEach | scripts/audit-new.py:83-85 | the template loop only adds paths of template entries, never touches links, and keeps the tree valid |
| AuditNew.MkdirEachCreates | scripts/audit-new.py:83-85 | when no `mkdir` raises, every template entry exists afterwards |
| AuditNew.MkdirEachStops | scripts/audit-new.py:83-85 | when a `mkdir` raises, it is that of some entry, in the tree reached so far, and the tree is then exactly the original one plus the entries before it |
| AuditNew.MakeTemplateDirs | scripts/audit-new.py:83-85 | the loop over template entries ends in the tree and first error that `MkdirEach` gives |
| AuditNew.MakeProject | scripts/audit-new.py:93-109 | project creation and linking end in the state `CreateProject` gives, keeping the messages printed before a failing `symlink_to` |
| AuditNew.Execute | scripts/audit-new.py:56-114 | the exit status, `main`'s return value, the final tree and the messages are those of `Spec`, including every message printed before an uncaught `symlink_to` error |
| AuditNew.Spec | scripts/audit-new.py:23-114 | the whole run: a missing or unreadable configuration exits with status 1, otherwise `Start` runs; `Execute` is proved against it |
| AuditNew.Start | scripts/audit-new.py:74-109 | the run after the configuration is loaded; `TemplateBlocksLink`, `ReturnValueDiscarded` and `ProjectCreatedIffAbsent` state its properties |
| AuditNew.CreateProject | scripts/audit-new.py:93-109 | the project `mkdir` and the link step; `CreateProjectReturn` and `ProjectCreatedIffAbsent` state its properties |
| AuditNew.LinkProject | scripts/audit-new.py:101-109 | the `--link` step; `LinkOnlyWhereAbsent` states its properties |
| AuditNew.ProjectExistsAfterEntry | scripts/audit-new.py:84-85 | once the mkdir of a relative template entry succeeds, the project directory exists |
| AuditNew.TemplateMakesProject | scripts/audit-new.py:83-85 | when the template loop finishes and its first entry is relative, the project directory exists |
| AuditNew.TemplateBlocksLink | scripts/audit-new.py:79-109 | with a template whose first entry is relative, no link is ever made: either a template mkdir raises (status 1) or the project mkdir fails and `main` returns 1 |
| AuditNew.ReturnValueDiscarded | scripts/audit-new.py:97-99 | when `main` returns 1, the process still exits with status 0, after printing the mkdir failure |
| AuditNew.ProjectCreatedIffAbsent | scripts/audit-new.py:93-99 | without a template, `main` returns 1 exactly when the project exists; otherwise the project and all its ancestors are created |
| AuditNew.LinkOnlyWhereAbsent | scripts/audit-new.py:101-109 | a link is made exactly when one was requested, its path is free and `symlink_to` succeeds; it points at the project; a taken link path only prints a warning |
| AuditArchive.OptionalPath | scripts/audit-archive.py:43-44 | an empty `keepass_kdbx` or `keepass_key` setting means "not configured" |
| AuditArchive.OpenKdbx | scripts/audit-archive.py:56-77 | prompts first; checks the key file only after the database file is found; opens the database exactly when both checks pass; succeeds exactly when the database is set, both files exist and opening works |
| AuditArchive.ChownWords | scripts/audit-archive.py:119 | without spaces in the user name or the path, the command is exactly `sudo chown user:user path`, four words and no `-R` |
| AuditArchive.ChownSpaceSplitsPath | scripts/audit-archive.py:119 | the path is not quoted, so a space in a project name splits it into two separate arguments of `chown` |
| AuditArchive.ChownCommand | scripts/audit-archive.py:119 | the shell command; `ChownWords` and `ChownSpaceSplitsPath` state what it runs |
| AuditArchive.Owned | scripts/audit-archive.py:116-125 | running the `chown` command: only the command and its exit status are printed; `Step` then goes on or skips the target on that status, as `SkippedTarget` and `SkippedTargetIndependent` state |
| AuditArchive.ArchiveName | scripts/audit-archive.py:132 | fails exactly when the base name is empty; otherwise the name ends in ".7z", keeps the project's stem, and is a single path component |
| AuditArchive.ArchiveNameIdempotent | scripts/audit-archive.py:132 | naming an archive again gives the same name |
| AuditArchive.SameStemSameArchive | scripts/audit-archive.py:132-133 | two projects whose base names share a stem get the same archive name |
| AuditArchive.ArchiveNamesCollide | scripts/audit-archive.py:132-133 | "/audits/acme.2023" and "/audits/acme.2024" are both archived as "acme.7z" |
| AuditArchive.EmptyBaseName | scripts/audit-archive.py:132 | the targets "." and "/" have no base name, so `with_suffix` raises |
| AuditArchive.ArchiveInProjectsDir | scripts/audit-archive.py:133 | every archive lands directly in the projects directory, wherever the project itself lies |
| AuditArchive.ArchivePath | scripts/audit-archive.py:133 | `projects_dir / archive_basename`, which is `Paths.JoinName`; `ArchiveInProjectsDir` states that it is a direct child of the projects directory |
| AuditArchive.Targets | scripts/audit-archive.py:107-110 | one target per command-line path, in order, each parsed by `pathlib.Path`, whose properties `Paths.Parse` and `ParseStr` state |
| AuditArchive.Members | scripts/audit-archive.py:151-153 | the member names cover the walked files in order, up to the first file outside the projects directory, which is the one the walk raises on |
| AuditArchive.MembersRestoreFiles | scripts/audit-archive.py:153 | every member name is relative, and joined onto the projects directory it gives back its file |
| AuditArchive.RelativeProjectFails | scripts/audit-archive.py:110-153 | a walk whose first file is relative, under an absolute projects directory, raises on that file and writes no member |
| AuditArchive.ArchivePassword | scripts/audit-archive.py:144-147 | the generated password is 24 lowercase hex digits, one short of the requested 25 |
| AuditArchive.WriteArchive | scripts/audit-archive.py:150-154 | the archive file is replaced by one holding the members written so far, and the run stops exactly when the walk meets a file outside the projects directory |
| AuditArchive.Archival | scripts/audit-archive.py:136-172 | archiving one owned target; `StepAlreadyRecorded`, `OnePasswordPerArchive`, `WalkRaisesEncrypted`, `RerunLosesPassword` and `LoopPlain` state its properties |
| AuditArchive.RecordEntry | scripts/audit-archive.py:156-162 | the `add_entry` and `save` step; `OnePasswordPerArchive` and `StepVault` state its properties |
| AuditArchive.SkippedTarget | scripts/audit-archive.py:113-128 | a target that is not a directory, or whose `chown` fails, gets no archive and no entry and the loop goes on; a target with no base name stops the run with nothing written |
| AuditArchive.StepOutcomes | scripts/audit-archive.py:107-176 | each target adds at most one outcome, and earlier outcomes are kept |
| AuditArchive.StepCore | scripts/audit-archive.py:107-176 | what a target does depends on the database, the archives and whether the run stopped, not on what was printed |
| AuditArchive.Step | scripts/audit-archive.py:110-176 | one pass of the loop; `StepOutcomes`, `StepCore`, `StepVault`, `StepAlreadyRecorded`, `StepNotRecorded` and `SkippedTarget` state its properties |
| AuditArchive.OnePasswordPerArchive | scripts/audit-archive.py:144-162 | with `-e`, the archive and its entry share one password; adding fails exactly for a missing group, a duplicate or a library failure, and then the database is unchanged while the archive stays; the entry goes under the archive's name; the file is saved only when `save` succeeds |
| AuditArchive.WalkRaisesEncrypted | scripts/audit-archive.py:144-162 | with `-e`, a walk that raises leaves the archive written so far under a fresh password that no entry records, adds no outcome, leaves the database as it was and stops the run |
| AuditArchive.RerunLosesPassword | scripts/audit-archive.py:139-162 | re-archiving a project whose entry the script already added overwrites the archive with a new password, while `add_entry` refuses the duplicate, so the database keeps only the old password |
| AuditArchive.EntryUsernameHasNoSuffix | scripts/audit-archive.py:158 | the user name "encrypted archive" has no suffix, so it never equals an archive name |
| AuditArchive.StepNotRecorded | scripts/audit-archive.py:139-140 | a target is skipped as already recorded only when some entry's user name is an archive name |
| AuditArchive.StepAlreadyRecorded | scripts/audit-archive.py:136-140 | with `-e`, a target whose archive name is already an entry's user name is skipped: the message is printed, no archive is written, the database is unchanged and the run goes on |
| AuditArchive.StepVault | scripts/audit-archive.py:156-162 | one target changes the database only by appending entries in the looked-up group, with the user name "encrypted archive" |
| AuditArchive.LoopAppend | scripts/audit-archive.py:107 | looping over `a` and then over `b` is looping over `a + b` |
| AuditArchive.LoopOutcomes | scripts/audit-archive.py:107-176 | the loop only appends outcomes |
| AuditArchive.LoopCore | scripts/audit-archive.py:107-176 | the rest of the run depends only on the database, the archives and whether the run stopped |
| AuditArchive.Loop | scripts/audit-archive.py:107 | the loop over the targets; `LoopAppend`, `LoopOutcomes`, `LoopCore`, `LoopVault`, `NeverAlreadyRecorded` and `LoopPlain` state its properties |
| AuditArchive.SkippedTargetIndependent | scripts/audit-archive.py:113-128 | dropping a target that is not a directory or whose `chown` fails changes neither the database, nor the archives, nor any other target's outcome |
| AuditArchive.LoopVault | scripts/audit-archive.py:107-176 | over the whole loop, the database only gains entries in the looked-up group, with the user name "encrypted archive" |
| AuditArchive.NeverAlreadyRecorded | scripts/audit-archive.py:139-159 | starting from a session and a saved database where no user name is an archive name, no target of the loop is skipped as already recorded, and neither the session nor the saved database gains such a user name |
| AuditArchive.RunNeverAlreadyRecorded | scripts/audit-archive.py:80-180 | a run with `-e` that opens a database with no archive name as a user name skips no target as already recorded and leaves a saved database of the same kind, so no later run opening it does either |
| AuditArchive.LoopPlain | scripts/audit-archive.py:164-172 | without a database, no outcome carries a password and no new or changed archive is encrypted |
| AuditArchive.GroupLookedUpOnce | scripts/audit-archive.py:88-104 | with no path the database is never opened; with at least one, "Audits" is looked up once, before the loop; it is created only when absent; entries are only appended, all to the group the lookup found, so a group the run had to create never receives an entry |
| AuditArchive.PlainRun | scripts/audit-archive.py:164-172 | without `-e`, no database is opened and no archive is encrypted |
| AuditArchive.Setup | scripts/audit-archive.py:93-104 | opening the database and looking up or creating "Audits"; `GroupLookedUpOnce` and `ExitStatus` state its properties |
| AuditArchive.Run | scripts/audit-archive.py:80-180 | the whole run; `ExitStatus`, `GroupLookedUpOnce` and `PlainRun` state its properties and `Execute` is proved against it |
| AuditArchive.ExitStatus | scripts/audit-archive.py:80-180 | the exit status is 2 exactly when no path is given, and then nothing is touched; it is 1 exactly when, with at least one path, `open_kdbx` stops the process or an exception ends the loop; otherwise 0; when `open_kdbx` stops it, no target is touched |
| AuditArchive.Disk.Create | scripts/audit-archive.py:150 | opening a container for writing replaces any file at that path with an empty archive |
| AuditArchive.Disk.Add | scripts/audit-archive.py:153 | writing a file appends one member to the open archive |
| AuditArchive.WriteArchive7z | scripts/audit-archive.py:150-153 | the write loop leaves the archive that `Members` describes, and returns the file the walk failed on |
| AuditArchive.ArchiveTarget | scripts/audit-archive.py:136-172 | archiving one target over the mutable disk and session reaches the state `Archival` describes |
| AuditArchive.ProcessTarget | scripts/audit-archive.py:110-176 | one pass of the loop over the mutable disk and session reaches the state `Step` describes |
| AuditArchive.OpenVault | scripts/audit-archive.py:93-104 | with `-e`, opening the database and looking up or creating "Audits" reaches the state `Setup` describes, and it stops exactly when `open_kdbx` ends the process |
| AuditArchive.ArchiveAll | scripts/audit-archive.py:107-176 | the loop over the command-line paths, over the mutable disk and session, reaches the state `Loop` describes |
| AuditArchive.Execute | scripts/audit-archive.py:80-176 | the exit status, the session, the archives on disk, the messages and the outcomes are those `Run` gives, including the usage error with status 2 when no path is given |

## Left out

- `install.py` is not part of this model.
- The bodies of `load_config` are left out: `configparser`, `expanduser` and
  missing keys. For `wsnew.py` and `audit-new.py` a configuration is an
  input, either missing, unreadable or loaded.
- AuditArchive.Config models only a loaded configuration. The exits of
  `load_config` for a missing or unreadable file
  (scripts/audit-archive.py:27-40) are not modelled for this script; of its
  body only the empty-setting rule for the database and key file is.
- Argument parsing is reduced to its outcome. `audit-new.py` rejects an
  unknown template with status 2, and `audit-archive.py` rejects an empty
  path list with status 2. The `Unknown template` branch (lines 88-91)
  cannot be reached, and `AuditNew.Execute` proves it.
- File formats are not modelled: the 7z container, compression and
  encryption, and the KeePass file format. A `py7zr` archive is the list of
  its member names and its password. A KeePass database is its group names
  and entries.
- `pykeepass` is modelled only as far as the calls the script makes.
  Whether opening, `add_entry` and `save` succeed is an input. `root_group`
  and group nesting are left out.
- These calls become inputs: `getpass`, `os.getlogin`, `subprocess.run` and
  `sudo` (only the command string and its exit status are kept), `is_dir`,
  `is_file`, and the random source behind `secrets`. The shell that runs the
  command is modelled only as far as splitting on spaces: tabs, newlines,
  quotes and metacharacters such as `;` and `$` in a project path are not.
- The `rglob` walk is an input: the list of files, already filtered by
  `is_file`. Its order, symbolic-link following and hidden files are not
  modelled, and neither is the link between a target and the files walked
  under it.
- I/O errors while writing an archive are left out. The only exception the
  walk raises in the model is the `relative_to` error.
- Printed messages are kept as tags without their text. The exception text
  printed by `except ... print(e)` is the error kind only.
- `Paths` compares paths syntactically. The POSIX "//" root, "..", and the
  aliasing of relative and absolute paths through the working directory are
  not resolved.
- `FileSystem` knows only which paths exist and which are links. Dangling
  links, regular files in place of a parent directory, and permissions are
  left out.
- AuditArchive.RerunLosesPassword: requires that no entry has the archive name
  as its user name. The script's own check looks for that, and any such entry
  would make the target be skipped instead.
- AuditArchive.ProbeOk: requires the random source to supply exactly the 12
  bytes `token_hex(12)` asks for.
- Concurrency is left out: two runs working on the same projects or the same
  database at once.
