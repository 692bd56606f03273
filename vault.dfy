/**
 * The KeePass database session that `scripts/audit-archive.py` drives
 * through `pykeepass`: groups, entries, and the copy last written to disk by
 * `save()`. Only the calls the script makes are modelled; whether `add_entry`
 * and `save` succeed is an input.
 */
module Vault {
  import opened Wrappers

  /**
   * One entry as `add_entry(group, title, username, password)` creates it;
   * `group` is the group handle that was passed (`None` for a missing group).
   */
  datatype Entry = Entry(group: Option<nat>, title: string, username: string, password: string)

  /** The database contents: group names in search order, and the entries. */
  datatype Db = Db(groups: seq<string>, entries: seq<Entry>)

  /** `find_groups(name=name, first=True)`: the first group with that name. */
  function FindGroup(groups: seq<string>, name: string): (r: Option<nat>)
    ensures r.None? <==> name !in groups
    ensures r.Some? ==> r.value < |groups| && groups[r.value] == name
                        && forall j :: 0 <= j < r.value ==> groups[j] != name
  {
    if groups == [] then None
    else if groups[0] == name then Some(0)
    else match FindGroup(groups[1..], name)
      case None => None
      case Some(i) => Some(i + 1)
  }

  /**
   * `add_entry` (without `force_creation`) refuses an entry whose title and
   * user name are those of an entry already directly in the same group.
   */
  predicate HasDuplicate(entries: seq<Entry>, group: Option<nat>, title: string, username: string) {
    exists i :: 0 <= i < |entries| && entries[i].group == group && entries[i].title == title
                && entries[i].username == username
  }

  /** `find_entries_by_username(username)` is non-empty: some entry has exactly that user name. */
  predicate HasUsername(db: Db, username: string) {
    exists i :: 0 <= i < |db.entries| && db.entries[i].username == username
  }

  /** An open `PyKeePass` object. */
  class Session {
    var groups: seq<string>
    var entries: seq<Entry>
    /** What the database file holds: the contents at the last successful `save()`. */
    var stored: Db

    function Contents(): Db
      reads this
    {
      Db(groups, entries)
    }

    /** `PyKeePass(db, password, keyfile)` on a file holding `db`. */
    constructor Open(db: Db)
      ensures Contents() == db && stored == db
    {
      groups := db.groups;
      entries := db.entries;
      stored := db;
    }

    /** `add_group(root_group, name)`: a new group, found after all existing ones. */
    method AddGroup(name: string)
      modifies this
      ensures groups == old(groups) + [name]
      ensures entries == old(entries) && stored == old(stored)
    {
      groups := groups + [name];
    }

    /**
     * `add_entry(group, title, username, password)`. It raises with a `None`
     * group handle (there is no group to append to) and for a duplicate in
     * that group; otherwise `ok` says whether it succeeds.
     */
    method AddEntry(group: Option<nat>, title: string, username: string, password: string, ok: bool)
      returns (added: bool)
      modifies this
      ensures added <==> group.Some? && !HasDuplicate(old(entries), group, title, username) && ok
      ensures entries == if added then old(entries) + [Entry(group, title, username, password)] else old(entries)
      ensures groups == old(groups) && stored == old(stored)
    {
      added := group.Some? && !HasDuplicate(entries, group, title, username) && ok;
      if added {
        entries := entries + [Entry(group, title, username, password)];
      }
    }

    /** `save()`: on success the file holds the session's contents; `ok` says whether it succeeds. */
    method Save(ok: bool) returns (saved: bool)
      modifies this
      ensures saved == ok
      ensures stored == if ok then Contents() else old(stored)
      ensures groups == old(groups) && entries == old(entries)
    {
      saved := ok;
      if ok {
        stored := Contents();
      }
    }
  }
}
