/** MainViewModel: the home screen's one-time load of folders and root entries into a single
    item list, and the bulk delete and move of a selection of items. */
module MainScreen {
  import opened Wrappers
  import opened Entities
  import opened Database
  import opened PasswordDao
  import opened Folders
  import opened Repository

  datatype MainScreenUiState = MainScreenUiState(isLoading: bool := true, homeItems: seq<HomeItem> := [],
                                                 error: Option<string> := None)

  /** combineAndMap: the folders as folder items, then the entries as entry items. */
  function CombineAndMap(folders: seq<Folder>, entries: seq<PasswordEntryWithCredentials>): (r: seq<HomeItem>)
    ensures |r| == |folders| + |entries|
    ensures forall i :: 0 <= i < |folders| ==> r[i] == FolderItem(folders[i])
    ensures forall i :: 0 <= i < |entries| ==> r[|folders| + i] == PasswordEntryItem(entries[i])
  {
    seq(|folders|, i requires 0 <= i < |folders| => FolderItem(folders[i]))
    + seq(|entries|, i requires 0 <= i < |entries| => PasswordEntryItem(entries[i]))
  }

  /** The folders an item list shows, in order. */
  function FolderPart(items: seq<HomeItem>): seq<Folder> {
    if items == [] then []
    else (if items[0].FolderItem? then [items[0].folder] else []) + FolderPart(items[1..])
  }

  /** The entries an item list shows, in order. */
  function EntryPart(items: seq<HomeItem>): seq<PasswordEntryWithCredentials> {
    if items == [] then []
    else (if items[0].PasswordEntryItem? then [items[0].entryWithCredentials] else []) + EntryPart(items[1..])
  }

  lemma {:induction false} FolderPartOfCombined(folders: seq<Folder>, entries: seq<PasswordEntryWithCredentials>)
    ensures FolderPart(CombineAndMap(folders, entries)) == folders
    decreases |folders| + |entries|
  {
    var r := CombineAndMap(folders, entries);
    if folders != [] {
      FolderPartOfCombined(folders[1..], entries);
      assert r[1..] == CombineAndMap(folders[1..], entries);
    } else if entries != [] {
      FolderPartOfCombined([], entries[1..]);
      assert r[1..] == CombineAndMap([], entries[1..]);
    }
  }

  lemma {:induction false} EntryPartOfCombined(folders: seq<Folder>, entries: seq<PasswordEntryWithCredentials>)
    ensures EntryPart(CombineAndMap(folders, entries)) == entries
    decreases |folders| + |entries|
  {
    var r := CombineAndMap(folders, entries);
    if folders != [] {
      EntryPartOfCombined(folders[1..], entries);
      assert r[1..] == CombineAndMap(folders[1..], entries);
    } else if entries != [] {
      EntryPartOfCombined([], entries[1..]);
      assert r[1..] == CombineAndMap([], entries[1..]);
      assert [entries[0]] + entries[1..] == entries;
    }
  }

  /** The combined list loses nothing and invents nothing: picking its folders and its entries
      back out gives the two inputs; and no folder comes after an entry. */
  lemma CombineAndMapSplits(folders: seq<Folder>, entries: seq<PasswordEntryWithCredentials>)
    ensures FolderPart(CombineAndMap(folders, entries)) == folders
    ensures EntryPart(CombineAndMap(folders, entries)) == entries
    ensures var r := CombineAndMap(folders, entries);
            forall i, j :: 0 <= i < j < |r| && r[j].FolderItem? ==> r[i].FolderItem?
  {
    FolderPartOfCombined(folders, entries);
    EntryPartOfCombined(folders, entries);
  }

  /** The ids of the folder items and of the entry items of a selection. */
  function FolderItemIds(items: set<HomeItem>): set<string> {
    set it | it in items && it.FolderItem? :: it.folder.id
  }

  function EntryItemIds(items: set<HomeItem>): set<string> {
    set it | it in items && it.PasswordEntryItem? :: it.entryWithCredentials.entry.id
  }

  /** The tables once every selected folder and entry is deleted (an entry with its
      credentials); whatever the order of the deletions, this is where they end. */
  function WithoutItems(t: Tables, items: set<HomeItem>): (r: Tables)
    ensures r.entries.Keys == t.entries.Keys - EntryItemIds(items)
    ensures r.folders.Keys == t.folders.Keys - FolderItemIds(items)
    ensures forall k :: k in r.entries ==> r.entries[k] == t.entries[k]
    ensures forall k :: k in r.folders ==> r.folders[k] == t.folders[k]
    ensures forall e :: e in EntryItemIds(items) ==> CredentialsOf(r.credentials, e) == {}
    ensures forall e :: e !in EntryItemIds(items) ==> CredentialsOf(r.credentials, e) == CredentialsOf(t.credentials, e)
    ensures Schema(t) ==> Schema(r)
  {
    var gone := EntryItemIds(items);
    var r := Tables(map k | k in t.entries && k !in gone :: t.entries[k],
                    map k | k in t.credentials && t.credentials[k].entryId !in gone :: t.credentials[k],
                    map k | k in t.folders && k !in FolderItemIds(items) :: t.folders[k]);
    assert forall e :: e !in gone ==> CredentialsOf(r.credentials, e) == CredentialsOf(t.credentials, e) by {
      forall e | e !in gone
        ensures CredentialsOf(r.credentials, e) == CredentialsOf(t.credentials, e)
      {
        forall c | c in CredentialsOf(t.credentials, e) ensures c in CredentialsOf(r.credentials, e) {
          var k :| k in t.credentials && t.credentials[k].entryId == e && t.credentials[k] == c;
          assert k in r.credentials;
        }
      }
    }
    r
  }

  lemma FolderItemIdsAdd(done: set<HomeItem>, it: HomeItem)
    ensures it.FolderItem? ==> FolderItemIds(done + {it}) == FolderItemIds(done) + {it.folder.id}
    ensures it.FolderItem? ==> EntryItemIds(done + {it}) == EntryItemIds(done)
    ensures it.PasswordEntryItem? ==> FolderItemIds(done + {it}) == FolderItemIds(done)
    ensures it.PasswordEntryItem? ==>
              EntryItemIds(done + {it}) == EntryItemIds(done) + {it.entryWithCredentials.entry.id}
  {
  }

  lemma WithoutFolderItemStep(t: Tables, done: set<HomeItem>, it: HomeItem)
    requires it.FolderItem?
    ensures WithoutItems(t, done + {it}) == WithoutFolder(WithoutItems(t, done), it.folder.id)
  {
    var a := WithoutItems(t, done + {it});
    var c := WithoutFolder(WithoutItems(t, done), it.folder.id);
    FolderItemIdsAdd(done, it);
    assert a.entries == c.entries;
    assert a.credentials == c.credentials;
    assert a.folders == c.folders;
  }

  lemma WithoutEntryItemStep(t: Tables, done: set<HomeItem>, it: HomeItem)
    requires it.PasswordEntryItem?
    ensures WithoutItems(t, done + {it}) == WithoutEntryRow(WithoutItems(t, done), it.entryWithCredentials.entry.id)
  {
    var a := WithoutItems(t, done + {it});
    var c := WithoutEntryRow(WithoutItems(t, done), it.entryWithCredentials.entry.id);
    FolderItemIdsAdd(done, it);
    assert a.entries == c.entries;
    assert a.folders == c.folders;
    assert a.credentials == c.credentials;
  }

  /** Deleting one more item of the selection is one more deletion of the matching kind. */
  lemma WithoutItemsStep(t: Tables, done: set<HomeItem>, it: HomeItem)
    ensures it.FolderItem? ==> WithoutItems(t, done + {it}) == WithoutFolder(WithoutItems(t, done), it.folder.id)
    ensures it.PasswordEntryItem? ==>
              WithoutItems(t, done + {it}) == WithoutEntryRow(WithoutItems(t, done), it.entryWithCredentials.entry.id)
  {
    if it.FolderItem? {
      WithoutFolderItemStep(t, done, it);
    } else {
      WithoutEntryItemStep(t, done, it);
    }
  }

  /** An empty selection deletes nothing. */
  lemma WithoutNoItems(t: Tables)
    ensures WithoutItems(t, {}) == t
  {
    var r := WithoutItems(t, {});
    assert r.entries == t.entries && r.credentials == t.credentials && r.folders == t.folders;
  }

  /** The entry `e` is the snapshot of one of the selected entry items, moved to `folderId`. */
  ghost predicate MovedFrom(items: set<HomeItem>, folderId: Option<string>, e: PasswordEntry) {
    exists it :: it in items && it.PasswordEntryItem? && it.entryWithCredentials.entry.(folderId := folderId) == e
  }

  /** `now` is `before` with the entries of the items in `done` moved to `folderId`: only
      those rows change, each to its item's snapshot with the new folderId. */
  ghost predicate MovedTables(before: Tables, now: Tables, done: set<HomeItem>, folderId: Option<string>) {
    && now.credentials == before.credentials && now.folders == before.folders
    && now.entries.Keys == before.entries.Keys
    && (forall k :: k in before.entries && k !in EntryItemIds(done) ==> now.entries[k] == before.entries[k])
    && (forall k :: k in before.entries && k in EntryItemIds(done) ==>
          now.entries[k].id == k && now.entries[k].folderId == folderId
          && MovedFrom(done, folderId, now.entries[k]))
  }

  /** Moving one more entry item is one `updateEntry` of its snapshot with the new folderId. */
  lemma MovedTablesStep(before: Tables, now: Tables, done: set<HomeItem>, it: HomeItem, folderId: Option<string>)
    requires MovedTables(before, now, done, folderId) && it.PasswordEntryItem?
    ensures MovedTables(before, WithEntryUpdated(now, it.entryWithCredentials.entry.(folderId := folderId)),
                        done + {it}, folderId)
  {
    var e := it.entryWithCredentials.entry.(folderId := folderId);
    var next := WithEntryUpdated(now, e);
    assert EntryItemIds(done + {it}) == EntryItemIds(done) + {e.id};
    assert MovedFrom(done + {it}, folderId, e);
    forall k | k in before.entries && k in EntryItemIds(done) && k != e.id
      ensures MovedFrom(done + {it}, folderId, next.entries[k])
    {
      var w :| w in done && w.PasswordEntryItem? && w.entryWithCredentials.entry.(folderId := folderId) == now.entries[k];
      assert w in done + {it};
    }
  }

  /** A folder item moves nothing. */
  lemma MovedTablesSkip(before: Tables, now: Tables, done: set<HomeItem>, it: HomeItem, folderId: Option<string>)
    requires MovedTables(before, now, done, folderId) && it.FolderItem?
    ensures MovedTables(before, now, done + {it}, folderId)
  {
    assert EntryItemIds(done + {it}) == EntryItemIds(done);
    forall k | k in before.entries && k in EntryItemIds(done)
      ensures MovedFrom(done + {it}, folderId, now.entries[k])
    {
      var w :| w in done && w.PasswordEntryItem? && w.entryWithCredentials.entry.(folderId := folderId) == now.entries[k];
      assert w in done + {it};
    }
  }

  /** The home list shows a sorted listing of the folders followed by the root entries,
      each read and decrypted from the tables of `t`. */
  ghost predicate ShowsHome(items: seq<HomeItem>, t: Tables, p: Crypto.Primitives) {
    exists fs: seq<Folder>, raw: seq<PasswordEntryWithCredentials> ::
      && SortedByName(fs) && ListsFolders(fs, t.folders)
      && IsSelection(raw, t.entries, t.credentials, None)
      && items == CombineAndMap(fs, DecryptAll(p, raw))
  }

  class MainViewModel {
    const repository: PasswordRepository
    var uiState: MainScreenUiState
    var hasLoadedData: bool
    /** The launched load is suspended waiting for the repository's initialisation. */
    var loadPending: bool

    /** A pending load was launched by loadData and keeps the screen in its loading state. */
    ghost predicate Valid()
      reads this
    {
      loadPending ==> hasLoadedData && uiState.isLoading
    }

    constructor (repository: PasswordRepository)
      ensures Valid() && this.repository == repository
      ensures uiState == MainScreenUiState() && !hasLoadedData && !loadPending
    {
      this.repository := repository;
      uiState := MainScreenUiState();
      hasLoadedData := false;
      loadPending := false;
    }

    /** The state the load reaches from `before` once it gets past the await with outcome `g`. */
    ghost predicate LoadedFrom(before: MainScreenUiState, g: Outcome<()>)
      requires repository.Valid()
      reads this, repository, repository.passwordEntryDao, repository.folderDao, repository.securityManager,
            repository.Storage()
    {
      match g
      case Suspended => loadPending && uiState == before.(isLoading := true)
      case Threw(m) => !loadPending && uiState == before.(isLoading := false, error := Some(m))
      case Done(_) =>
        && !loadPending && !uiState.isLoading && uiState.error.None?
        && repository.initialization.Completed?
        && ShowsHome(uiState.homeItems, repository.Db().Snapshot(), repository.securityManager.crypto)
    }

    /** loadData: only the first call launches the load. The initial sequential read of the
        folders and then the root entries becomes the home list; a failure becomes the error. */
    method LoadData()
      requires Valid() && repository.Valid()
      modifies this
      ensures Valid() && hasLoadedData
      ensures old(hasLoadedData) ==> unchanged(this)
      ensures !old(hasLoadedData) ==> LoadedFrom(old(uiState), Gate(repository.initialization, "folderDao"))
    {
      if hasLoadedData {
        return;
      }
      hasLoadedData := true;
      loadPending := true;
      uiState := uiState.(isLoading := true);
      var folders := repository.GetAllFolders();
      Collect(folders);
    }

    /** The suspended load resuming: awaitInitialization rethrows a failure, or the load goes on. */
    method ResumeLoad()
      requires Valid() && repository.Valid()
      modifies this
      ensures Valid() && hasLoadedData == old(hasLoadedData)
      ensures !old(loadPending) ==> unchanged(this)
      ensures old(loadPending) ==> LoadedFrom(old(uiState), AwaitOutcome(repository.initialization))
    {
      if !loadPending {
        return;
      }
      var resumed := AwaitOutcome(repository.initialization);
      match resumed {
        case Suspended =>
        case Threw(m) =>
          loadPending := false;
          uiState := uiState.(isLoading := false, error := Some(m));
        case Done(_) =>
          var folders := repository.GetAllFolders();
          Collect(folders);
      }
    }

    /** The rest of the launched body once the folder read has ended with `folders`. */
    method Collect(folders: Outcome<seq<Folder>>)
      requires Valid() && repository.Valid() && loadPending
      requires Blocked(Gate(repository.initialization, "folderDao"), folders)
      requires repository.initialization.Completed? ==>
                 folders.Done? && SortedByName(folders.value) && ListsFolders(folders.value, repository.Db().folders)
      modifies this
      ensures Valid() && hasLoadedData == old(hasLoadedData)
      ensures LoadedFrom(old(uiState), Gate(repository.initialization, "folderDao"))
    {
      match folders {
        case Suspended =>
        case Threw(m) =>
          loadPending := false;
          uiState := uiState.(isLoading := false, error := Some(m));
        case Done(fs) =>
          var roots := repository.GetRootEntriesWithCredentials();
          ghost var t := repository.Db().Snapshot();
          ghost var p := repository.securityManager.crypto;
          ghost var raw :| IsSelection(raw, t.entries, t.credentials, None) && roots.value == DecryptAll(p, raw);
          loadPending := false;
          uiState := uiState.(isLoading := false, homeItems := CombineAndMap(fs, roots.value), error := None);
          assert ShowsHome(uiState.homeItems, t, p) by {
            assert SortedByName(fs) && ListsFolders(fs, t.folders);
            assert uiState.homeItems == CombineAndMap(fs, DecryptAll(p, raw));
          }
      }
    }

    /** deleteItems: each selected folder is deleted, and each selected entry with its
        credentials. The set's iteration order is not fixed, and does not matter. */
    method DeleteItems(items: set<HomeItem>) returns (r: Outcome<()>)
      requires repository.Valid()
      modifies repository.Storage()
      ensures repository.Valid()
      ensures items == {} ==> r == Done(())
      ensures items != {} && repository.initialization.Incomplete? ==> r.Suspended?
      ensures items != {} && repository.initialization.Failed? ==>
                (r == Threw(LateinitMessage("folderDao")) || r == Threw(LateinitMessage("passwordEntryDao")))
      ensures repository.initialization.Completed? ==>
                r == Done(()) && repository.Db().Snapshot() == WithoutItems(old(repository.Db().Snapshot()), items)
    {
      var todo := items;
      ghost var done: set<HomeItem> := {};
      while todo != {}
        invariant repository.Valid()
        invariant todo !! done && todo + done == items
        invariant !repository.initialization.Completed? ==> done == {}
        invariant repository.initialization.Completed? ==>
                    repository.Db().Snapshot() == WithoutItems(old(repository.Db().Snapshot()), done)
        decreases todo
      {
        var it :| it in todo;
        var step: Outcome<()>;
        if it.FolderItem? {
          step := repository.DeleteFolder(it.folder);
        } else {
          step := repository.DeleteEntry(it.entryWithCredentials.entry);
        }
        if !step.Done? {
          return step;
        }
        WithoutItemsStep(old(repository.Db().Snapshot()), done, it);
        done := done + {it};
        todo := todo - {it};
      }
      r := Done(());
    }

    /** moveItemsToFolder: every selected entry that still exists is rewritten from its item's
        snapshot with the new folderId; folder items are skipped. */
    method MoveItemsToFolder(items: set<HomeItem>, folderId: Option<string>) returns (r: Outcome<()>)
      requires repository.Valid()
      modifies repository.Storage()
      ensures repository.Valid()
      ensures EntryItemIds(items) == {} ==> r == Done(())
      ensures EntryItemIds(items) != {} && !repository.initialization.Completed? ==>
                Blocked(Gate(repository.initialization, "passwordEntryDao"), r) && !r.Done?
      ensures repository.initialization.Completed? ==>
                r == Done(()) && MovedTables(old(repository.Db().Snapshot()), repository.Db().Snapshot(), items, folderId)
    {
      var todo := items;
      ghost var done: set<HomeItem> := {};
      ghost var before := if repository.initialization.Completed? then repository.Db().Snapshot() else EMPTY_TABLES;
      while todo != {}
        invariant repository.Valid()
        invariant todo !! done && todo + done == items
        invariant !repository.initialization.Completed? ==> EntryItemIds(done) == {}
        invariant repository.initialization.Completed? ==>
                    before == old(repository.Db().Snapshot())
                    && MovedTables(before, repository.Db().Snapshot(), done, folderId)
        decreases todo
      {
        var it :| it in todo;
        if it.PasswordEntryItem? {
          var updatedEntry := it.entryWithCredentials.entry.(folderId := folderId);
          ghost var now := if repository.initialization.Completed? then repository.Db().Snapshot() else EMPTY_TABLES;
          var step := repository.UpdateEntry(updatedEntry);
          if !step.Done? {
            assert updatedEntry.id in EntryItemIds(items);
            return step;
          }
          MovedTablesStep(before, now, done, it, folderId);
        } else {
          if repository.initialization.Completed? {
            MovedTablesSkip(before, repository.Db().Snapshot(), done, it, folderId);
          }
          assert EntryItemIds(done + {it}) == EntryItemIds(done);
        }
        done := done + {it};
        todo := todo - {it};
      }
      r := Done(());
    }
  }
}
