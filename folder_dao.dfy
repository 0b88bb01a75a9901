/** FolderDao: the folder table. No foreign key refers to it, so its operations leave the
    entry and credential tables alone. */
module Folders {
  import opened Wrappers
  import opened Entities
  import opened Database

  /** `ORDER BY name ASC` with SQLite's BINARY collation compares the UTF-8 bytes of the names,
      which orders strings exactly as comparing their code points one by one does. */
  predicate NameLe(a: string, b: string)
    decreases |a|
  {
    a == [] || (b != [] && (a[0] < b[0] || (a[0] == b[0] && NameLe(a[1..], b[1..]))))
  }

  lemma {:induction false} NameLeTotal(a: string, b: string)
    ensures NameLe(a, b) || NameLe(b, a)
    decreases |a|
  {
    if a != [] && b != [] && a[0] == b[0] {
      NameLeTotal(a[1..], b[1..]);
    }
  }

  lemma {:induction false} NameLeTransitive(a: string, b: string, c: string)
    requires NameLe(a, b) && NameLe(b, c)
    ensures NameLe(a, c)
    decreases |a|
  {
    if a != [] && b != [] && c != [] && a[0] == b[0] == c[0] {
      NameLeTransitive(a[1..], b[1..], c[1..]);
    }
  }

  ghost predicate SortedByName(fs: seq<Folder>) {
    forall i, j :: 0 <= i < j < |fs| ==> NameLe(fs[i].name, fs[j].name)
  }

  /** A listing of the folder table: every row once and nothing else. */
  ghost predicate ListsFolders(fs: seq<Folder>, folders: FolderTable) {
    && |fs| == |folders|
    && forall f :: f in fs <==> f.id in folders && folders[f.id] == f
  }

  /** One step of building the sorted listing: `f` goes before the first folder whose name
      comes after its own. */
  function InsertByName(f: Folder, fs: seq<Folder>): (r: seq<Folder>)
    requires SortedByName(fs)
    ensures SortedByName(r)
    ensures multiset(r) == multiset(fs) + multiset{f}
    decreases |fs|
  {
    if fs == [] then [f]
    else if NameLe(f.name, fs[0].name) then
      NameLeTransitiveFrom(f, fs);
      [f] + fs
    else
      NameLeTotal(f.name, fs[0].name);
      var rest := InsertByName(f, fs[1..]);
      assert fs == [fs[0]] + fs[1..];
      AllAfter(fs[0], rest, fs[1..] + [f]);
      [fs[0]] + rest
  }

  /** A folder that sorts before the head of a sorted list sorts before all of it. */
  lemma NameLeTransitiveFrom(f: Folder, fs: seq<Folder>)
    requires SortedByName(fs) && fs != [] && NameLe(f.name, fs[0].name)
    ensures SortedByName([f] + fs)
  {
    forall j | 0 < j <= |fs| ensures NameLe(f.name, ([f] + fs)[j].name) {
      if j > 1 {
        NameLeTransitive(f.name, fs[0].name, fs[j - 1].name);
      }
    }
  }

  /** Prepending `h` keeps a list sorted when `h` sorts before every folder of it. */
  lemma AllAfter(h: Folder, rest: seq<Folder>, pool: seq<Folder>)
    requires SortedByName(rest) && multiset(rest) == multiset(pool)
    requires forall x :: x in pool ==> NameLe(h.name, x.name)
    ensures SortedByName([h] + rest)
  {
    forall j | 0 <= j < |rest| ensures NameLe(h.name, rest[j].name) {
      assert rest[j] in multiset(rest);
      assert rest[j] in pool;
    }
    assert forall j :: 0 < j <= |rest| ==> ([h] + rest)[j] == rest[j - 1];
  }

  /** insertFolder (REPLACE): the folder is written under its id. */
  function WithFolder(t: Tables, f: Folder): (r: Tables)
    ensures r.folders.Keys == t.folders.Keys + {f.id} && r.folders[f.id] == f
    ensures forall k :: k in t.folders && k != f.id ==> r.folders[k] == t.folders[k]
    ensures r.entries == t.entries && r.credentials == t.credentials
    ensures Schema(t) ==> Schema(r)
  {
    t.(folders := t.folders[f.id := f])
  }

  /** updateFolder: overwrites the row with that id; nothing changes without one. */
  function WithFolderUpdated(t: Tables, f: Folder): (r: Tables)
    ensures r.folders.Keys == t.folders.Keys
    ensures f.id in t.folders ==> r.folders[f.id] == f
    ensures f.id !in t.folders ==> r == t
    ensures forall k :: k in t.folders && k != f.id ==> r.folders[k] == t.folders[k]
    ensures r.entries == t.entries && r.credentials == t.credentials
    ensures Schema(t) ==> Schema(r)
  {
    if f.id in t.folders then t.(folders := t.folders[f.id := f]) else t
  }

  /** deleteFolder: only the row with that id goes; entries keep their folderId. */
  function WithoutFolder(t: Tables, folderId: string): (r: Tables)
    ensures r.folders.Keys == t.folders.Keys - {folderId}
    ensures forall k :: k in r.folders ==> r.folders[k] == t.folders[k]
    ensures r.entries == t.entries && r.credentials == t.credentials
    ensures Schema(t) ==> Schema(r)
  {
    t.(folders := t.folders - {folderId})
  }

  /** deleteAll on the folder table. */
  function WithoutFolders(t: Tables): (r: Tables)
    ensures r.folders == map[] && r.entries == t.entries && r.credentials == t.credentials
    ensures Schema(t) ==> Schema(r)
  {
    t.(folders := map[])
  }

  /** The entries a screen can reach: those at the root and those in an existing folder. */
  ghost predicate Listed(t: Tables, e: PasswordEntry) {
    e.folderId.None? || e.folderId.value in t.folders
  }

  /** Deleting a folder that still holds entries leaves those entries in the database but in no
      listing: neither at the root nor in any folder that exists. */
  lemma DeletedFolderStrandsItsEntries(t: Tables, folderId: string, k: string)
    requires Schema(t) && k in t.entries && t.entries[k].folderId == Some(folderId)
    ensures var r := WithoutFolder(t, folderId);
            k in r.entries && !Listed(r, r.entries[k])
  {
  }

  class FolderDao {
    const db: AppDatabase

    constructor (db: AppDatabase)
      ensures this.db == db
    {
      this.db := db;
    }

    method InsertFolder(folder: Folder)
      requires db.Valid()
      modifies db
      ensures db.Valid() && db.Snapshot() == WithFolder(old(db.Snapshot()), folder)
    {
      db.folders := db.folders[folder.id := folder];
    }

    method UpdateFolder(folder: Folder)
      requires db.Valid()
      modifies db
      ensures db.Valid() && db.Snapshot() == WithFolderUpdated(old(db.Snapshot()), folder)
    {
      if folder.id in db.folders {
        db.folders := db.folders[folder.id := folder];
      }
    }

    /** @Delete matches on the primary key only. */
    method DeleteFolder(folder: Folder)
      requires db.Valid()
      modifies db
      ensures db.Valid() && db.Snapshot() == WithoutFolder(old(db.Snapshot()), folder.id)
    {
      db.folders := db.folders - {folder.id};
    }

    /** getAllFolders: every folder once, sorted by name. */
    method GetAllFolders() returns (r: seq<Folder>)
      requires db.Valid()
      ensures SortedByName(r) && ListsFolders(r, db.folders)
    {
      r := [];
      var todo := db.folders.Keys;
      while todo != {}
        invariant todo <= db.folders.Keys
        invariant SortedByName(r)
        invariant |r| + |todo| == |db.folders|
        invariant forall f :: f in r <==> f.id in db.folders && f.id !in todo && db.folders[f.id] == f
        decreases todo
      {
        var k :| k in todo;
        var f := db.folders[k];
        assert f.id == k;
        ghost var before := r;
        r := InsertByName(f, r);
        assert forall x :: x in r <==> x in before || x == f by {
          forall x ensures x in r <==> x in multiset(before) || x == f {
            assert x in r <==> x in multiset(r);
          }
        }
        assert |r| == |multiset(r)| == |before| + 1;
        todo := todo - {k};
      }
    }

    method GetFolderById(folderId: string) returns (r: Option<Folder>)
      requires db.Valid()
      ensures r.None? <==> folderId !in db.folders
      ensures r.Some? ==> r.value.id == folderId && r.value == db.folders[folderId]
    {
      if folderId in db.folders {
        r := Some(db.folders[folderId]);
      } else {
        r := None;
      }
    }

    method DeleteAll()
      requires db.Valid()
      modifies db
      ensures db.Valid() && db.Snapshot() == WithoutFolders(old(db.Snapshot()))
    {
      db.folders := map[];
    }
  }
}
