/** The stored records (PasswordEntry, Credential, Folder), the joined view
    PasswordEntryWithCredentials, the home-screen HomeItem, and the schema rules the tables
    obey: each row is keyed by its own id (the primary key) and every credential refers to
    an existing entry (the foreign key whose deletion cascades). */
module Entities {
  import opened Wrappers

  /** An entry; a null folder (the default) places it at the root. */
  datatype PasswordEntry = PasswordEntry(id: string, title: string, folderId: Option<string> := None)

  /** A username/password pair of an entry; `password` is ciphertext at rest. */
  datatype Credential = Credential(id: string, entryId: string, username: string, password: string)

  datatype PasswordEntryWithCredentials = PasswordEntryWithCredentials(entry: PasswordEntry, credentials: seq<Credential>)

  datatype Folder = Folder(id: string, name: string)

  datatype HomeItem = FolderItem(folder: Folder) | PasswordEntryItem(entryWithCredentials: PasswordEntryWithCredentials) {
    function Id(): string {
      match this
      case FolderItem(f) => f.id
      case PasswordEntryItem(e) => e.entry.id
    }
  }

  type EntryTable = map<string, PasswordEntry>
  type CredentialTable = map<string, Credential>
  type FolderTable = map<string, Folder>

  /** Primary keys: every row sits under its own id. */
  ghost predicate EntriesKeyed(es: EntryTable) {
    forall k :: k in es ==> es[k].id == k
  }

  ghost predicate CredentialsKeyed(cs: CredentialTable) {
    forall k :: k in cs ==> cs[k].id == k
  }

  ghost predicate FoldersKeyed(fs: FolderTable) {
    forall k :: k in fs ==> fs[k].id == k
  }

  /** Foreign key: every credential's entryId names an entry. */
  ghost predicate ForeignKeysHold(es: EntryTable, cs: CredentialTable) {
    forall k :: k in cs ==> cs[k].entryId in es
  }

  /** The three tables of the database. */
  datatype Tables = Tables(entries: EntryTable, credentials: CredentialTable, folders: FolderTable)

  const EMPTY_TABLES: Tables := Tables(map[], map[], map[])

  /** What SQLite enforces on every committed state: the primary keys and the foreign key. */
  ghost predicate Schema(t: Tables) {
    && EntriesKeyed(t.entries)
    && CredentialsKeyed(t.credentials)
    && FoldersKeyed(t.folders)
    && ForeignKeysHold(t.entries, t.credentials)
  }

  /** The rows of the credential table that belong to entry `entryId`. */
  ghost function CredentialsOf(cs: CredentialTable, entryId: string): set<Credential> {
    set k | k in cs && cs[k].entryId == entryId :: cs[k]
  }

  ghost function CredentialIds(rows: seq<Credential>): set<string> {
    set i | 0 <= i < |rows| :: rows[i].id
  }

  ghost predicate DistinctIds(rows: seq<Credential>) {
    forall i, j :: 0 <= i < j < |rows| ==> rows[i].id != rows[j].id
  }

  /** The @Relation list: exactly the credentials of `entryId`, each once, in some order. */
  ghost predicate IsRelation(list: seq<Credential>, cs: CredentialTable, entryId: string) {
    && DistinctIds(list)
    && forall c :: c in list <==> c in CredentialsOf(cs, entryId)
  }

  /** A joined row: a stored entry together with its relation. */
  ghost predicate IsEntryWithCredentials(ew: PasswordEntryWithCredentials, es: EntryTable, cs: CredentialTable) {
    && ew.entry.id in es && es[ew.entry.id] == ew.entry
    && IsRelation(ew.credentials, cs, ew.entry.id)
  }

  ghost function EntryIds(rows: seq<PasswordEntryWithCredentials>): set<string> {
    set i | 0 <= i < |rows| :: rows[i].entry.id
  }

  /** A query result over entries whose folderId is `folder` (None: the root), joined. */
  ghost predicate IsSelection(rows: seq<PasswordEntryWithCredentials>, es: EntryTable, cs: CredentialTable,
                              folder: Option<string>) {
    && (forall i :: 0 <= i < |rows| ==> IsEntryWithCredentials(rows[i], es, cs) && rows[i].entry.folderId == folder)
    && (forall i, j :: 0 <= i < j < |rows| ==> rows[i].entry.id != rows[j].entry.id)
    && EntryIds(rows) == set k | k in es && es[k].folderId == folder
  }

  /** A relation list holds as many credentials as the entry has rows: no row is missing
      and none is repeated. */
  lemma {:induction false} RelationHasEveryRowOnce(list: seq<Credential>, cs: CredentialTable, entryId: string)
    requires IsRelation(list, cs, entryId)
    ensures |list| == |CredentialsOf(cs, entryId)|
  {
    DistinctCardinality(list);
    assert (set c | c in list) == CredentialsOf(cs, entryId);
  }

  lemma {:induction false} DistinctCardinality(list: seq<Credential>)
    requires DistinctIds(list)
    ensures |set c | c in list| == |list|
    decreases |list|
  {
    if list != [] {
      var rest := list[1..];
      assert DistinctIds(rest) by {
        forall i, j | 0 <= i < j < |rest| ensures rest[i].id != rest[j].id {
          assert rest[i] == list[i + 1] && rest[j] == list[j + 1];
        }
      }
      DistinctCardinality(rest);
      assert list[0] !in rest by {
        forall i | 0 <= i < |rest| ensures rest[i] != list[0] {
          assert rest[i] == list[i + 1];
        }
      }
      assert (set c | c in list) == (set c | c in rest) + {list[0]} by {
        assert list == [list[0]] + rest;
      }
    }
  }
}
