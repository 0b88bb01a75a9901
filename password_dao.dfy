/** PasswordEntryDao: the entry and credential tables. Each operation is a transition on
    `Tables` stated as a function here; the DAO's methods apply it to the database's fields.
    SQLite semantics carried over: REPLACE deletes a conflicting row before inserting (and a
    deleted entry takes its credentials with it, by the cascading foreign key), @Update and
    @Delete match on the primary key and do nothing when it is absent, and a statement that
    breaks the foreign key aborts its transaction. */
module PasswordDao {
  import opened Wrappers
  import opened Entities
  import opened Database

  /** Every credential row of `rows` references an existing entry. */
  predicate AllReference(rows: seq<Credential>, es: EntryTable) {
    forall i :: 0 <= i < |rows| ==> rows[i].entryId in es
  }

  /** Row `i` is the last one of `rows` carrying its id (the one a sequence of upserts keeps). */
  ghost predicate LastWithId(rows: seq<Credential>, i: int)
    requires 0 <= i < |rows|
  {
    forall j :: i < j < |rows| ==> rows[j].id != rows[i].id
  }

  /** `DELETE FROM credentials WHERE entryId = :entryId`, which is also what the cascade of an
      entry's deletion does to the credential table. */
  function WithoutEntry(cs: CredentialTable, entryId: string): (r: CredentialTable)
    ensures forall k :: k in r ==> k in cs && r[k] == cs[k]
    ensures forall k :: k in cs ==> (k in r <==> cs[k].entryId != entryId)
    ensures CredentialsOf(r, entryId) == {}
    ensures forall e :: e != entryId ==> CredentialsOf(r, e) == CredentialsOf(cs, e)
    ensures CredentialsKeyed(cs) ==> CredentialsKeyed(r)
  {
    map k | k in cs && cs[k].entryId != entryId :: cs[k]
  }

  /** The rows written one after the other with INSERT OR REPLACE: every id of `rows` ends up
      present holding one of `rows`, and every other row is kept. */
  function UpsertAll(cs: CredentialTable, rows: seq<Credential>): (r: CredentialTable)
    ensures r.Keys == cs.Keys + CredentialIds(rows)
    ensures forall k :: k in cs && k !in CredentialIds(rows) ==> r[k] == cs[k]
    ensures forall k :: k in CredentialIds(rows) ==> r[k] in rows
    ensures CredentialsKeyed(cs) ==> CredentialsKeyed(r)
    decreases |rows|
  {
    if rows == [] then cs
    else
      var front := rows[..|rows| - 1];
      var last := rows[|rows| - 1];
      assert CredentialIds(rows) == CredentialIds(front) + {last.id} by {
        assert forall i :: 0 <= i < |front| ==> front[i] == rows[i];
      }
      UpsertAll(cs, front)[last.id := last]
  }

  /** Of several rows with one id, the last one written is the one kept. */
  lemma {:induction false} UpsertAllKeepsLast(cs: CredentialTable, rows: seq<Credential>, i: nat)
    requires i < |rows| && LastWithId(rows, i)
    ensures UpsertAll(cs, rows)[rows[i].id] == rows[i]
    decreases |rows|
  {
    var front := rows[..|rows| - 1];
    if i < |rows| - 1 {
      assert front[i] == rows[i];
      assert LastWithId(front, i) by {
        forall j | i < j < |front| ensures front[j].id != front[i].id {
          assert front[j] == rows[j];
        }
      }
      UpsertAllKeepsLast(cs, front, i);
    }
  }

  /** Writing one more row is one more step of UpsertAll. */
  lemma UpsertAllStep(cs: CredentialTable, rows: seq<Credential>, i: nat)
    requires i < |rows|
    ensures UpsertAll(cs, rows[..i + 1]) == UpsertAll(cs, rows[..i])[rows[i].id := rows[i]]
  {
    assert rows[..i + 1][..i] == rows[..i];
  }

  /** Upserting rows that all reference existing entries keeps the foreign key. */
  lemma UpsertAllKeepsForeignKey(es: EntryTable, cs: CredentialTable, rows: seq<Credential>)
    requires ForeignKeysHold(es, cs) && AllReference(rows, es)
    ensures ForeignKeysHold(es, UpsertAll(cs, rows))
  {
    var r := UpsertAll(cs, rows);
    forall k | k in r
      ensures r[k].entryId in es
    {
      if k in CredentialIds(rows) {
        assert r[k] in rows;
      }
    }
  }

  /** insertEntry (REPLACE): the entry row is written; an existing row with that id is deleted
      first, and its credentials with it. */
  function WithEntry(t: Tables, entry: PasswordEntry): (r: Tables)
    ensures r.entries == t.entries[entry.id := entry] && r.folders == t.folders
    ensures entry.id in t.entries ==> r.credentials == WithoutEntry(t.credentials, entry.id)
    ensures entry.id !in t.entries ==> r.credentials == t.credentials
    ensures Schema(t) ==> Schema(r)
  {
    if entry.id in t.entries then
      Tables(t.entries[entry.id := entry], WithoutEntry(t.credentials, entry.id), t.folders)
    else
      t.(entries := t.entries[entry.id := entry])
  }

  /** updateEntry: the row with the entry's id is overwritten; without one nothing changes. */
  function WithEntryUpdated(t: Tables, entry: PasswordEntry): (r: Tables)
    ensures r.entries.Keys == t.entries.Keys && r.credentials == t.credentials && r.folders == t.folders
    ensures entry.id in t.entries ==> r.entries[entry.id] == entry
    ensures forall k :: k in t.entries && k != entry.id ==> r.entries[k] == t.entries[k]
    ensures entry.id !in t.entries ==> r == t
    ensures Schema(t) ==> Schema(r)
  {
    if entry.id in t.entries then t.(entries := t.entries[entry.id := entry]) else t
  }

  /** deleteEntry: the row with the entry's id goes, and by the cascade exactly its credentials. */
  function WithoutEntryRow(t: Tables, entryId: string): (r: Tables)
    ensures r.entries == t.entries - {entryId} && r.folders == t.folders
    ensures CredentialsOf(r.credentials, entryId) == {}
    ensures forall e :: e != entryId ==> CredentialsOf(r.credentials, e) == CredentialsOf(t.credentials, e)
    ensures Schema(t) ==> Schema(r)
  {
    Tables(t.entries - {entryId}, WithoutEntry(t.credentials, entryId), t.folders)
  }

  /** insertCredentials: all rows upserted, or (a row naming no entry) the statement aborts. */
  function WithCredentials(t: Tables, rows: seq<Credential>): (r: Option<Tables>)
    ensures r.Some? <==> AllReference(rows, t.entries)
    ensures r.Some? ==> r.value.entries == t.entries && r.value.folders == t.folders
    ensures r.Some? ==> r.value.credentials == UpsertAll(t.credentials, rows)
    ensures r.Some? && Schema(t) ==> Schema(r.value)
  {
    if AllReference(rows, t.entries) then Some(t.(credentials := UpsertAll(t.credentials, rows)))
    else None
  }

  /** saveEntryWithCredentials: insertEntry, deleteCredentialsForEntry, insertCredentials in one
      transaction; None is the rolled-back transaction. */
  function Saved(t: Tables, entry: PasswordEntry, rows: seq<Credential>): (r: Option<Tables>)
    ensures r.Some? <==> AllReference(rows, t.entries[entry.id := entry])
    ensures r.Some? && Schema(t) ==> Schema(r.value)
  {
    var written := WithEntry(t, entry);
    WithCredentials(written.(credentials := WithoutEntry(written.credentials, entry.id)), rows)
  }

  /** deleteAll: `DELETE FROM password_entries`, which cascades to every credential. */
  function WithoutEntries(t: Tables): (r: Tables)
    ensures r.entries == map[] && r.credentials == map[] && r.folders == t.folders
    ensures Schema(t) ==> Schema(r)
  {
    t.(entries := map[], credentials := map[])
  }

  /** Upserting rows that all belong to `entryId` into a table holding none of its rows: the
      entry's credentials become exactly the rows. */
  lemma UpsertedOwnRows(cleared: CredentialTable, rows: seq<Credential>, entryId: string)
    requires CredentialsKeyed(cleared) && DistinctIds(rows)
    requires forall k :: k in cleared ==> cleared[k].entryId != entryId
    requires forall i :: 0 <= i < |rows| ==> rows[i].entryId == entryId
    ensures CredentialsOf(UpsertAll(cleared, rows), entryId) == (set c | c in rows)
  {
    var r := UpsertAll(cleared, rows);
    forall c | c in rows
      ensures c in CredentialsOf(r, entryId)
    {
      var i :| 0 <= i < |rows| && rows[i] == c;
      UpsertAllKeepsLast(cleared, rows, i);
    }
    forall c | c in CredentialsOf(r, entryId)
      ensures c in rows
    {
      var k :| k in r && r[k].entryId == entryId && r[k] == c;
      assert k in CredentialIds(rows);
    }
  }

  /** The same upsert leaves another entry only those of its credentials whose ids no row
      reuses. */
  lemma UpsertedOtherRows(cleared: CredentialTable, rows: seq<Credential>, entryId: string, e: string)
    requires CredentialsKeyed(cleared) && e != entryId
    requires forall i :: 0 <= i < |rows| ==> rows[i].entryId == entryId
    ensures CredentialsOf(UpsertAll(cleared, rows), e)
              == (set c | c in CredentialsOf(cleared, e) && c.id !in CredentialIds(rows))
  {
    var r := UpsertAll(cleared, rows);
    forall c | c in CredentialsOf(r, e)
      ensures c in CredentialsOf(cleared, e) && c.id !in CredentialIds(rows)
    {
      var k :| k in r && r[k].entryId == e && r[k] == c;
      assert forall x :: x in rows ==> x.entryId == entryId;
      assert k !in CredentialIds(rows);
      assert cleared[k] in CredentialsOf(cleared, e);
    }
    forall c | c in CredentialsOf(cleared, e) && c.id !in CredentialIds(rows)
      ensures c in CredentialsOf(r, e)
    {
      var k :| k in cleared && cleared[k].entryId == e && cleared[k] == c;
      assert r[k] == c;
    }
  }

  /** Saving an entry whose new credentials all carry its id (with distinct ids) always commits;
      afterwards the entry row is `entry`, its credentials are exactly `rows`, the other
      entries' rows are as before, and another entry's credential is lost only when one of
      `rows` reuses its id. */
  lemma SaveEntryReplacesCredentials(t: Tables, entry: PasswordEntry, rows: seq<Credential>)
    requires Schema(t) && DistinctIds(rows)
    requires forall i :: 0 <= i < |rows| ==> rows[i].entryId == entry.id
    ensures Saved(t, entry, rows).Some?
    ensures var r := Saved(t, entry, rows).value;
            && r.entries == t.entries[entry.id := entry]
            && r.folders == t.folders
            && CredentialsOf(r.credentials, entry.id) == (set c | c in rows)
            && forall e :: e != entry.id ==>
                 CredentialsOf(r.credentials, e) == (set c | c in CredentialsOf(t.credentials, e) && c.id !in CredentialIds(rows))
  {
    var written := WithEntry(t, entry);
    var cleared := WithoutEntry(written.credentials, entry.id);
    assert CredentialsKeyed(cleared);
    var r := Saved(t, entry, rows).value;
    assert r.credentials == UpsertAll(cleared, rows);
    UpsertedOwnRows(cleared, rows, entry.id);
    forall e | e != entry.id
      ensures CredentialsOf(r.credentials, e) == (set c | c in CredentialsOf(t.credentials, e) && c.id !in CredentialIds(rows))
    {
      assert CredentialsOf(cleared, e) == CredentialsOf(t.credentials, e);
      UpsertedOtherRows(cleared, rows, entry.id, e);
    }
  }

  /** When none of the new ids is already used by another entry's credential, every other
      entry keeps exactly the credentials it had. */
  lemma SaveEntryKeepsOtherEntries(t: Tables, entry: PasswordEntry, rows: seq<Credential>)
    requires Schema(t) && DistinctIds(rows)
    requires forall i :: 0 <= i < |rows| ==> rows[i].entryId == entry.id
    requires forall k :: k in CredentialIds(rows) && k in t.credentials ==> t.credentials[k].entryId == entry.id
    ensures Saved(t, entry, rows).Some?
    ensures forall e :: e != entry.id ==>
              CredentialsOf(Saved(t, entry, rows).value.credentials, e) == CredentialsOf(t.credentials, e)
  {
    SaveEntryReplacesCredentials(t, entry, rows);
    forall e | e != entry.id
      ensures (set c | c in CredentialsOf(t.credentials, e) && c.id !in CredentialIds(rows)) == CredentialsOf(t.credentials, e)
    {
      forall c | c in CredentialsOf(t.credentials, e)
        ensures c.id !in CredentialIds(rows)
      {
        var k :| k in t.credentials && t.credentials[k].entryId == e && t.credentials[k] == c;
        assert k == c.id;
      }
    }
  }

  /** A credential naming an entry that exists neither before nor in the save rolls the
      whole transaction back. */
  lemma SaveRejectsDanglingCredential(t: Tables, entry: PasswordEntry, rows: seq<Credential>, i: nat)
    requires i < |rows| && rows[i].entryId != entry.id && rows[i].entryId !in t.entries
    ensures Saved(t, entry, rows).None?
  {
  }

  class PasswordEntryDao {
    const db: AppDatabase

    constructor (db: AppDatabase)
      ensures this.db == db
    {
      this.db := db;
    }

    method InsertEntry(entry: PasswordEntry)
      requires db.Valid()
      modifies db
      ensures db.Valid() && db.Snapshot() == WithEntry(old(db.Snapshot()), entry)
    {
      if entry.id in db.entries {
        db.credentials := WithoutEntry(db.credentials, entry.id);
      }
      db.entries := db.entries[entry.id := entry];
    }

    method UpdateEntry(entry: PasswordEntry)
      requires db.Valid()
      modifies db
      ensures db.Valid() && db.Snapshot() == WithEntryUpdated(old(db.Snapshot()), entry)
    {
      if entry.id in db.entries {
        db.entries := db.entries[entry.id := entry];
      }
    }

    /** @Delete matches on the primary key only. */
    method DeleteEntry(entry: PasswordEntry)
      requires db.Valid()
      modifies db
      ensures db.Valid() && db.Snapshot() == WithoutEntryRow(old(db.Snapshot()), entry.id)
    {
      db.credentials := WithoutEntry(db.credentials, entry.id);
      db.entries := db.entries - {entry.id};
    }

    /** The rows are written in order inside the statement's transaction, which commits only
        if no row breaks the foreign key; otherwise it is rolled back and `ok` is false (the
        exception the caller sees). */
    method InsertCredentials(rows: seq<Credential>) returns (ok: bool)
      requires db.Valid()
      modifies db
      ensures db.Valid()
      ensures var r := WithCredentials(old(db.Snapshot()), rows);
              && ok == r.Some?
              && db.Snapshot() == (if ok then r.value else old(db.Snapshot()))
    {
      var before := db.credentials;
      var written := before;
      var i := 0;
      while i < |rows|
        invariant 0 <= i <= |rows|
        invariant forall j :: 0 <= j < i ==> rows[j].entryId in db.entries
        invariant written == UpsertAll(before, rows[..i])
        invariant unchanged(db)
      {
        if rows[i].entryId !in db.entries {
          assert !AllReference(rows, db.entries);
          return false;
        }
        UpsertAllStep(before, rows, i);
        written := written[rows[i].id := rows[i]];
        i := i + 1;
      }
      assert rows[..i] == rows;
      UpsertAllKeepsForeignKey(db.entries, before, rows);
      db.credentials := written;
      ok := true;
    }

    method DeleteCredentialsForEntry(entryId: string)
      requires db.Valid()
      modifies db
      ensures db.Valid() && db.Snapshot() == old(db.Snapshot()).(credentials := WithoutEntry(old(db.credentials), entryId))
    {
      db.credentials := WithoutEntry(db.credentials, entryId);
    }

    /** The @Relation list of one entry: its credentials, each once, in no fixed order. */
    method CredentialsFor(entryId: string) returns (list: seq<Credential>)
      requires db.Valid()
      ensures IsRelation(list, db.credentials, entryId)
    {
      list := [];
      var todo := db.credentials.Keys;
      while todo != {}
        invariant todo <= db.credentials.Keys
        invariant DistinctIds(list)
        invariant forall c :: c in list ==> c in CredentialsOf(db.credentials, entryId) && c.id !in todo
        invariant forall k :: k in db.credentials && k !in todo && db.credentials[k].entryId == entryId ==>
                    db.credentials[k] in list
        decreases todo
      {
        var k :| k in todo;
        var c := db.credentials[k];
        if c.entryId == entryId {
          list := list + [c];
        }
        todo := todo - {k};
      }
    }

    /** getEntryWithCredentials: the entry with that id joined with its credentials, or null. */
    method GetEntryWithCredentials(entryId: string) returns (r: Option<PasswordEntryWithCredentials>)
      requires db.Valid()
      ensures r.None? <==> entryId !in db.entries
      ensures r.Some? ==> r.value.entry.id == entryId && IsEntryWithCredentials(r.value, db.entries, db.credentials)
    {
      if entryId !in db.entries {
        return None;
      }
      var list := CredentialsFor(entryId);
      r := Some(PasswordEntryWithCredentials(db.entries[entryId], list));
    }

    /** The entries whose folderId is `folder` (None: `folderId IS NULL`), each joined. */
    method SelectEntries(folder: Option<string>) returns (rows: seq<PasswordEntryWithCredentials>)
      requires db.Valid()
      ensures IsSelection(rows, db.entries, db.credentials, folder)
    {
      rows := [];
      var todo := db.entries.Keys;
      while todo != {}
        invariant todo <= db.entries.Keys
        invariant forall i :: 0 <= i < |rows| ==>
                    IsEntryWithCredentials(rows[i], db.entries, db.credentials) && rows[i].entry.folderId == folder
                    && rows[i].entry.id !in todo
        invariant forall i, j :: 0 <= i < j < |rows| ==> rows[i].entry.id != rows[j].entry.id
        invariant EntryIds(rows) == set k | k in db.entries && k !in todo && db.entries[k].folderId == folder
        decreases todo
      {
        var k :| k in todo;
        var e := db.entries[k];
        assert e.id == k;
        ghost var before := rows;
        if e.folderId == folder {
          var list := CredentialsFor(k);
          rows := rows + [PasswordEntryWithCredentials(e, list)];
          assert EntryIds(rows) == EntryIds(before) + {k} by {
            assert forall i :: 0 <= i < |before| ==> rows[i] == before[i];
            assert rows[|before|].entry.id == k;
          }
        }
        todo := todo - {k};
      }
    }

    method GetRootEntriesWithCredentials() returns (rows: seq<PasswordEntryWithCredentials>)
      requires db.Valid()
      ensures IsSelection(rows, db.entries, db.credentials, None)
    {
      rows := SelectEntries(None);
    }

    method GetEntriesWithCredentialsInFolder(folderId: string) returns (rows: seq<PasswordEntryWithCredentials>)
      requires db.Valid()
      ensures IsSelection(rows, db.entries, db.credentials, Some(folderId))
    {
      rows := SelectEntries(Some(folderId));
    }

    method DeleteAll()
      requires db.Valid()
      modifies db
      ensures db.Valid() && db.Snapshot() == WithoutEntries(old(db.Snapshot()))
    {
      db.entries := map[];
      db.credentials := map[];
    }

    /** The @Transaction helper: on failure of the last step everything is rolled back. */
    method SaveEntryWithCredentials(entry: PasswordEntry, rows: seq<Credential>) returns (ok: bool)
      requires db.Valid()
      modifies db
      ensures db.Valid()
      ensures var r := Saved(old(db.Snapshot()), entry, rows);
              && ok == r.Some?
              && db.Snapshot() == (if ok then r.value else old(db.Snapshot()))
    {
      var before := db.Snapshot();
      InsertEntry(entry);
      DeleteCredentialsForEntry(entry.id);
      ok := InsertCredentials(rows);
      if !ok {
        db.entries := before.entries;
        db.credentials := before.credentials;
      }
    }
  }
}
