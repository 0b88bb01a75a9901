/** The encrypted Room database and DatabaseProvider, the process-wide holder that opens it
    once. The database is its three tables held in fields; the DAOs in the neighbouring
    modules change them. */
module Database {
  import opened Crypto
  import opened Entities
  import opened Security

  /** The opened database: the key it was opened with and the current table contents. */
  class AppDatabase {
    const passphrase: Bytes
    var entries: EntryTable
    var credentials: CredentialTable
    var folders: FolderTable

    ghost predicate Valid()
      reads this
    {
      Schema(Snapshot())
    }

    function Snapshot(): Tables
      reads this
    {
      Tables(entries, credentials, folders)
    }

    /** Opening the file keyed with `passphrase`; `onDisk` is what the file already holds. */
    constructor (passphrase: Bytes, onDisk: Tables)
      requires Schema(onDisk)
      ensures Valid() && this.passphrase == passphrase && Snapshot() == onDisk
    {
      this.passphrase := passphrase;
      entries := onDisk.entries;
      credentials := onDisk.credentials;
      folders := onDisk.folders;
    }
  }

  /** buildDatabase: the SQLCipher key is the UTF-8 bytes of the passphrase the security
      manager hands out (creating and storing one on the first run). */
  method BuildDatabase(sm: SecurityManager, random: Bytes, iv: Bytes, onDisk: Tables) returns (db: AppDatabase)
    requires sm.Valid() && Schema(onDisk)
    modifies sm
    ensures sm.Valid() && fresh(db) && db.Valid() && db.Snapshot() == onDisk
    ensures var step := PassphraseStep(sm.crypto, old(sm.prefs), random, iv);
            && db.passphrase == sm.crypto.utf8Encode(step.passphrase)
            && sm.prefs == step.prefs
  {
    var passphrase := sm.GetDatabasePassphrase(random, iv);
    db := new AppDatabase(sm.crypto.utf8Encode(passphrase), onDisk);
  }

  /** DatabaseProvider: `instance` is null until the first getInstance and never changes after. */
  class DatabaseProvider {
    var instance: AppDatabase?

    ghost predicate Valid()
      reads this, instance
    {
      instance != null ==> instance.Valid()
    }

    constructor ()
      ensures Valid() && instance == null
    {
      instance := null;
    }

    /** getInstance: a stored instance is returned as it is, without touching the security
        manager; otherwise one is built, stored and returned. Calls are sequential here, so the
        second null test taken under the mutex always sees what the first saw. */
    method GetInstance(sm: SecurityManager, random: Bytes, iv: Bytes, onDisk: Tables) returns (db: AppDatabase)
      requires Valid() && sm.Valid() && Schema(onDisk)
      modifies this, sm
      ensures Valid() && sm.Valid() && instance == db
      ensures old(instance) != null ==> db == old(instance) && sm.prefs == old(sm.prefs)
      ensures old(instance) == null ==>
                var step := PassphraseStep(sm.crypto, old(sm.prefs), random, iv);
                && fresh(db) && db.Snapshot() == onDisk
                && db.passphrase == sm.crypto.utf8Encode(step.passphrase)
                && sm.prefs == step.prefs
    {
      if instance != null {
        return instance;
      }
      db := BuildDatabase(sm, random, iv, onDisk);
      instance := db;
    }
  }

  /** Two openings in two processes (each with its own provider) over the same preferences
      store key the database identically, whatever randomness the second one is given. */
  method Reopen(sm: SecurityManager, random1: Bytes, iv1: Bytes, random2: Bytes, iv2: Bytes, onDisk: Tables)
      returns (first: AppDatabase, second: AppDatabase)
    requires sm.Valid() && Schema(onDisk) && Sound(sm.crypto) && |iv1| == IV_LENGTH
    modifies sm
    ensures first != second && first.passphrase == second.passphrase
  {
    var p1 := new DatabaseProvider();
    first := p1.GetInstance(sm, random1, iv1, onDisk);
    PassphraseIsStable(sm.crypto, old(sm.prefs), random1, iv1, random2, iv2);
    var p2 := new DatabaseProvider();
    second := p2.GetInstance(sm, random2, iv2, onDisk);
  }
}
