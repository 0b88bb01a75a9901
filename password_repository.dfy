/** PasswordRepository: the process-wide gateway to the two DAOs. It is initialised once, in
    the background; every data operation first waits for that initialisation, and credential
    passwords are encrypted on the way in and decrypted on the way out. */
module Repository {
  import opened Wrappers
  import opened Crypto
  import opened Security
  import opened Entities
  import opened Database
  import opened PasswordDao
  import opened Folders

  /** The initialisation deferred: not yet completed, completed, or completed exceptionally. */
  datatype Deferred = Incomplete | Completed | Failed(message: string)

  /** How a suspending call ends: with a value, suspended (waiting for the deferred), or
      with an exception carrying `message`. */
  datatype Outcome<+T> = Done(value: T) | Suspended | Threw(message: string)

  /** The message of Kotlin's UninitializedPropertyAccessException for a lateinit field. */
  function LateinitMessage(property: string): string {
    "lateinit property " + property + " has not been initialized"
  }

  /** The message of the SQLite constraint exception a dangling credential raises. */
  const FOREIGN_KEY_FAILED: string := "FOREIGN KEY constraint failed"

  /** What a caller that was suspended in awaitInitialization sees when it resumes. */
  function AwaitOutcome(d: Deferred): (r: Outcome<()>)
    ensures r.Suspended? <==> d.Incomplete?
    ensures r.Done? <==> d.Completed?
    ensures d.Failed? ==> r == Threw(d.message)
  {
    match d
    case Incomplete => Suspended
    case Completed => Done(())
    case Failed(m) => Threw(m)
  }

  /** checkInitialized for a fresh call. awaitInitialization only awaits a deferred that has not
      completed, so after a failed initialisation the call goes on and the first access to a
      lateinit field that was never assigned throws. `property` is the field the operation
      reads first. */
  function Gate(d: Deferred, property: string): (r: Outcome<()>)
    ensures r.Suspended? <==> d.Incomplete?
    ensures r.Done? <==> d.Completed?
    ensures d.Failed? ==> r == Threw(LateinitMessage(property))
  {
    match d
    case Incomplete => Suspended
    case Completed => Done(())
    case Failed(_) => Threw(LateinitMessage(property))
  }

  /** A call that fails the gate has the gate's outcome. */
  predicate Blocked<T>(g: Outcome<()>, r: Outcome<T>) {
    && (g.Suspended? ==> r.Suspended?)
    && (g.Threw? ==> r == Threw(g.message))
  }

  /** The save-side map: each credential with its password encrypted under the password alias,
      the i-th one with nonce `ivOf(i)`; nothing else changes. */
  function EncryptedPasswords(p: Primitives, cs: seq<Credential>, ivOf: nat -> Bytes): (r: seq<Credential>)
    ensures |r| == |cs|
    ensures forall i :: 0 <= i < |cs| ==>
              && r[i].id == cs[i].id && r[i].entryId == cs[i].entryId && r[i].username == cs[i].username
              && r[i].password == Encrypt(p, cs[i].password, PASSWORD_ALIAS, ivOf(i))
  {
    seq(|cs|, i requires 0 <= i < |cs| => cs[i].(password := Encrypt(p, cs[i].password, PASSWORD_ALIAS, ivOf(i))))
  }

  /** The read-side map: each credential with its password decrypted; nothing else changes. */
  function DecryptedPasswords(p: Primitives, cs: seq<Credential>): (r: seq<Credential>)
    ensures |r| == |cs|
    ensures forall i :: 0 <= i < |cs| ==>
              && r[i].id == cs[i].id && r[i].entryId == cs[i].entryId && r[i].username == cs[i].username
              && r[i].password == Decrypt(p, cs[i].password, PASSWORD_ALIAS)
  {
    seq(|cs|, i requires 0 <= i < |cs| => cs[i].(password := Decrypt(p, cs[i].password, PASSWORD_ALIAS)))
  }

  /** decryptCredentials: the entry as it is, its credentials decrypted. */
  function DecryptCredentials(p: Primitives, ew: PasswordEntryWithCredentials): (r: PasswordEntryWithCredentials)
    ensures r.entry == ew.entry && r.credentials == DecryptedPasswords(p, ew.credentials)
  {
    PasswordEntryWithCredentials(ew.entry, DecryptedPasswords(p, ew.credentials))
  }

  /** The `list.map { decryptCredentials(it) }` of the list queries. */
  function DecryptAll(p: Primitives, rows: seq<PasswordEntryWithCredentials>): (r: seq<PasswordEntryWithCredentials>)
    ensures |r| == |rows|
    ensures forall i :: 0 <= i < |rows| ==> r[i] == DecryptCredentials(p, rows[i])
  {
    seq(|rows|, i requires 0 <= i < |rows| => DecryptCredentials(p, rows[i]))
  }

  /** Decrypting what the save side encrypted gives back the credentials that were saved. */
  lemma DecryptEncryptedPasswords(p: Primitives, cs: seq<Credential>, ivOf: nat -> Bytes)
    requires Sound(p) && forall i: nat :: |ivOf(i)| == IV_LENGTH
    ensures DecryptedPasswords(p, EncryptedPasswords(p, cs, ivOf)) == cs
  {
    var r := DecryptedPasswords(p, EncryptedPasswords(p, cs, ivOf));
    forall i | 0 <= i < |cs|
      ensures r[i] == cs[i]
    {
      DecryptEncrypt(p, cs[i].password, PASSWORD_ALIAS, ivOf(i));
    }
  }

  /** A list holding the same credentials as the encrypted ones decrypts to a list holding
      the same credentials as the plaintext ones. */
  lemma DecryptedMembers(p: Primitives, xs: seq<Credential>, enc: seq<Credential>, cs: seq<Credential>)
    requires forall c :: c in xs <==> c in enc
    requires DecryptedPasswords(p, enc) == cs
    ensures forall c :: c in DecryptedPasswords(p, xs) <==> c in cs
  {
    var dec := DecryptedPasswords(p, xs);
    forall c | c in dec
      ensures c in cs
    {
      var j :| 0 <= j < |dec| && dec[j] == c;
      assert xs[j] in enc;
      var i :| 0 <= i < |enc| && enc[i] == xs[j];
      assert cs[i] == c;
    }
    forall c | c in cs
      ensures c in dec
    {
      var i :| 0 <= i < |cs| && cs[i] == c;
      assert enc[i] in xs;
      var j :| 0 <= j < |xs| && xs[j] == enc[i];
      assert dec[j] == c;
    }
  }

  /** Saving an entry through the repository and reading it back: the entry row is the saved
      one, and its decrypted credentials are exactly the saved credentials, each once. */
  lemma ReadBackAfterSave(p: Primitives, t: Tables, entry: PasswordEntry, cs: seq<Credential>,
                          ivOf: nat -> Bytes, read: PasswordEntryWithCredentials)
    requires Sound(p) && forall i: nat :: |ivOf(i)| == IV_LENGTH
    requires Schema(t) && DistinctIds(cs)
    requires forall i :: 0 <= i < |cs| ==> cs[i].entryId == entry.id
    requires Saved(t, entry, EncryptedPasswords(p, cs, ivOf)).Some?
    requires var s := Saved(t, entry, EncryptedPasswords(p, cs, ivOf)).value;
             read.entry.id == entry.id && IsEntryWithCredentials(read, s.entries, s.credentials)
    ensures DecryptCredentials(p, read).entry == entry
    ensures |DecryptCredentials(p, read).credentials| == |cs|
    ensures forall c :: c in DecryptCredentials(p, read).credentials <==> c in cs
  {
    var enc := EncryptedPasswords(p, cs, ivOf);
    assert DistinctIds(enc);
    assert forall i :: 0 <= i < |enc| ==> enc[i].entryId == entry.id;
    SaveEntryReplacesCredentials(t, entry, enc);
    var s := Saved(t, entry, enc).value;
    assert forall c :: c in read.credentials <==> c in enc;
    DecryptEncryptedPasswords(p, cs, ivOf);
    DecryptedMembers(p, read.credentials, enc, cs);
    RelationHasEveryRowOnce(read.credentials, s.credentials, entry.id);
    DistinctCardinality(enc);
  }

  class PasswordRepository {
    var isInitialized: bool
    var initialization: Deferred
    /** The initialisation coroutine has been launched and has not run yet. */
    var launched: bool
    var passwordEntryDao: PasswordEntryDao?
    var folderDao: FolderDao?
    var securityManager: SecurityManager?

    /** The lateinit fields are assigned exactly when initialisation succeeded, and then both
        DAOs work on the same database. */
    ghost predicate Valid()
      reads this, passwordEntryDao, folderDao, securityManager, Storage()
    {
      && (!isInitialized ==> initialization.Incomplete? && !launched)
      && (launched ==> isInitialized && initialization.Incomplete?)
      && (initialization.Completed? <==> passwordEntryDao != null)
      && (initialization.Completed? <==> folderDao != null)
      && (initialization.Completed? <==> securityManager != null)
      && (initialization.Completed? ==>
            && folderDao.db == passwordEntryDao.db
            && passwordEntryDao.db.Valid() && securityManager.Valid())
    }

    /** The database the DAOs change, once there is one. */
    ghost function Storage(): set<object>
      reads this
    {
      if passwordEntryDao != null then {passwordEntryDao.db} else {}
    }

    ghost function Db(): AppDatabase
      reads this
      requires passwordEntryDao != null
    {
      passwordEntryDao.db
    }

    constructor ()
      ensures Valid() && !isInitialized && initialization.Incomplete? && !launched
    {
      isInitialized := false;
      initialization := Incomplete;
      launched := false;
      passwordEntryDao := null;
      folderDao := null;
      securityManager := null;
    }

    /** initialize: only the call that claims the flag launches the initialisation. */
    method Initialize()
      requires Valid()
      modifies this
      ensures Valid() && isInitialized
      ensures old(isInitialized) ==> unchanged(this)
      ensures !old(isInitialized) ==> launched && initialization == old(initialization)
      ensures passwordEntryDao == old(passwordEntryDao) && folderDao == old(folderDao)
      ensures securityManager == old(securityManager)
    {
      if !isInitialized {
        isInitialized := true;
        launched := true;
      }
    }

    /** The launched coroutine running to its end. `failure` is the exception getInstance
        throws, if it does; then the deferred fails and the flag stays claimed, so nothing ever
        retries. Without a launched coroutine nothing happens. */
    method RunInitialization(provider: DatabaseProvider, sm: SecurityManager, random: Bytes, iv: Bytes,
                             onDisk: Tables, failure: Option<string>)
      requires Valid() && provider.Valid() && sm.Valid() && Schema(onDisk)
      modifies this, provider, sm
      ensures Valid() && provider.Valid() && sm.Valid() && !launched && isInitialized == old(isInitialized)
      ensures !old(launched) ==> unchanged(this) && unchanged(provider) && unchanged(sm)
      ensures old(launched) && failure.Some? ==>
                initialization == Failed(failure.value) && unchanged(provider) && unchanged(sm)
      ensures old(launched) && failure.None? ==>
                && initialization.Completed? && securityManager == sm
                && Db() == provider.instance
                && (old(provider.instance) != null ==> Db() == old(provider.instance))
    {
      if !launched {
        return;
      }
      launched := false;
      if failure.Some? {
        initialization := Failed(failure.value);
        return;
      }
      var database := provider.GetInstance(sm, random, iv, onDisk);
      passwordEntryDao := new PasswordEntryDao(database);
      folderDao := new FolderDao(database);
      securityManager := sm;
      initialization := Completed;
    }

    method GetRootEntriesWithCredentials() returns (r: Outcome<seq<PasswordEntryWithCredentials>>)
      requires Valid()
      ensures Blocked(Gate(initialization, "passwordEntryDao"), r)
      ensures initialization.Completed? ==> r.Done? && exists raw: seq<PasswordEntryWithCredentials> ::
                IsSelection(raw, Db().entries, Db().credentials, None)
                && r.value == DecryptAll(securityManager.crypto, raw)
    {
      var gate := Gate(initialization, "passwordEntryDao");
      if !gate.Done? {
        return if gate.Suspended? then Suspended else Threw(gate.message);
      }
      var raw := passwordEntryDao.GetRootEntriesWithCredentials();
      r := Done(DecryptAll(securityManager.crypto, raw));
    }

    method GetEntriesInFolder(folderId: string) returns (r: Outcome<seq<PasswordEntryWithCredentials>>)
      requires Valid()
      ensures Blocked(Gate(initialization, "passwordEntryDao"), r)
      ensures initialization.Completed? ==> r.Done? && exists raw: seq<PasswordEntryWithCredentials> ::
                IsSelection(raw, Db().entries, Db().credentials, Some(folderId))
                && r.value == DecryptAll(securityManager.crypto, raw)
    {
      var gate := Gate(initialization, "passwordEntryDao");
      if !gate.Done? {
        return if gate.Suspended? then Suspended else Threw(gate.message);
      }
      var raw := passwordEntryDao.GetEntriesWithCredentialsInFolder(folderId);
      r := Done(DecryptAll(securityManager.crypto, raw));
    }

    /** An absent entry stays null; a present one comes back decrypted. */
    method GetEntryWithCredentials(entryId: string) returns (r: Outcome<Option<PasswordEntryWithCredentials>>)
      requires Valid()
      ensures Blocked(Gate(initialization, "passwordEntryDao"), r)
      ensures initialization.Completed? ==> r.Done? && (r.value.None? <==> entryId !in Db().entries)
      ensures initialization.Completed? && r.Done? && r.value.Some? ==> exists raw: PasswordEntryWithCredentials ::
                raw.entry.id == entryId && IsEntryWithCredentials(raw, Db().entries, Db().credentials)
                && r.value.value == DecryptCredentials(securityManager.crypto, raw)
    {
      var gate := Gate(initialization, "passwordEntryDao");
      if !gate.Done? {
        return if gate.Suspended? then Suspended else Threw(gate.message);
      }
      var raw := passwordEntryDao.GetEntryWithCredentials(entryId);
      match raw
      case None => r := Done(None);
      case Some(found) => r := Done(Some(DecryptCredentials(securityManager.crypto, found)));
    }

    /** saveEntryWithCredentials: only the passwords are encrypted (the i-th with nonce
        `ivOf(i)`), then the DAO transaction runs. The map touches securityManager first when
        there is a credential to encrypt. */
    method SaveEntryWithCredentials(entry: PasswordEntry, credentials: seq<Credential>, ivOf: nat -> Bytes)
        returns (r: Outcome<()>)
      requires Valid()
      modifies Storage()
      ensures Valid()
      ensures Blocked(Gate(initialization, if credentials == [] then "passwordEntryDao" else "securityManager"), r)
      ensures !initialization.Completed? ==> unchanged(Storage())
      ensures initialization.Completed? ==>
                var s := Saved(old(Db().Snapshot()), entry, EncryptedPasswords(securityManager.crypto, credentials, ivOf));
                && (s.Some? ==> r == Done(()) && Db().Snapshot() == s.value)
                && (s.None? ==> r == Threw(FOREIGN_KEY_FAILED) && Db().Snapshot() == old(Db().Snapshot()))
    {
      var gate := Gate(initialization, if credentials == [] then "passwordEntryDao" else "securityManager");
      if !gate.Done? {
        return if gate.Suspended? then Suspended else Threw(gate.message);
      }
      var encryptedCredentials := EncryptedPasswords(securityManager.crypto, credentials, ivOf);
      var ok := passwordEntryDao.SaveEntryWithCredentials(entry, encryptedCredentials);
      r := if ok then Done(()) else Threw(FOREIGN_KEY_FAILED);
    }

    method DeleteEntry(entry: PasswordEntry) returns (r: Outcome<()>)
      requires Valid()
      modifies Storage()
      ensures Valid()
      ensures Blocked(Gate(initialization, "passwordEntryDao"), r)
      ensures !initialization.Completed? ==> unchanged(Storage())
      ensures initialization.Completed? ==>
                r == Done(()) && Db().Snapshot() == WithoutEntryRow(old(Db().Snapshot()), entry.id)
    {
      var gate := Gate(initialization, "passwordEntryDao");
      if !gate.Done? {
        return if gate.Suspended? then Suspended else Threw(gate.message);
      }
      passwordEntryDao.DeleteEntry(entry);
      r := Done(());
    }

    method UpdateEntry(entry: PasswordEntry) returns (r: Outcome<()>)
      requires Valid()
      modifies Storage()
      ensures Valid()
      ensures Blocked(Gate(initialization, "passwordEntryDao"), r)
      ensures !initialization.Completed? ==> unchanged(Storage())
      ensures initialization.Completed? ==>
                r == Done(()) && Db().Snapshot() == WithEntryUpdated(old(Db().Snapshot()), entry)
    {
      var gate := Gate(initialization, "passwordEntryDao");
      if !gate.Done? {
        return if gate.Suspended? then Suspended else Threw(gate.message);
      }
      passwordEntryDao.UpdateEntry(entry);
      r := Done(());
    }

    /** Folders pass through without any encryption. */
    method GetAllFolders() returns (r: Outcome<seq<Folder>>)
      requires Valid()
      ensures Blocked(Gate(initialization, "folderDao"), r)
      ensures initialization.Completed? ==>
                r.Done? && SortedByName(r.value) && ListsFolders(r.value, Db().folders)
    {
      var gate := Gate(initialization, "folderDao");
      if !gate.Done? {
        return if gate.Suspended? then Suspended else Threw(gate.message);
      }
      var folders := folderDao.GetAllFolders();
      r := Done(folders);
    }

    method SaveFolder(folder: Folder) returns (r: Outcome<()>)
      requires Valid()
      modifies Storage()
      ensures Valid()
      ensures Blocked(Gate(initialization, "folderDao"), r)
      ensures !initialization.Completed? ==> unchanged(Storage())
      ensures initialization.Completed? ==>
                r == Done(()) && Db().Snapshot() == WithFolder(old(Db().Snapshot()), folder)
    {
      var gate := Gate(initialization, "folderDao");
      if !gate.Done? {
        return if gate.Suspended? then Suspended else Threw(gate.message);
      }
      folderDao.InsertFolder(folder);
      r := Done(());
    }

    method DeleteFolder(folder: Folder) returns (r: Outcome<()>)
      requires Valid()
      modifies Storage()
      ensures Valid()
      ensures Blocked(Gate(initialization, "folderDao"), r)
      ensures !initialization.Completed? ==> unchanged(Storage())
      ensures initialization.Completed? ==>
                r == Done(()) && Db().Snapshot() == WithoutFolder(old(Db().Snapshot()), folder.id)
    {
      var gate := Gate(initialization, "folderDao");
      if !gate.Done? {
        return if gate.Suspended? then Suspended else Threw(gate.message);
      }
      folderDao.DeleteFolder(folder);
      r := Done(());
    }

    /** deleteAllData: every entry (and with them every credential), then every folder. */
    method DeleteAllData() returns (r: Outcome<()>)
      requires Valid()
      modifies Storage()
      ensures Valid()
      ensures Blocked(Gate(initialization, "passwordEntryDao"), r)
      ensures !initialization.Completed? ==> unchanged(Storage())
      ensures initialization.Completed? ==>
                r == Done(()) && Db().Snapshot() == WithoutFolders(WithoutEntries(old(Db().Snapshot())))
                && Db().Snapshot() == EMPTY_TABLES
    {
      var gate := Gate(initialization, "passwordEntryDao");
      if !gate.Done? {
        return if gate.Suspended? then Suspended else Threw(gate.message);
      }
      passwordEntryDao.DeleteAll();
      folderDao.DeleteAll();
      r := Done(());
    }
  }
}
