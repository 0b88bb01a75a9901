# MyPasswords — a verified model of the vault core

MyPasswords is an Android password vault. A six-digit PIN guards the app. Entries, their
username/password credentials and folders live in an SQLCipher database. The database key is
a random passphrase kept, encrypted, in the preferences store. Credential passwords are
AES-GCM encrypted by the repository before they reach the database.

This project models the core of that app in Dafny and proves what each part promises:

- `crypto.dfy` (`Crypto`): the IV ‖ ciphertext framing of `encrypt`/`decrypt` and the PIN hash.
  The platform primitives are passed in as function values.
- `security_manager.dfy` (`Security`): the PIN hash, the failed-attempt counter and lockout
  timestamp, and the get-or-create database passphrase. Pure transitions on the preferences
  map are wrapped by a `SecurityManager` class.
- `pin_view_model.dfy` (`PinEntry`): the PIN pad state machine. It covers the six-digit
  buffer, the setup/confirm protocol, verification and the lockout flag.
- `password_entry.dfy` (`Entities`): the records, the three tables, and the schema rules:
  primary keys and the cascading foreign key from credentials to entries.
- `app_database.dfy` (`Database`): the opened database and the memoising `DatabaseProvider`.
- `password_dao.dfy` (`PasswordDao`), `folder_dao.dfy` (`Folders`): the two DAOs. Each
  operation is a transition function on the tables, applied by a DAO method.
- `password_repository.dfy` (`Repository`): one-shot initialisation, the gate every data
  operation passes, and encryption and decryption at the storage boundary.
- `main_view_model.dfy` (`MainScreen`): the once-only home load and the merged item list,
  plus bulk delete and move.
- `app_lifecycle.dfy` (`Lifecycle`): de-authentication on stop and the redirect to PIN entry
  on start.
- `navigation.dfy` (`Navigation`): the route constants, the route builders and matchers that
  read the arguments back.

Points where the model follows the code rather than the documented intent:

- Reaching five failed attempts sets the lockout timestamp but does not reset the counter.
  After the lockout expires, the next wrong PIN locks the app again at once
  (`Security.RelockAfterExpiry`).
- `decrypt` turns every failure into the empty string. A caller cannot tell that apart from
  a real empty plaintext (`Crypto.EmptyResultIsAmbiguous`).
- The initialisation flag is claimed before the work runs and is never released. A failed
  initialisation is therefore never retried.
- `awaitInitialization` only waits while the deferred is not completed. After a failed
  initialisation, a fresh data call goes on and touches a `lateinit` field that was never
  assigned. It fails with Kotlin's uninitialised-property error, naming the first field it
  touches (`Repository.Gate`). A call already waiting when the failure happens gets the
  original exception instead (`Repository.AwaitOutcome`).
- Room's REPLACE on an existing entry deletes that row first, so the cascade also deletes
  its credentials (`PasswordDao.WithEntry`).
- A credential naming a missing entry makes SQLite abort the save, and the whole
  transaction rolls back (`PasswordDao.SaveRejectsDanglingCredential`).
- `folderId` has no foreign key. Deleting a folder leaves its entries in the database but
  in no listing (`Folders.DeletedFolderStrandsItsEntries`).
- `ORDER BY name` uses SQLite's BINARY collation on UTF-8. That order equals comparing code
  points one by one (`Folders.NameLe`).

Inputs from the environment are explicit parameters:

- The clock is `now`, in milliseconds.
- The fresh random bytes behind a new passphrase are `random`. The source draws 32 of them; the model accepts any number.
- The GCM nonces are `iv` or `ivOf(i)`.
- The database contents present on disk when it is opened are `onDisk`.
- The exception a failed `getInstance` raises is `failure`.

## Model

| member | source | states |
|---|---|---|
| Crypto.Unframe | app/src/main/java/com/myapplications/mypasswords/security/SecurityManager.kt:117-120 | Decoding succeeds exactly when the text decodes and holds at least 12 bytes; the two parts are a 12-byte IV and the rest, and together they are the whole blob |
| Crypto.Encrypt | app/src/main/java/com/myapplications/mypasswords/security/SecurityManager.kt:105-113 | The output unframes to the nonce used and the GCM ciphertext of the data's bytes |
| Crypto.Decrypt | app/src/main/java/com/myapplications/mypasswords/security/SecurityManager.kt:115-129 | A text that does not decode, is too short, or fails authentication gives ""; a non-empty result implies every step succeeded |
| Crypto.DecryptEncrypt | app/src/main/java/com/myapplications/mypasswords/security/SecurityManager.kt:105-129 | Decrypting under an alias what was encrypted under the same alias returns the original text |
| Crypto.EmptyResultIsAmbiguous | app/src/main/java/com/myapplications/mypasswords/security/SecurityManager.kt:125-128 | An encrypted empty string and undecodable garbage both decrypt to "" |
| Security.LockedOut | app/src/main/java/com/myapplications/mypasswords/security/SecurityManager.kt:193-196 | Locked out exactly when a timestamp is stored and the clock reads before it; an absent timestamp never locks |
| Security.PinSet | app/src/main/java/com/myapplications/mypasswords/security/SecurityManager.kt:144-146 | A PIN is set exactly when a hash is stored |
| Security.WithPin | app/src/main/java/com/myapplications/mypasswords/security/SecurityManager.kt:149-154 | Saving a PIN stores its hash and touches no other key |
| Security.WithFailedAttempt | app/src/main/java/com/myapplications/mypasswords/security/SecurityManager.kt:173-182 | The count rises by one, with absent read as 0; at five or more the timestamp becomes now + 30000; below five the timestamp is untouched; no other key changes |
| Security.WithAttemptsReset | app/src/main/java/com/myapplications/mypasswords/security/SecurityManager.kt:185-190 | Both counter keys are removed, so no clock reading is locked out; no other key changes |
| Security.VerifyStep | app/src/main/java/com/myapplications/mypasswords/security/SecurityManager.kt:157-170 | While locked out the PIN is refused and nothing changes; otherwise it is accepted iff its hash is the stored one; acceptance clears both counter keys; a refusal raises the count by one and locks at five; the stored hash never changes; below five the lockout timestamp is untouched, and a refusal is exactly one `recordFailedAttempt` |
| Security.PassphraseStep | app/src/main/java/com/myapplications/mypasswords/security/SecurityManager.kt:60-84 | With a stored passphrase, its decryption is returned and nothing is written; otherwise the Base64 of the random bytes is returned and its encryption under "db_passphrase_key" is stored, with no other key touched |
| Security.PassphraseStoredMatchesReturned | app/src/main/java/com/myapplications/mypasswords/security/SecurityManager.kt:64-83 | After any call, the stored blob decrypts to the passphrase that call returned |
| Security.PassphraseIsStable | app/src/main/java/com/myapplications/mypasswords/security/SecurityManager.kt:60-84 | A second call returns the same passphrase and writes nothing, whatever randomness it is given |
| Security.FailuresBelowThreshold | app/src/main/java/com/myapplications/mypasswords/security/SecurityManager.kt:173-182 | From a clean counter, fewer than five wrong PINs only count and never set a timestamp |
| Security.FiveFailuresLockOut | app/src/main/java/com/myapplications/mypasswords/security/SecurityManager.kt:42-43 | Five wrong PINs in a row from a clean counter leave the count at five and lock for 30 s from the fifth attempt |
| Security.FailedRunSplit | app/src/main/java/com/myapplications/mypasswords/security/SecurityManager.kt:157-170 | A run of failed verifications splits into two consecutive runs |
| Security.LockoutExpiry | app/src/main/java/com/myapplications/mypasswords/security/SecurityManager.kt:157-166 | During a lockout even the right PIN is refused with nothing changed; after it, the right PIN is accepted and both counter keys go |
| Security.RelockAfterExpiry | app/src/main/java/com/myapplications/mypasswords/security/SecurityManager.kt:176-180 | With the count kept at five or more, the first wrong PIN after expiry locks out again at once |
| Security.NoPinNeverAccepted | app/src/main/java/com/myapplications/mypasswords/security/SecurityManager.kt:160-162 | With no PIN stored every PIN is refused and counted |
| Security.SecurityManager.IsPinSet | app/src/main/java/com/myapplications/mypasswords/security/SecurityManager.kt:144-146 | True exactly when a PIN hash is stored |
| Security.SecurityManager.IsLockedOut | app/src/main/java/com/myapplications/mypasswords/security/SecurityManager.kt:193-196 | True exactly when a timestamp is stored and the clock reads before it |
| Security.SecurityManager.GetLockoutTimestamp | app/src/main/java/com/myapplications/mypasswords/security/SecurityManager.kt:199-201 | The stored timestamp, or 0 when none is stored |
| Security.SecurityManager.SavePin | app/src/main/java/com/myapplications/mypasswords/security/SecurityManager.kt:149-154 | The store becomes `WithPin` of the PIN's hash |
| Security.SecurityManager.RecordFailedAttempt | app/src/main/java/com/myapplications/mypasswords/security/SecurityManager.kt:173-182 | The store becomes `WithFailedAttempt` at the given clock reading |
| Security.SecurityManager.ResetFailedAttempts | app/src/main/java/com/myapplications/mypasswords/security/SecurityManager.kt:185-190 | The store becomes `WithAttemptsReset` |
| Security.SecurityManager.VerifyPin | app/src/main/java/com/myapplications/mypasswords/security/SecurityManager.kt:157-170 | The answer and the new store are those of `VerifyStep` for the PIN's hash |
| Security.SecurityManager.GetDatabasePassphrase | app/src/main/java/com/myapplications/mypasswords/security/SecurityManager.kt:60-84 | The passphrase and the new store are those of `PassphraseStep` |
| PinEntry.PinViewModel.constructor | app/src/main/java/com/myapplications/mypasswords/ui/viewmodel/PinViewModel.kt:30-38 | Starts with the default UI state, in authenticate mode, with an empty temporary PIN and no timer |
| PinEntry.PinViewModel.Initialize | app/src/main/java/com/myapplications/mypasswords/ui/viewmodel/PinViewModel.kt:41-55 | Title and subtitle come from the mode; the buffer, error and success flags are cleared; the temporary PIN is kept; an existing lockout locks the screen |
| PinEntry.PinViewModel.CheckForExistingLockout | app/src/main/java/com/myapplications/mypasswords/ui/viewmodel/PinViewModel.kt:128-134 | When the store is locked out the screen locks with a running timer; otherwise nothing changes |
| PinEntry.PinViewModel.OnPinDigit | app/src/main/java/com/myapplications/mypasswords/ui/viewmodel/PinViewModel.kt:57-65 | A no-op when locked or full; otherwise exactly one digit is appended, and the PIN is processed exactly when the buffer reaches six; the buffer never exceeds six |
| PinEntry.PinViewModel.ProcessPin | app/src/main/java/com/myapplications/mypasswords/ui/viewmodel/PinViewModel.kt:77-84 | Setup mode runs the setup protocol; the other two modes verify |
| PinEntry.PinViewModel.HandlePinSetup | app/src/main/java/com/myapplications/mypasswords/ui/viewmodel/PinViewModel.kt:86-113 | The first entry is remembered, the buffer cleared and nothing saved; a matching confirmation saves the PIN once and reports success; a mismatch clears both, shows the error and saves nothing |
| PinEntry.PinViewModel.HandlePinVerification | app/src/main/java/com/myapplications/mypasswords/ui/viewmodel/PinViewModel.kt:115-126 | The store takes the verification step; success sets the success flag; a refusal that locks starts the timer and locks the screen; any other refusal clears the buffer and shows the error |
| PinEntry.PinViewModel.OnBackspace | app/src/main/java/com/myapplications/mypasswords/ui/viewmodel/PinViewModel.kt:67-71 | Exactly the last character goes; nothing happens on an empty buffer |
| PinEntry.PinViewModel.ClearError | app/src/main/java/com/myapplications/mypasswords/ui/viewmodel/PinViewModel.kt:73-75 | Only the error flag changes |
| PinEntry.PinViewModel.StartLockoutTimer | app/src/main/java/com/myapplications/mypasswords/ui/viewmodel/PinViewModel.kt:136-146 | Any running timer is cancelled; only when time remains is the screen locked, the buffer cleared and a timer started |
| PinEntry.PinViewModel.OnLockoutTimerFinish | app/src/main/java/com/myapplications/mypasswords/ui/viewmodel/PinViewModel.kt:154-161 | The screen unlocks, the message clears and the mode's subtitle comes back |
| PinEntry.PinViewModel.OnCleared | app/src/main/java/com/myapplications/mypasswords/ui/viewmodel/PinViewModel.kt:167-170 | The timer is cancelled and nothing else changes |
| PinEntry.EnterPinTwice | app/src/main/java/com/myapplications/mypasswords/ui/viewmodel/PinViewModel.kt:57-113 | Typing the same six digits twice on a fresh setup screen stores exactly that PIN's hash, unless the store is locked out, when nothing is stored |
| Entities.RelationHasEveryRowOnce | app/src/main/java/com/myapplications/mypasswords/model/PasswordEntry.kt:40-48 | A relation list has as many items as the entry has credential rows |
| Entities.DistinctCardinality | app/src/main/java/com/myapplications/mypasswords/model/PasswordEntry.kt:34 | A list of credentials with distinct ids holds each credential once |
| Database.AppDatabase.constructor | app/src/main/java/com/myapplications/mypasswords/database/AppDatabase.kt:45-63 | The opened database holds the given key and the contents on disk |
| Database.BuildDatabase | app/src/main/java/com/myapplications/mypasswords/database/AppDatabase.kt:45-63 | The database key is the UTF-8 bytes of the passphrase `getDatabasePassphrase` returns, and the store changes as that call changes it |
| Database.DatabaseProvider.GetInstance | app/src/main/java/com/myapplications/mypasswords/database/AppDatabase.kt:35-43 | A stored instance is returned without a build and without touching the store; otherwise a new one is built, stored and returned; afterwards the stored instance is the one returned |
| Database.Reopen | app/src/main/java/com/myapplications/mypasswords/database/AppDatabase.kt:39-46 | Two openings over the same preferences store use the same key |
| PasswordDao.WithoutEntry | app/src/main/java/com/myapplications/mypasswords/database/PasswordDao.kt:26-27 | Exactly the credentials of that entry are removed; every other row stays as it was |
| PasswordDao.UpsertAll | app/src/main/java/com/myapplications/mypasswords/database/PasswordDao.kt:23-24 | After upserting, the keys are the old ones plus the rows' ids; rows not overwritten stay; each written id holds one of the rows |
| PasswordDao.UpsertAllKeepsLast | app/src/main/java/com/myapplications/mypasswords/database/PasswordDao.kt:23-24 | When several rows share an id, the last one written is kept |
| PasswordDao.UpsertAllKeepsForeignKey | app/src/main/java/com/myapplications/mypasswords/model/PasswordEntry.kt:21-30 | Upserting rows that all name existing entries keeps the foreign key |
| PasswordDao.WithEntry | app/src/main/java/com/myapplications/mypasswords/database/PasswordDao.kt:13-14 | The entry is written under its id; replacing an existing row also removes its credentials, by the cascade; the schema is kept |
| PasswordDao.WithEntryUpdated | app/src/main/java/com/myapplications/mypasswords/database/PasswordDao.kt:16-17 | The row with that id is overwritten and no other; without one nothing changes |
| PasswordDao.WithoutEntryRow | app/src/main/java/com/myapplications/mypasswords/database/PasswordDao.kt:19-20 | The entry goes and, by the cascade, exactly its credentials; every other entry keeps its credentials |
| PasswordDao.WithCredentials | app/src/main/java/com/myapplications/mypasswords/database/PasswordDao.kt:23-24 | The insert commits exactly when every row names an existing entry, and then it is the upsert of all rows |
| PasswordDao.Saved | app/src/main/java/com/myapplications/mypasswords/database/PasswordDao.kt:45-51 | The transaction commits exactly when every row names the saved entry or an existing one, and then the schema holds |
| PasswordDao.WithoutEntries | app/src/main/java/com/myapplications/mypasswords/database/PasswordDao.kt:42-43 | Entries and, by the cascade, all credentials are emptied; folders stay |
| PasswordDao.SaveEntryReplacesCredentials | app/src/main/java/com/myapplications/mypasswords/database/PasswordDao.kt:45-51 | With rows carrying the entry's id, the save commits; the entry row is the saved entry; its credentials are exactly the rows; another entry loses a credential only when a row reuses its id |
| PasswordDao.SaveEntryKeepsOtherEntries | app/src/main/java/com/myapplications/mypasswords/database/PasswordDao.kt:45-51 | When no new credential id belongs to another entry, every other entry keeps exactly its credentials |
| PasswordDao.SaveRejectsDanglingCredential | app/src/main/java/com/myapplications/mypasswords/model/PasswordEntry.kt:21-30 | A row naming neither the saved entry nor an existing one rolls the save back |
| PasswordDao.PasswordEntryDao.InsertEntry | app/src/main/java/com/myapplications/mypasswords/database/PasswordDao.kt:13-14 | The tables become `WithEntry` of the entry |
| PasswordDao.PasswordEntryDao.UpdateEntry | app/src/main/java/com/myapplications/mypasswords/database/PasswordDao.kt:16-17 | The tables become `WithEntryUpdated` of the entry |
| PasswordDao.PasswordEntryDao.DeleteEntry | app/src/main/java/com/myapplications/mypasswords/database/PasswordDao.kt:19-20 | The tables become `WithoutEntryRow` of the entry's id |
| PasswordDao.PasswordEntryDao.InsertCredentials | app/src/main/java/com/myapplications/mypasswords/database/PasswordDao.kt:23-24 | Success is reported exactly when `WithCredentials` commits; the tables are its result, or unchanged on failure |
| PasswordDao.PasswordEntryDao.DeleteCredentialsForEntry | app/src/main/java/com/myapplications/mypasswords/database/PasswordDao.kt:26-27 | The credential table becomes `WithoutEntry` of the id; the other tables stay |
| PasswordDao.PasswordEntryDao.CredentialsFor | app/src/main/java/com/myapplications/mypasswords/model/PasswordEntry.kt:40-48 | The list is the entry's credentials, each once |
| PasswordDao.PasswordEntryDao.GetEntryWithCredentials | app/src/main/java/com/myapplications/mypasswords/database/PasswordDao.kt:30-32 | Null exactly when no entry has that id; otherwise the stored entry joined with exactly its credentials |
| PasswordDao.PasswordEntryDao.SelectEntries | app/src/main/java/com/myapplications/mypasswords/database/PasswordDao.kt:34-40 | Exactly the entries with the given folderId, each once and joined with its credentials |
| PasswordDao.PasswordEntryDao.GetRootEntriesWithCredentials | app/src/main/java/com/myapplications/mypasswords/database/PasswordDao.kt:34-36 | Exactly the entries with a null folderId, each joined |
| PasswordDao.PasswordEntryDao.GetEntriesWithCredentialsInFolder | app/src/main/java/com/myapplications/mypasswords/database/PasswordDao.kt:38-40 | Exactly the entries in that folder, each joined |
| PasswordDao.PasswordEntryDao.DeleteAll | app/src/main/java/com/myapplications/mypasswords/database/PasswordDao.kt:42-43 | The tables become `WithoutEntries` |
| PasswordDao.PasswordEntryDao.SaveEntryWithCredentials | app/src/main/java/com/myapplications/mypasswords/database/PasswordDao.kt:44-51 | Success is reported exactly when `Saved` commits; the tables are its result, or fully rolled back |
| Folders.NameLeTotal | app/src/main/java/com/myapplications/mypasswords/database/FolderDao.kt:18-19 | The name order is total |
| Folders.NameLeTransitive | app/src/main/java/com/myapplications/mypasswords/database/FolderDao.kt:18-19 | The name order is transitive |
| Folders.InsertByName | app/src/main/java/com/myapplications/mypasswords/database/FolderDao.kt:18-19 | Inserting into a sorted listing keeps it sorted and adds exactly that folder |
| Folders.WithFolder | app/src/main/java/com/myapplications/mypasswords/database/FolderDao.kt:9-10 | The folder is written under its id, no other folder changes, and the entry and credential tables are untouched |
| Folders.WithFolderUpdated | app/src/main/java/com/myapplications/mypasswords/database/FolderDao.kt:12-13 | The row with that id is overwritten; without one nothing changes |
| Folders.WithoutFolder | app/src/main/java/com/myapplications/mypasswords/database/FolderDao.kt:15-16 | Only that folder goes; entries keep their folderId |
| Folders.WithoutFolders | app/src/main/java/com/myapplications/mypasswords/database/FolderDao.kt:24-25 | The folder table is emptied; the other tables stay |
| Folders.DeletedFolderStrandsItsEntries | app/src/main/java/com/myapplications/mypasswords/model/PasswordEntry.kt:13-18 | Deleting a folder that holds entries leaves them stored but in no listing |
| Folders.FolderDao.InsertFolder | app/src/main/java/com/myapplications/mypasswords/database/FolderDao.kt:9-10 | The tables become `WithFolder` |
| Folders.FolderDao.UpdateFolder | app/src/main/java/com/myapplications/mypasswords/database/FolderDao.kt:12-13 | The tables become `WithFolderUpdated` |
| Folders.FolderDao.DeleteFolder | app/src/main/java/com/myapplications/mypasswords/database/FolderDao.kt:15-16 | The tables become `WithoutFolder` of the folder's id |
| Folders.FolderDao.GetAllFolders | app/src/main/java/com/myapplications/mypasswords/database/FolderDao.kt:18-19 | Every folder exactly once and nothing else, sorted ascending by name |
| Folders.FolderDao.GetFolderById | app/src/main/java/com/myapplications/mypasswords/database/FolderDao.kt:21-22 | Null exactly when no folder has that id; otherwise that folder |
| Folders.FolderDao.DeleteAll | app/src/main/java/com/myapplications/mypasswords/database/FolderDao.kt:24-25 | The tables become `WithoutFolders` |
| Repository.Gate | app/src/main/java/com/myapplications/mypasswords/repository/PasswordRepository.kt:64-76 | A fresh call suspends while initialisation is pending and proceeds once it completed; after a failure it throws the uninitialised-property error for the field it touches first |
| Repository.AwaitOutcome | app/src/main/java/com/myapplications/mypasswords/repository/PasswordRepository.kt:64-69 | A suspended caller resumes on completion and rethrows the initialisation's exception on failure |
| Repository.EncryptedPasswords | app/src/main/java/com/myapplications/mypasswords/repository/PasswordRepository.kt:110-112 | Same length and order; each credential keeps its id, entryId and username, and only its password is replaced by its encryption |
| Repository.DecryptedPasswords | app/src/main/java/com/myapplications/mypasswords/repository/PasswordRepository.kt:81-83 | Same length and order; only each password is replaced by its decryption |
| Repository.DecryptCredentials | app/src/main/java/com/myapplications/mypasswords/repository/PasswordRepository.kt:80-85 | The entry is unchanged and its credentials are decrypted |
| Repository.DecryptAll | app/src/main/java/com/myapplications/mypasswords/repository/PasswordRepository.kt:89-91 | Every entry of a read is decrypted, in order |
| Repository.DecryptEncryptedPasswords | app/src/main/java/com/myapplications/mypasswords/repository/PasswordRepository.kt:80-85 | Decrypting the encrypted credentials gives back the credentials saved |
| Repository.ReadBackAfterSave | app/src/main/java/com/myapplications/mypasswords/repository/PasswordRepository.kt:101-114 | After a save, reading the entry back gives the saved entry and exactly the saved credentials in plaintext, each once |
| Repository.PasswordRepository.constructor | app/src/main/java/com/myapplications/mypasswords/repository/PasswordRepository.kt:27-33 | Starts unclaimed, with initialisation pending and no DAOs |
| Repository.PasswordRepository.Initialize | app/src/main/java/com/myapplications/mypasswords/repository/PasswordRepository.kt:35-39 | Only the call that claims the flag launches the work; later calls change nothing |
| Repository.PasswordRepository.RunInitialization | app/src/main/java/com/myapplications/mypasswords/repository/PasswordRepository.kt:39-57 | On failure the deferred fails with the message, the flag stays claimed and nothing else changes; on success both DAOs share the provider's database and the deferred completes |
| Repository.PasswordRepository.GetRootEntriesWithCredentials | app/src/main/java/com/myapplications/mypasswords/repository/PasswordRepository.kt:87-92 | Gated; once initialised, the decryption of the root selection |
| Repository.PasswordRepository.GetEntriesInFolder | app/src/main/java/com/myapplications/mypasswords/repository/PasswordRepository.kt:94-99 | Gated; once initialised, the decryption of that folder's selection |
| Repository.PasswordRepository.GetEntryWithCredentials | app/src/main/java/com/myapplications/mypasswords/repository/PasswordRepository.kt:101-106 | Gated; null exactly when absent, otherwise the decrypted joined entry |
| Repository.PasswordRepository.SaveEntryWithCredentials | app/src/main/java/com/myapplications/mypasswords/repository/PasswordRepository.kt:108-114 | Gated, with the field touched first depending on whether there are credentials; the DAO transaction runs on the password-encrypted credentials and either commits or fails with the constraint error, with everything rolled back |
| Repository.PasswordRepository.DeleteEntry | app/src/main/java/com/myapplications/mypasswords/repository/PasswordRepository.kt:116-119 | Gated; then the tables become `WithoutEntryRow` |
| Repository.PasswordRepository.UpdateEntry | app/src/main/java/com/myapplications/mypasswords/repository/PasswordRepository.kt:121-124 | Gated; then the tables become `WithEntryUpdated` |
| Repository.PasswordRepository.GetAllFolders | app/src/main/java/com/myapplications/mypasswords/repository/PasswordRepository.kt:126-129 | Gated; once initialised, every folder once, sorted by name, unencrypted |
| Repository.PasswordRepository.SaveFolder | app/src/main/java/com/myapplications/mypasswords/repository/PasswordRepository.kt:131-134 | Gated; then the tables become `WithFolder` |
| Repository.PasswordRepository.DeleteFolder | app/src/main/java/com/myapplications/mypasswords/repository/PasswordRepository.kt:136-139 | Gated; then the tables become `WithoutFolder` |
| Repository.PasswordRepository.DeleteAllData | app/src/main/java/com/myapplications/mypasswords/repository/PasswordRepository.kt:141-145 | Gated; then all entries and credentials go, then all folders, leaving the database empty |
| MainScreen.CombineAndMap | app/src/main/java/com/myapplications/mypasswords/ui/viewmodel/MainViewModel.kt:90-94 | All folder items in input order, then all entry items in input order; the length is the sum |
| MainScreen.CombineAndMapSplits | app/src/main/java/com/myapplications/mypasswords/ui/viewmodel/MainViewModel.kt:90-94 | Picking the folders and the entries back out of the merged list gives the two inputs; no folder follows an entry |
| MainScreen.WithoutItems | app/src/main/java/com/myapplications/mypasswords/ui/viewmodel/MainViewModel.kt:124-133 | After the bulk delete, the selected folders and entries are gone, with the entries' credentials; everything else stays; the schema is kept |
| MainScreen.WithoutItemsStep | app/src/main/java/com/myapplications/mypasswords/ui/viewmodel/MainViewModel.kt:126-131 | Deleting one more item is one `deleteFolder` or one `deleteEntry`, so the order over the set does not matter |
| MainScreen.WithoutNoItems | app/src/main/java/com/myapplications/mypasswords/ui/viewmodel/MainViewModel.kt:124-133 | An empty selection deletes nothing |
| MainScreen.MainViewModel.constructor | app/src/main/java/com/myapplications/mypasswords/ui/viewmodel/MainViewModel.kt:22-37 | Starts loading, with no items, no error, and the load not yet claimed |
| MainScreen.MainViewModel.LoadData | app/src/main/java/com/myapplications/mypasswords/ui/viewmodel/MainViewModel.kt:43-85 | Only the first call runs the body. It either suspends while loading, or shows the error of a failed read, or shows the sorted folders followed by the decrypted root entries with no error |
| MainScreen.MainViewModel.ResumeLoad | app/src/main/java/com/myapplications/mypasswords/ui/viewmodel/MainViewModel.kt:48-81 | A suspended load resuming shows the initialisation's exception, or goes on to the same result as a fresh load |
| MainScreen.MainViewModel.Collect | app/src/main/java/com/myapplications/mypasswords/ui/viewmodel/MainViewModel.kt:53-58 | The folder read's result is followed by the root read and the merged list, or an error |
| MainScreen.MainViewModel.DeleteItems | app/src/main/java/com/myapplications/mypasswords/ui/viewmodel/MainViewModel.kt:124-133 | Each selected folder is deleted by `deleteFolder` and each entry by `deleteEntry`, ending at `WithoutItems`; before initialisation it suspends or throws with nothing deleted |
| MainScreen.MainViewModel.MoveItemsToFolder | app/src/main/java/com/myapplications/mypasswords/ui/viewmodel/MainViewModel.kt:135-144 | Every selected existing entry gets the target folderId and keeps its id and the rest of its item's snapshot; unselected entries, credentials and folders are unchanged; folder items are skipped |
| Lifecycle.AuthManager.constructor | app/src/main/java/com/myapplications/mypasswords/security/AuthManager.kt:14 | The session starts unauthenticated |
| Lifecycle.NoRedirectFromPinScreens | app/src/main/java/com/myapplications/mypasswords/ui/AppLifecycleHandler.kt:32-43 | Neither PIN screen ever redirects, so the redirect cannot loop |
| Lifecycle.NoRedirectWithoutPin | app/src/main/java/com/myapplications/mypasswords/ui/AppLifecycleHandler.kt:40-44 | Without a stored PIN there is never a redirect |
| Lifecycle.ProtectedScreensRedirect | app/src/main/java/com/myapplications/mypasswords/ui/AppLifecycleHandler.kt:32-43 | The fixed routes outside the open set are main, settings and about, and each redirects an unauthenticated user once a PIN exists |
| Lifecycle.OnLifecycleEvent | app/src/main/java/com/myapplications/mypasswords/ui/AppLifecycleHandler.kt:26-54 | On stop the flag is cleared; on start the redirect to pin_auth happens exactly when the user is unauthenticated, a PIN is set and the route is not open; other events do nothing; the flag is never set to true |
| Lifecycle.StopThenStart | app/src/main/java/com/myapplications/mypasswords/ui/AppLifecycleHandler.kt:26-54 | After going to the background and back, the user is unauthenticated and redirected exactly when a PIN is set and the route is not open; the redirect, when there is one, goes to pin_auth |
| Navigation.StaticRoutes | app/src/main/java/com/myapplications/mypasswords/navigation/AppNavigation.kt:19-25 | The seven fixed routes are pairwise distinct |
| Navigation.StaticRoutesHaveNoArguments | app/src/main/java/com/myapplications/mypasswords/navigation/AppNavigation.kt:19-42 | No fixed route starts like a route with arguments |
| Navigation.FolderDetailRoute | app/src/main/java/com/myapplications/mypasswords/navigation/AppNavigation.kt:28-30 | The route is "folder_detail/" followed by the id, "/" and the name |
| Navigation.MatchFolderDetail | app/src/main/java/com/myapplications/mypasswords/navigation/AppNavigation.kt:28 | A match yields two segments free of "/", "?" and "#" that rebuild the route; a name the library would cut at a query or fragment is refused |
| Navigation.FolderDetailRoundTrip | app/src/main/java/com/myapplications/mypasswords/navigation/AppNavigation.kt:28-30 | A route built from an id and a name free of "/", "?" and "#" reads back as them |
| Navigation.FolderDetailRouteCollides | app/src/main/java/com/myapplications/mypasswords/navigation/AppNavigation.kt:29 | Without escaping, ("a/b", "c") and ("a", "b/c") give the same route |
| Navigation.PasswordPinVerifyRoute | app/src/main/java/com/myapplications/mypasswords/navigation/AppNavigation.kt:33-35 | The route is "password_pin_verify/" followed by the id |
| Navigation.MatchPasswordPinVerify | app/src/main/java/com/myapplications/mypasswords/navigation/AppNavigation.kt:33 | A match yields an id free of "/", "?" and "#" that rebuilds the route |
| Navigation.PasswordPinVerifyRoundTrip | app/src/main/java/com/myapplications/mypasswords/navigation/AppNavigation.kt:33-35 | An id free of "/", "?" and "#" reads back from its route |
| Navigation.PasswordDetailRoute | app/src/main/java/com/myapplications/mypasswords/navigation/AppNavigation.kt:39-43 | The route is "password_detail?passwordId=" and the id, followed by "&folderId=" and the folder only when there is one |
| Navigation.PasswordDetailRouteExtends | app/src/main/java/com/myapplications/mypasswords/navigation/AppNavigation.kt:41-42 | With a folder, the route is the folderless route plus the folder parameter, so the folderless route is a prefix |
| Navigation.MatchPasswordDetail | app/src/main/java/com/myapplications/mypasswords/navigation/AppNavigation.kt:39 | A match yields an id and an optional folder, both free of "&" and "#", that rebuild the route |
| Navigation.PasswordDetailRoundTrip | app/src/main/java/com/myapplications/mypasswords/navigation/AppNavigation.kt:39-43 | A route built from an id and a folder free of "&" and "#" reads back as its arguments |
| Navigation.PasswordDetailRouteCollides | app/src/main/java/com/myapplications/mypasswords/navigation/AppNavigation.kt:41-42 | Without escaping, the id "x&folderId=y" reads back as id "x" in folder "y" |
| Navigation.FolderDetailRefusesQueryMark | app/src/main/java/com/myapplications/mypasswords/navigation/AppNavigation.kt:28-30 | The folder name "Work?", which the library would read as "Work", makes the route match nothing |
| Navigation.PasswordDetailRefusesAmpersandFolder | app/src/main/java/com/myapplications/mypasswords/navigation/AppNavigation.kt:39-43 | The folder value "y&z", which the library would read as "y", makes the route match nothing |

## Left out

- The platform primitives (key store, AES-GCM, SHA-256, Base64, UTF-8) are function values. The facts the proofs rely on about them form the predicate `Crypto.Sound`, a precondition of the round-trip lemmas.
- `Crypto.Encrypt`: an exception thrown by `encrypt` is not modelled. This covers key generation failing and the cipher refusing, since the source does not catch either.
- `Security.WithFailedAttempt`: the model does not wrap the 32-bit `Int` counter or the 64-bit `Long` timestamp. Neither can be reached by counting attempts one at a time.
- Each call reads the clock once, as `now`. The source reads it separately in `verifyPin`, in `isLockedOut` and in `recordFailedAttempt`.
- `PinEntry.PinViewModel.OnPinDigit`: the model requires one character per press, which is what the keypad sends. The source would also append a longer string.
- The once-a-second ticks of the lockout timer, and the countdown text they put in `lockoutMessage`, are not modelled.
- The `onSuccess` callback kept by `initialize` is not modelled. Nothing in the core calls it.
- Coroutines are run one at a time, to completion or to their first suspension. Interleavings, the mutex around `getInstance`, and threads are not modelled.
- A suspended `deleteItems`, `moveItemsToFolder` or repository write is not resumed in the model. Only the suspended home load has a resume step.
- Flows are modelled as one snapshot read. This leaves out the live updates `loadData` collects after the first load, and the `catch` that puts their errors into the UI state.
- `Repository.PasswordRepository.RunInitialization`: only `getInstance` is modelled as failing. In the source, `SecurityManager()` can throw after both DAOs were assigned, if its key-store load fails. A later read would then pass the `passwordEntryDao` field and fail only when decrypting. The same key-store load has already succeeded inside `buildDatabase`, so this case is not modelled.
- `Repository.PasswordRepository.RunInitialization`: a failed `getInstance` is modelled as leaving the provider and the preferences store unchanged. Partial effects before the exception are not modelled.
- Exception messages are plain text. A Kotlin exception with a null message is not modelled.
- `Repository.FOREIGN_KEY_FAILED` stands for the text of SQLite's constraint exception. The exact text is not modelled.
- Opening the database with a wrong key and SQLCipher's reaction to it are not modelled. The contents already on disk are the parameter `onDisk`.
- The view model's pass-through operations only delegate to the repository. These are `saveEntryWithCredentials`, `deleteEntry`, `saveFolder`, `deleteFolder`, `deleteAllData`, `getEntriesInFolder`, `getEntryWithCredentials` and `getAllFolders`, and they are modelled by the repository members they call.
- `Folder.kt` is not part of this model. `Folder` is taken from its use: an id and a name, with the id as primary key.
- Composable UI, navigation graph wiring, the `popUpTo` back-stack handling and the app's actual navigation call are not modelled. The redirect is the returned route.
- `Lifecycle.OnLifecycleEvent`: the `ON_START` check runs later, in a launched coroutine, but the model evaluates it at the event.
- `Navigation.MatchFolderDetail`: the matchers do not parse routes as the navigation library does. They cut only at the patterns' own delimiters and refuse any argument holding a character that would end it early in a URI ("/", "?" and "#" in a path segment; "&" and "#" in a query value). How the library splits such a route, and its percent-decoding, are not modelled.
- `Navigation.FolderDetailRoute`: the builders splice arguments verbatim, as the source does. The app does pass a free-text folder name, and a name with "/", "?", "#" or "&" would reach the library unescaped.
