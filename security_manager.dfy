/** SecurityManager: the PIN hash, the failed-attempt counter and lockout timestamp, and the
    encrypted database passphrase, all kept in one preferences store. The store is a map from
    key names to typed values; the transitions of that map are pure functions here, and the
    class methods apply them to the store held in a field. */
module Security {
  import opened Wrappers
  import opened Crypto

  /** A preference value: DataStore keys are typed (string, int, long). */
  datatype Pref = StringPref(text: string) | IntPref(number: int) | LongPref(millis: int)

  type Prefs = map<string, Pref>

  const USER_PIN_HASH: string := "user_pin_hash"
  const FAILED_ATTEMPTS: string := "failed_pin_attempts"
  const LOCKOUT_TIMESTAMP: string := "lockout_timestamp"
  const ENCRYPTED_DB_PASSPHRASE: string := "encrypted_db_passphrase"

  const MAX_FAILED_ATTEMPTS: int := 5
  const LOCKOUT_DURATION_MS: int := 30 * 1000
  const DB_PASSPHRASE_ALIAS: string := "db_passphrase_key"

  /** Each of the four keys, when present, holds a value of the key's type. */
  ghost predicate WellTyped(m: Prefs) {
    && (USER_PIN_HASH in m ==> m[USER_PIN_HASH].StringPref?)
    && (FAILED_ATTEMPTS in m ==> m[FAILED_ATTEMPTS].IntPref?)
    && (LOCKOUT_TIMESTAMP in m ==> m[LOCKOUT_TIMESTAMP].LongPref?)
    && (ENCRYPTED_DB_PASSPHRASE in m ==> m[ENCRYPTED_DB_PASSPHRASE].StringPref?)
  }

  /** `r` agrees with `m` on every key outside `keys`. */
  ghost predicate SameExcept(m: Prefs, r: Prefs, keys: set<string>) {
    forall k :: k !in keys ==> (k in m <==> k in r) && (k in m ==> r[k] == m[k])
  }

  function StoredPinHash(m: Prefs): Option<string> {
    if USER_PIN_HASH in m && m[USER_PIN_HASH].StringPref? then Some(m[USER_PIN_HASH].text) else None
  }

  /** The failed-attempt count, absent read as 0. */
  function FailedAttempts(m: Prefs): int {
    if FAILED_ATTEMPTS in m && m[FAILED_ATTEMPTS].IntPref? then m[FAILED_ATTEMPTS].number else 0
  }

  /** getLockoutTimestamp: the stored timestamp, absent read as 0. */
  function LockoutTimestamp(m: Prefs): int {
    if LOCKOUT_TIMESTAMP in m && m[LOCKOUT_TIMESTAMP].LongPref? then m[LOCKOUT_TIMESTAMP].millis else 0
  }

  /** isLockedOut: the clock reads before the stored lockout timestamp. A clock reading is a
      non-negative number of milliseconds, so an absent timestamp never locks. */
  function LockedOut(m: Prefs, now: nat): (r: bool)
    requires WellTyped(m)
    ensures r <==> LOCKOUT_TIMESTAMP in m && now < m[LOCKOUT_TIMESTAMP].millis
  {
    now < LockoutTimestamp(m)
  }

  /** isPinSet: the hash key is present. */
  function PinSet(m: Prefs): (r: bool)
    requires WellTyped(m)
    ensures r <==> StoredPinHash(m).Some?
  {
    USER_PIN_HASH in m
  }

  /** savePin's edit: the hash key is overwritten, nothing else is touched. */
  function WithPin(m: Prefs, hash: string): (r: Prefs)
    ensures StoredPinHash(r) == Some(hash)
    ensures SameExcept(m, r, {USER_PIN_HASH})
    ensures WellTyped(m) ==> WellTyped(r)
  {
    m[USER_PIN_HASH := StringPref(hash)]
  }

  /** recordFailedAttempt's edit: the count goes up by one; when it reaches the maximum the
      lockout timestamp is set to now + 30 s. The count itself is kept, not reset. */
  function WithFailedAttempt(m: Prefs, now: nat): (r: Prefs)
    ensures FailedAttempts(r) == FailedAttempts(m) + 1
    ensures FailedAttempts(m) + 1 >= MAX_FAILED_ATTEMPTS ==>
              LockoutTimestamp(r) == now + LOCKOUT_DURATION_MS
    ensures FailedAttempts(m) + 1 < MAX_FAILED_ATTEMPTS ==>
              (LOCKOUT_TIMESTAMP in r <==> LOCKOUT_TIMESTAMP in m) && LockoutTimestamp(r) == LockoutTimestamp(m)
    ensures SameExcept(m, r, {FAILED_ATTEMPTS, LOCKOUT_TIMESTAMP})
    ensures WellTyped(m) ==> WellTyped(r)
  {
    var attempts := FailedAttempts(m) + 1;
    var counted := m[FAILED_ATTEMPTS := IntPref(attempts)];
    if attempts >= MAX_FAILED_ATTEMPTS then counted[LOCKOUT_TIMESTAMP := LongPref(now + LOCKOUT_DURATION_MS)]
    else counted
  }

  /** resetFailedAttempts's edit: both counter keys are removed, so no clock reading is locked. */
  function WithAttemptsReset(m: Prefs): (r: Prefs)
    ensures FAILED_ATTEMPTS !in r && LOCKOUT_TIMESTAMP !in r
    ensures FailedAttempts(r) == 0
    ensures WellTyped(m) ==> WellTyped(r) && forall now: nat :: !LockedOut(r, now)
    ensures SameExcept(m, r, {FAILED_ATTEMPTS, LOCKOUT_TIMESTAMP})
  {
    m - {FAILED_ATTEMPTS, LOCKOUT_TIMESTAMP}
  }

  /** The outcome of verifyPin: whether the PIN was accepted and the store afterwards. */
  datatype Verification = Verification(accepted: bool, prefs: Prefs)

  /** verifyPin against a PIN whose hash is `pinHash`, at clock reading `now`. */
  function VerifyStep(m: Prefs, pinHash: string, now: nat): (r: Verification)
    requires WellTyped(m)
    ensures WellTyped(r.prefs)
    // locked out: refused, and no attempt is consumed
    ensures LockedOut(m, now) ==> !r.accepted && r.prefs == m
    // not locked out: accepted exactly when the stored hash is the PIN's hash
    ensures !LockedOut(m, now) ==> (r.accepted <==> StoredPinHash(m) == Some(pinHash))
    ensures r.accepted ==>
              && FAILED_ATTEMPTS !in r.prefs && LOCKOUT_TIMESTAMP !in r.prefs
              && SameExcept(m, r.prefs, {FAILED_ATTEMPTS, LOCKOUT_TIMESTAMP})
    ensures !r.accepted && !LockedOut(m, now) ==>
              && FailedAttempts(r.prefs) == FailedAttempts(m) + 1
              && (FailedAttempts(r.prefs) >= MAX_FAILED_ATTEMPTS ==>
                    LockedOut(r.prefs, now) && LockoutTimestamp(r.prefs) == now + LOCKOUT_DURATION_MS)
              && (FailedAttempts(r.prefs) < MAX_FAILED_ATTEMPTS ==>
                    (LOCKOUT_TIMESTAMP in r.prefs <==> LOCKOUT_TIMESTAMP in m)
                    && LockoutTimestamp(r.prefs) == LockoutTimestamp(m))
              && SameExcept(m, r.prefs, {FAILED_ATTEMPTS, LOCKOUT_TIMESTAMP})
              && r.prefs == WithFailedAttempt(m, now)
    // the PIN hash and the passphrase are never touched by verification
    ensures StoredPinHash(r.prefs) == StoredPinHash(m)
  {
    if LockedOut(m, now) then Verification(false, m)
    else if StoredPinHash(m) == Some(pinHash) then Verification(true, WithAttemptsReset(m))
    else Verification(false, WithFailedAttempt(m, now))
  }

  /** The outcome of getDatabasePassphrase: the passphrase and the store afterwards. */
  datatype PassphraseRead = PassphraseRead(passphrase: string, prefs: Prefs)

  /** getDatabasePassphrase: decrypt the stored passphrase if there is one (writing nothing);
      otherwise Base64-encode `random` (the fresh bytes;
      the source draws 32, and the model accepts any number), store its encryption under the
      passphrase alias with nonce `iv`, and return it. */
  function PassphraseStep(p: Primitives, m: Prefs, random: Bytes, iv: Bytes): (r: PassphraseRead)
    requires WellTyped(m)
    ensures WellTyped(r.prefs) && ENCRYPTED_DB_PASSPHRASE in r.prefs
    ensures ENCRYPTED_DB_PASSPHRASE in m ==>
              r.prefs == m && r.passphrase == Decrypt(p, m[ENCRYPTED_DB_PASSPHRASE].text, DB_PASSPHRASE_ALIAS)
    ensures ENCRYPTED_DB_PASSPHRASE !in m ==>
              && r.passphrase == p.base64Encode(random, false)
              && r.prefs[ENCRYPTED_DB_PASSPHRASE].text == Encrypt(p, r.passphrase, DB_PASSPHRASE_ALIAS, iv)
              && SameExcept(m, r.prefs, {ENCRYPTED_DB_PASSPHRASE})
  {
    if ENCRYPTED_DB_PASSPHRASE in m then
      PassphraseRead(Decrypt(p, m[ENCRYPTED_DB_PASSPHRASE].text, DB_PASSPHRASE_ALIAS), m)
    else
      var created := p.base64Encode(random, false);
      PassphraseRead(created, m[ENCRYPTED_DB_PASSPHRASE := StringPref(Encrypt(p, created, DB_PASSPHRASE_ALIAS, iv))])
  }

  /** After any call, the stored blob decrypts to the passphrase that call returned. */
  lemma PassphraseStoredMatchesReturned(p: Primitives, m: Prefs, random: Bytes, iv: Bytes)
    requires WellTyped(m) && Sound(p) && |iv| == IV_LENGTH
    ensures var r := PassphraseStep(p, m, random, iv);
            Decrypt(p, r.prefs[ENCRYPTED_DB_PASSPHRASE].text, DB_PASSPHRASE_ALIAS) == r.passphrase
  {
    if ENCRYPTED_DB_PASSPHRASE !in m {
      DecryptEncrypt(p, p.base64Encode(random, false), DB_PASSPHRASE_ALIAS, iv);
    }
  }

  /** Two consecutive calls return the same passphrase, and the second writes nothing,
      whatever randomness and nonce the second call would have drawn. */
  lemma PassphraseIsStable(p: Primitives, m: Prefs, random1: Bytes, iv1: Bytes, random2: Bytes, iv2: Bytes)
    requires WellTyped(m) && Sound(p) && |iv1| == IV_LENGTH
    ensures var r1 := PassphraseStep(p, m, random1, iv1);
            var r2 := PassphraseStep(p, r1.prefs, random2, iv2);
            r2.passphrase == r1.passphrase && r2.prefs == r1.prefs
  {
    PassphraseStoredMatchesReturned(p, m, random1, iv1);
  }

  /** A run of verifications with the same wrong PIN, at the given clock readings. */
  function FailedRun(m: Prefs, wrongHash: string, times: seq<nat>): (r: Prefs)
    requires WellTyped(m)
    ensures WellTyped(r)
    decreases |times|
  {
    if times == [] then m
    else FailedRun(VerifyStep(m, wrongHash, times[0]).prefs, wrongHash, times[1..])
  }

  /** From a clean counter (no attempts, no lockout) and a stored hash that is not the
      wrong PIN's, fewer than five failures only count and never lock. */
  lemma {:induction false} FailuresBelowThreshold(m: Prefs, wrongHash: string, times: seq<nat>)
    requires WellTyped(m) && StoredPinHash(m) != Some(wrongHash)
    requires LOCKOUT_TIMESTAMP !in m && FailedAttempts(m) >= 0
    requires FailedAttempts(m) + |times| < MAX_FAILED_ATTEMPTS
    ensures var r := FailedRun(m, wrongHash, times);
            FailedAttempts(r) == FailedAttempts(m) + |times| && LOCKOUT_TIMESTAMP !in r
            && StoredPinHash(r) == StoredPinHash(m)
    decreases |times|
  {
    if times != [] {
      var m1 := VerifyStep(m, wrongHash, times[0]).prefs;
      assert !LockedOut(m, times[0]);
      FailuresBelowThreshold(m1, wrongHash, times[1..]);
    }
  }

  /** Five wrong PINs in a row from a clean counter lock the store out for 30 s from the
      fifth attempt, and the count stays at five. */
  lemma FiveFailuresLockOut(m: Prefs, wrongHash: string, times: seq<nat>)
    requires WellTyped(m) && StoredPinHash(m) != Some(wrongHash)
    requires LOCKOUT_TIMESTAMP !in m && FailedAttempts(m) == 0
    requires |times| == MAX_FAILED_ATTEMPTS
    ensures var r := FailedRun(m, wrongHash, times);
            && FailedAttempts(r) == MAX_FAILED_ATTEMPTS
            && LockoutTimestamp(r) == times[4] + LOCKOUT_DURATION_MS
            && LockedOut(r, times[4])
  {
    var m4 := FailedRun(m, wrongHash, times[..4]);
    FailuresBelowThreshold(m, wrongHash, times[..4]);
    FailedRunSplit(m, wrongHash, times[..4], times[4..]);
    assert times[..4] + times[4..] == times;
    assert FailedRun(m4, wrongHash, times[4..]) == VerifyStep(m4, wrongHash, times[4]).prefs by {
      assert times[4..][1..] == [];
    }
  }

  lemma {:induction false} FailedRunSplit(m: Prefs, wrongHash: string, xs: seq<nat>, ys: seq<nat>)
    requires WellTyped(m)
    ensures FailedRun(m, wrongHash, xs + ys) == FailedRun(FailedRun(m, wrongHash, xs), wrongHash, ys)
    decreases |xs|
  {
    if xs == [] {
      assert xs + ys == ys;
    } else {
      assert (xs + ys)[0] == xs[0] && (xs + ys)[1..] == xs[1..] + ys;
      FailedRunSplit(VerifyStep(m, wrongHash, xs[0]).prefs, wrongHash, xs[1..], ys);
    }
  }

  /** While locked out, even the right PIN is refused and nothing changes; once the clock
      reaches the timestamp the right PIN is accepted and clears both counter keys. */
  lemma LockoutExpiry(m: Prefs, pinHash: string, during: nat, after: nat)
    requires WellTyped(m) && StoredPinHash(m) == Some(pinHash)
    requires during < LockoutTimestamp(m) <= after
    ensures VerifyStep(m, pinHash, during) == Verification(false, m)
    ensures var r := VerifyStep(m, pinHash, after);
            r.accepted && FAILED_ATTEMPTS !in r.prefs && LOCKOUT_TIMESTAMP !in r.prefs
  {
  }

  /** The counter is not reset when a lockout is imposed: after the lockout expires, the very
      next wrong PIN locks out again at once. */
  lemma RelockAfterExpiry(m: Prefs, wrongHash: string, now: nat)
    requires WellTyped(m) && StoredPinHash(m) != Some(wrongHash)
    requires FailedAttempts(m) >= MAX_FAILED_ATTEMPTS && !LockedOut(m, now)
    ensures var r := VerifyStep(m, wrongHash, now);
            !r.accepted && LockedOut(r.prefs, now) && LockoutTimestamp(r.prefs) == now + LOCKOUT_DURATION_MS
  {
  }

  /** With no PIN stored every PIN is wrong: it is refused and counted. */
  lemma NoPinNeverAccepted(m: Prefs, pinHash: string, now: nat)
    requires WellTyped(m) && !PinSet(m) && !LockedOut(m, now)
    ensures var r := VerifyStep(m, pinHash, now);
            !r.accepted && FailedAttempts(r.prefs) == FailedAttempts(m) + 1
  {
  }

  /** SecurityManager over its preferences store. `crypto` stands for the platform (key store,
      cipher, digest, encodings); `prefs` is the DataStore contents. */
  class SecurityManager {
    const crypto: Primitives
    var prefs: Prefs

    ghost predicate Valid()
      reads this
    {
      WellTyped(prefs)
    }

    constructor (crypto: Primitives, stored: Prefs)
      requires WellTyped(stored)
      ensures Valid() && this.crypto == crypto && prefs == stored
    {
      this.crypto := crypto;
      prefs := stored;
    }

    function IsPinSet(): (r: bool)
      reads this
      requires Valid()
      ensures r <==> StoredPinHash(prefs).Some?
    {
      PinSet(prefs)
    }

    function IsLockedOut(now: nat): (r: bool)
      reads this
      requires Valid()
      ensures r <==> LOCKOUT_TIMESTAMP in prefs && now < prefs[LOCKOUT_TIMESTAMP].millis
    {
      LockedOut(prefs, now)
    }

    function GetLockoutTimestamp(): (r: int)
      reads this
      requires Valid()
      ensures LOCKOUT_TIMESTAMP !in prefs ==> r == 0
      ensures LOCKOUT_TIMESTAMP in prefs ==> r == prefs[LOCKOUT_TIMESTAMP].millis
    {
      LockoutTimestamp(prefs)
    }

    method SavePin(pin: string)
      requires Valid()
      modifies this
      ensures Valid() && prefs == WithPin(old(prefs), HashPin(crypto, pin))
    {
      var hashed := HashPin(crypto, pin);
      prefs := prefs[USER_PIN_HASH := StringPref(hashed)];
    }

    method RecordFailedAttempt(now: nat)
      requires Valid()
      modifies this
      ensures Valid() && prefs == WithFailedAttempt(old(prefs), now)
    {
      var newAttempts := FailedAttempts(prefs) + 1;
      prefs := prefs[FAILED_ATTEMPTS := IntPref(newAttempts)];
      if newAttempts >= MAX_FAILED_ATTEMPTS {
        prefs := prefs[LOCKOUT_TIMESTAMP := LongPref(now + LOCKOUT_DURATION_MS)];
      }
    }

    method ResetFailedAttempts()
      requires Valid()
      modifies this
      ensures Valid() && prefs == WithAttemptsReset(old(prefs))
    {
      prefs := prefs - {FAILED_ATTEMPTS};
      prefs := prefs - {LOCKOUT_TIMESTAMP};
    }

    method VerifyPin(pin: string, now: nat) returns (isCorrect: bool)
      requires Valid()
      modifies this
      ensures Valid() && Verification(isCorrect, prefs) == VerifyStep(old(prefs), HashPin(crypto, pin), now)
    {
      if IsLockedOut(now) {
        return false;
      }
      var storedPinHash := StoredPinHash(prefs);
      isCorrect := storedPinHash == Some(HashPin(crypto, pin));
      if isCorrect {
        ResetFailedAttempts();
      } else {
        RecordFailedAttempt(now);
      }
    }

    /** `random` is the 32 bytes SecureRandom would draw, `iv` the nonce the cipher would pick;
        both are used only when no passphrase is stored yet. */
    method GetDatabasePassphrase(random: Bytes, iv: Bytes) returns (passphrase: string)
      requires Valid()
      modifies this
      ensures Valid() && PassphraseRead(passphrase, prefs) == PassphraseStep(crypto, old(prefs), random, iv)
    {
      if ENCRYPTED_DB_PASSPHRASE in prefs {
        return Decrypt(crypto, prefs[ENCRYPTED_DB_PASSPHRASE].text, DB_PASSPHRASE_ALIAS);
      }
      var newPassphrase := crypto.base64Encode(random, false);
      var encryptedNewPassphrase := Encrypt(crypto, newPassphrase, DB_PASSPHRASE_ALIAS, iv);
      prefs := prefs[ENCRYPTED_DB_PASSPHRASE := StringPref(encryptedNewPassphrase)];
      passphrase := newPassphrase;
    }
  }
}
