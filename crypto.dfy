/** The AES-GCM framing of SecurityManager.encrypt/decrypt and the PIN hash, over the
    platform primitives they call. The primitives themselves (key store, AES-GCM, SHA-256,
    Base64, UTF-8) are not modelled: they are function values supplied by the caller, and
    the facts the model relies on about them are collected in `Sound`. */
module Crypto {
  import opened Wrappers

  newtype byte = x: int | 0 <= x < 256
  type Bytes = seq<byte>

  /** GCM nonce length that decrypt splits off the front of the decoded blob. */
  const IV_LENGTH: nat := 12
  /** Default key alias of encrypt/decrypt, used for credential passwords. */
  const PASSWORD_ALIAS: string := "password_key"

  /** The foreign calls made by SecurityManager. The key store is implicit: the key
      that `gcmSeal`/`gcmOpen` use is the one the platform holds under the alias. */
  datatype Primitives = Primitives(
    utf8Encode: string -> Bytes,                       // String.toByteArray()
    utf8Decode: Bytes -> string,                       // String(bytes)
    base64Encode: (Bytes, bool) -> string,             // true: Base64.DEFAULT, false: NO_WRAP
    base64Decode: string -> Option<Bytes>,             // None: the decoder throws
    sha256: Bytes -> Bytes,                            // MessageDigest "SHA-256"
    gcmSeal: (string, Bytes, Bytes) -> Bytes,          // (alias, iv, plaintext) -> ciphertext ++ tag
    gcmOpen: (string, Bytes, Bytes) -> Option<Bytes>   // None: any exception (bad tag, no key, ...)
  )

  /** What the model assumes of the platform: each encoding is undone by its decoder,
      and GCM decryption with the nonce and key used to encrypt recovers the plaintext. */
  ghost predicate Sound(p: Primitives) {
    && (forall s: string :: p.utf8Decode(p.utf8Encode(s)) == s)
    && (forall b: Bytes, wrap: bool :: p.base64Decode(p.base64Encode(b, wrap)) == Some(b))
    && (forall alias: string, iv: Bytes, m: Bytes ::
          |iv| == IV_LENGTH ==> p.gcmOpen(alias, iv, p.gcmSeal(alias, iv, m)) == Some(m))
  }

  /** hashPin: Base64 (no wrapping) of the SHA-256 digest of the PIN's bytes. */
  function HashPin(p: Primitives, pin: string): string {
    p.base64Encode(p.sha256(p.utf8Encode(pin)), false)
  }

  /** The framing decrypt reads: the Base64-decoded blob split into a 12-byte IV and the
      rest. None when the text does not decode or is shorter than an IV (copyOfRange throws). */
  function Unframe(p: Primitives, s: string): (r: Option<(Bytes, Bytes)>)
    ensures r.Some? <==> p.base64Decode(s).Some? && |p.base64Decode(s).value| >= IV_LENGTH
    ensures r.Some? ==> |r.value.0| == IV_LENGTH && r.value.0 + r.value.1 == p.base64Decode(s).value
  {
    match p.base64Decode(s)
    case None => None
    case Some(combined) =>
      if |combined| < IV_LENGTH then None
      else
        assert combined[..IV_LENGTH] + combined[IV_LENGTH..] == combined;
        Some((combined[..IV_LENGTH], combined[IV_LENGTH..]))
  }

  /** encrypt(data, alias): the Base64 (DEFAULT) text of iv ++ ciphertext, where the IV is the
      fresh nonce the cipher drew on initialisation. */
  function Encrypt(p: Primitives, data: string, alias: string, iv: Bytes): (r: string)
    ensures Sound(p) && |iv| == IV_LENGTH ==>
              Unframe(p, r) == Some((iv, p.gcmSeal(alias, iv, p.utf8Encode(data))))
  {
    var sealed := p.gcmSeal(alias, iv, p.utf8Encode(data));
    var combined := iv + sealed;
    assert combined[..|iv|] == iv && combined[|iv|..] == sealed;
    p.base64Encode(combined, true)
  }

  /** decrypt(text, alias): every failure on the way (decoding, a blob shorter than the IV,
      key lookup, authentication) yields the empty string. */
  function Decrypt(p: Primitives, s: string, alias: string): (r: string)
    ensures Unframe(p, s).None? ==> r == ""
    ensures Unframe(p, s).Some? && p.gcmOpen(alias, Unframe(p, s).value.0, Unframe(p, s).value.1).None? ==> r == ""
    ensures r != "" ==>
              && Unframe(p, s).Some?
              && p.gcmOpen(alias, Unframe(p, s).value.0, Unframe(p, s).value.1).Some?
  {
    match Unframe(p, s)
    case None => ""
    case Some((iv, data)) =>
      match p.gcmOpen(alias, iv, data)
      case None => ""
      case Some(plain) => p.utf8Decode(plain)
  }

  /** Round trip: what encrypt produced under an alias, decrypt under the same alias returns. */
  lemma DecryptEncrypt(p: Primitives, data: string, alias: string, iv: Bytes)
    requires Sound(p) && |iv| == IV_LENGTH
    ensures Decrypt(p, Encrypt(p, data, alias, iv), alias) == data
  {
    var plain := p.utf8Encode(data);
    assert Unframe(p, Encrypt(p, data, alias, iv)) == Some((iv, p.gcmSeal(alias, iv, plain)));
    assert p.gcmOpen(alias, iv, p.gcmSeal(alias, iv, plain)) == Some(plain);
    assert p.utf8Decode(plain) == data;
  }

  /** The empty string is ambiguous: it is both the decryption of an encrypted empty string
      and the value every failure returns, so callers cannot tell the two apart. */
  lemma EmptyResultIsAmbiguous(p: Primitives, alias: string, iv: Bytes, garbage: string)
    requires Sound(p) && |iv| == IV_LENGTH && p.base64Decode(garbage).None?
    ensures Decrypt(p, Encrypt(p, "", alias, iv), alias) == Decrypt(p, garbage, alias) == ""
  {
    DecryptEncrypt(p, "", alias, iv);
  }
}
