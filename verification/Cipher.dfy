/** Versioned encryption: the key version travels in the first byte of the nonce.
    Models `ContentCipher` and the column decoders in gubbi/crypto/cipher.py over an abstract
    authenticated cipher. */
module Cipher {
  import opened Prelude

  newtype byte = x: int | 0 <= x < 256
  type Bytes = seq<byte>

  const NONCE_LEN := 12
  const VERSION_MIN := 1
  const VERSION_MAX := 255

  /** What opening a sealed text can come to. Text that authenticates but is not UTF-8 raises a
      `UnicodeDecodeError`, which is a `ValueError`. */
  datatype Opened = Plain(text: string) | BadTag | NotUtf8

  datatype Aead = Aead(seal: (Bytes, Bytes, string) -> Bytes, open: (Bytes, Bytes, Bytes) -> Opened)

  /** Opening what was sealed with the same key and nonce gives the text back. */
  ghost predicate Authentic(aead: Aead) {
    forall key: Bytes, nonce: Bytes, text: string :: aead.open(key, nonce, aead.seal(key, nonce, text)) == Plain(text)
  }

  datatype ContentCipher = ContentCipher(keys: map<int, Bytes>, aead: Aead)

  ghost predicate Valid(c: ContentCipher) {
    && Authentic(c.aead)
    && (forall v :: v in c.keys ==> VERSION_MIN <= v <= VERSION_MAX)
  }

  datatype Fault = ValueError | InvalidTag
  datatype Result<+T> = Ok(value: T) | Err(fault: Fault)

  datatype Sealed = Sealed(ct: Bytes, nonce: Bytes)

  /** `entropy` is what the random generator supplies for the rest of the nonce. */
  function EncryptWithVersion(c: ContentCipher, text: string, version: int, entropy: Bytes): Result<Sealed>
    requires Valid(c) && |entropy| == NONCE_LEN - 1
  {
    if version !in c.keys then Err(ValueError)
    else
      var nonce := [version as byte] + entropy;
      Ok(Sealed(c.aead.seal(c.keys[version], nonce, text), nonce))
  }

  function Decrypt(c: ContentCipher, ct: Bytes, nonce: Bytes): Result<string> {
    if |nonce| != NONCE_LEN then Err(ValueError)
    else if nonce[0] as int !in c.keys then Err(ValueError)
    else
      match c.aead.open(c.keys[nonce[0] as int], nonce, ct)
      case Plain(text) => Ok(text)
      case BadTag => Err(InvalidTag)
      case NotUtf8 => Err(ValueError)
  }

  /** Whatever version a text is encrypted under, decryption finds the key by the nonce and gives the
      text back; encryption under an unknown version is refused. */
  lemma DecryptInvertsEncrypt(c: ContentCipher, text: string, version: int, entropy: Bytes)
    requires Valid(c) && |entropy| == NONCE_LEN - 1
    ensures var r := EncryptWithVersion(c, text, version, entropy);
      if version in c.keys
      then r.Ok? && r.value.nonce[..1] == [version as byte] && Decrypt(c, r.value.ct, r.value.nonce) == Ok(text)
      else r == Err(ValueError)
  {
    if version in c.keys {
      var nonce := [version as byte] + entropy;
      assert c.aead.open(c.keys[version], nonce, c.aead.seal(c.keys[version], nonce, text)) == Plain(text);
    }
  }

  /** What a reader of a nullable column pair sees. Every cipher failure is the same opaque error. */
  datatype Field = Absent | Text(text: string) | DecryptionError

  function DecryptContentField(c: ContentCipher, ct: Option<Bytes>, nonce: Option<Bytes>): Field {
    if ct.Some? && nonce.Some? then
      match Decrypt(c, ct.value, nonce.value)
      case Ok(text) => Text(text)
      case Err(_) => DecryptionError
    else if ct.None? && nonce.None? then Absent
    else DecryptionError
  }
}
