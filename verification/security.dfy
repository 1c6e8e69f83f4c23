/**
 * `SecurityUtils` (backend/utils/security.js): per-field encryption of the
 * voter's personal and authentication data under one process-wide key,
 * one-way hashes of lookup fields, voter identifiers, and the
 * normalisation of personal data.
 */
module Security {
  import opened Base
  import opened Crypto

  const DefaultKeyString := "WeVote2025SecureEncryptionKey123!"
  const Algorithm := "aes-256-cbc"

  /** The singleton's state, fixed by its constructor. */
  datatype SecurityUtils = SecurityUtils(encryptionKey: Digest, algorithm: string)

  /** `{ encrypted, iv }`: the ciphertext and its IV as a hex string. */
  datatype EncryptedData = EncryptedData(encrypted: Ciphertext, iv: string)

  /** The constructor: the key is SHA-256 of ENCRYPTION_KEY, or of the built-in string when that is unset or empty. */
  function NewSecurityUtils(envKey: Option<string>): (u: SecurityUtils)
    ensures u.algorithm == Algorithm
    ensures Present(envKey) ==> u.encryptionKey == Sha256(envKey.value)
    ensures !Present(envKey) ==> u.encryptionKey == Sha256(DefaultKeyString)
  {
    SecurityUtils(Sha256(if Present(envKey) then envKey.value else DefaultKeyString), Algorithm)
  }

  /** Encrypt under the single key with a fresh 16-byte IV drawn by the caller. */
  function Encrypt(u: SecurityUtils, iv: seq<byte>, plaintext: string): (r: EncryptedData)
    requires |iv| == IvLength
    ensures |r.iv| == 2 * IvLength && forall i :: 0 <= i < |r.iv| ==> IsLowerHexChar(r.iv[i])
    ensures Decrypt(u, r) == Some(plaintext)
  {
    HexEncodeShape(iv);
    HexRoundTrip(iv);
    EncryptedData(AesEncrypt(u.encryptionKey, iv, plaintext), HexEncode(iv))
  }

  /**
   * The four decrypt methods (`decryptNationalInsurance`, `decryptTotpSecret`,
   * `decryptAccessCode`, `decryptEmail`) share this body; None is a throw.
   */
  function Decrypt(u: SecurityUtils, data: EncryptedData): Option<string> {
    AesDecrypt(u.encryptionKey, HexDecode(data.iv), data.encrypted)
  }

  /** Every encryption draws its own IV, so the same plaintext never yields the same ciphertext or IV twice. */
  lemma FreshIvDistinctCiphertexts(u: SecurityUtils, plaintext: string, iv1: seq<byte>, iv2: seq<byte>)
    requires |iv1| == IvLength && |iv2| == IvLength && iv1 != iv2
    ensures Encrypt(u, iv1, plaintext).encrypted != Encrypt(u, iv2, plaintext).encrypted
    ensures Encrypt(u, iv1, plaintext).iv != Encrypt(u, iv2, plaintext).iv
  {
    HexRoundTrip(iv1);
    HexRoundTrip(iv2);
  }

  /** Data encrypted under one key does not open under another (a rotated key cannot read old records). */
  lemma OtherKeyCannotDecrypt(u: SecurityUtils, v: SecurityUtils, iv: seq<byte>, plaintext: string)
    requires |iv| == IvLength && u.encryptionKey != v.encryptionKey
    ensures Decrypt(v, Encrypt(u, iv, plaintext)) == None
  {
  }

  /** `hashEmail`: SHA-256 of the lower-cased address. */
  function HashEmail(email: string): Digest {
    Sha256(ToLower(email))
  }

  /** `hashNationalInsurance`: SHA-256 of the upper-cased number. */
  function HashNationalInsurance(ni: string): Digest {
    Sha256(ToUpper(ni))
  }

  /** `hashTotpSecret`: SHA-256 of the secret as given. */
  function HashTotpSecret(secret: string): Digest {
    Sha256(secret)
  }

  /** Addresses hash equally exactly when they agree up to case; the hash ignores case. */
  lemma HashEmailIgnoresCase(a: string, b: string)
    ensures HashEmail(a) == HashEmail(b) <==> ToLower(a) == ToLower(b)
    ensures HashEmail(ToLower(a)) == HashEmail(a)
  {
    ToLowerIdempotent(a);
  }

  lemma HashNationalInsuranceIgnoresCase(a: string, b: string)
    ensures HashNationalInsurance(a) == HashNationalInsurance(b) <==> ToUpper(a) == ToUpper(b)
    ensures HashNationalInsurance(ToUpper(a)) == HashNationalInsurance(a)
  {
    ToUpperIdempotent(a);
  }

  /** `encryptNationalInsurance`: the number is upper-cased before encryption. */
  function EncryptNationalInsurance(u: SecurityUtils, ni: string, iv: seq<byte>): (r: EncryptedData)
    requires |iv| == IvLength
    ensures Decrypt(u, r) == Some(ToUpper(ni))
    ensures r.iv == HexEncode(iv)
  {
    Encrypt(u, iv, ToUpper(ni))
  }

  /** `encryptTotpSecret`: the secret is encrypted as given. */
  function EncryptTotpSecret(u: SecurityUtils, secret: string, iv: seq<byte>): (r: EncryptedData)
    requires |iv| == IvLength
    ensures Decrypt(u, r) == Some(secret)
    ensures r.iv == HexEncode(iv)
  {
    Encrypt(u, iv, secret)
  }

  /** `encryptAccessCode`: `accessCode.toString()` of the string the caller passes is that string. */
  function EncryptAccessCode(u: SecurityUtils, code: string, iv: seq<byte>): (r: EncryptedData)
    requires |iv| == IvLength
    ensures Decrypt(u, r) == Some(code)
    ensures r.iv == HexEncode(iv)
  {
    Encrypt(u, iv, code)
  }

  /** `encryptEmail`: the address is lower-cased before encryption. */
  function EncryptEmail(u: SecurityUtils, email: string, iv: seq<byte>): (r: EncryptedData)
    requires |iv| == IvLength
    ensures Decrypt(u, r) == Some(ToLower(email))
    ensures r.iv == HexEncode(iv)
  {
    Encrypt(u, iv, ToLower(email))
  }

  /** `generateVoterId`: "VTR-" and eight random bytes as upper-case hex. */
  function GenerateVoterId(bytes: seq<byte>): (id: string)
    requires |bytes| == 8
    ensures |id| == 20 && id[..4] == "VTR-"
    ensures forall i :: 4 <= i < 20 ==> IsUpperHexChar(id[i])
  {
    HexEncodeShape(bytes);
    "VTR-" + ToUpper(HexEncode(bytes))
  }

  /** `normalizeField`: "" for a falsy value, else lower-cased with all whitespace removed. */
  function NormalizeField(value: Option<string>): (r: string)
    ensures !Present(value) ==> r == ""
    ensures Present(value) ==> r == ToLower(RemoveWhitespace(value.value))
    ensures NoWhitespace(r) && ToLower(r) == r
  {
    if Present(value) then
      RemoveWhitespaceSpec(ToLower(value.value));
      RemoveWhitespaceToLower(value.value);
      ToLowerIdempotent(RemoveWhitespace(value.value));
      RemoveWhitespace(ToLower(value.value))
    else ""
  }

  lemma NormalizeFieldIdempotent(value: Option<string>)
    ensures NormalizeField(Some(NormalizeField(value))) == NormalizeField(value)
  {
    var r := NormalizeField(value);
    if r != "" {
      RemoveWhitespaceSpec(r);
    }
  }

  datatype PersonalData = PersonalData(firstName: string, lastName: string, postcode: string, nationalInsurance: string)

  /** `normalizePersonalData`: the `normalizeField` rule applied to each field on its own. */
  function NormalizePersonalData(firstName: Option<string>, lastName: Option<string>,
                                 postcode: Option<string>, nationalInsurance: Option<string>): (r: PersonalData)
    ensures r.firstName == NormalizeField(firstName) && r.lastName == NormalizeField(lastName)
    ensures r.postcode == NormalizeField(postcode) && r.nationalInsurance == NormalizeField(nationalInsurance)
  {
    PersonalData(NormalizeField(firstName), NormalizeField(lastName), NormalizeField(postcode), NormalizeField(nationalInsurance))
  }
}
