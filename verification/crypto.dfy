/**
 * The cryptographic primitives the backend borrows from Node's `crypto`
 * module and from `speakeasy`, kept symbolic. SHA-256 (FIPS 180-4) is a
 * digest that is equal for two inputs exactly when the inputs are equal
 * (collision resistance); AES-256-CBC (NIST SP 800-38A, section 6.2) is a
 * ciphertext that only the same key and initialization vector open.
 * TOTP (RFC 6238) is checked against an HOTP generator (RFC 4226) that the
 * model receives as a function, so nothing is assumed about its output.
 */
module Crypto {
  import opened Base

  /** `crypto.createHash('sha256').update(input).digest()` */
  datatype Digest = Sha256(input: string)

  /** The output of `createCipheriv('aes-256-cbc', key, iv)` on a plaintext. */
  datatype Ciphertext = AesCbc(key: Digest, iv: seq<byte>, plaintext: string)

  /** `crypto.randomBytes(16)`: the block size, and so the IV length, of AES. */
  const IvLength: nat := 16

  function AesEncrypt(key: Digest, iv: seq<byte>, plaintext: string): Ciphertext
    requires |iv| == IvLength
  {
    AesCbc(key, iv, plaintext)
  }

  /**
   * `createDecipheriv(...).update(...) + final()`: throws (None) for an IV
   * that is not 16 bytes long, and for a ciphertext made under another key
   * or IV.
   */
  function AesDecrypt(key: Digest, iv: seq<byte>, c: Ciphertext): (r: Option<string>)
    ensures r.Some? <==> |iv| == IvLength && c.key == key && c.iv == iv
    ensures r.Some? ==> r.value == c.plaintext
  {
    if |iv| == IvLength && c.key == key && c.iv == iv then Some(c.plaintext) else None
  }

  lemma AesRoundTrip(key: Digest, iv: seq<byte>, plaintext: string)
    requires |iv| == IvLength
    ensures AesDecrypt(key, iv, AesEncrypt(key, iv, plaintext)) == Some(plaintext)
  {
  }
}

/**
 * `speakeasy.totp.verify({secret, encoding: 'base32', token, window})`:
 * the counter is the number of whole 30-second steps since the epoch, and
 * the token is accepted when the HOTP value of one of the counters
 * counter - window .. counter + window equals it (RFC 6238, section 5.2).
 */
module Totp {

  /** The HOTP value of a base32 secret at a counter. */
  type Hotp = (string, int) -> string

  const StepMs: nat := 30000

  function Counter(nowMs: nat): nat {
    nowMs / StepMs
  }

  /** Some counter among `count` consecutive ones starting at `from` yields the token. */
  predicate AnyCounterMatches(hotp: Hotp, secret: string, token: string, from: int, count: nat)
    decreases count
  {
    count > 0 && (hotp(secret, from) == token || AnyCounterMatches(hotp, secret, token, from + 1, count - 1))
  }

  predicate Verify(hotp: Hotp, secret: string, token: string, nowMs: nat, window: nat) {
    AnyCounterMatches(hotp, secret, token, Counter(nowMs) - window, 2 * window + 1)
  }

  lemma {:induction false} AnyCounterMatchesMeaning(hotp: Hotp, secret: string, token: string, from: int, count: nat)
    ensures AnyCounterMatches(hotp, secret, token, from, count)
        <==> exists c :: from <= c < from + count && hotp(secret, c) == token
    decreases count
  {
    if count > 0 {
      AnyCounterMatchesMeaning(hotp, secret, token, from + 1, count - 1);
    }
  }

  /** The symmetric step window: the token is the HOTP value of a counter within `window` steps of now. */
  lemma VerifyMeaning(hotp: Hotp, secret: string, token: string, nowMs: nat, window: nat)
    ensures Verify(hotp, secret, token, nowMs, window)
        <==> exists c :: Counter(nowMs) - window <= c <= Counter(nowMs) + window && hotp(secret, c) == token
  {
    AnyCounterMatchesMeaning(hotp, secret, token, Counter(nowMs) - window, 2 * window + 1);
  }

  /** A code that passes with one window passes with any wider one (registration uses 1, voting day 2). */
  lemma WiderWindowAccepts(hotp: Hotp, secret: string, token: string, nowMs: nat, narrow: nat, wide: nat)
    requires narrow <= wide
    requires Verify(hotp, secret, token, nowMs, narrow)
    ensures Verify(hotp, secret, token, nowMs, wide)
  {
    VerifyMeaning(hotp, secret, token, nowMs, narrow);
    VerifyMeaning(hotp, secret, token, nowMs, wide);
  }
}
