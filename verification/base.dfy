/**
 * Values shared by the whole model: optional request fields, route replies,
 * the JavaScript string operations the routes use (case mapping, the `\s`
 * whitespace class, `substring`), decimal and hexadecimal renderings, and
 * the e-mail pattern `/^[^\s@]+@[^\s@]+\.[^\s@]+$/` used by the backend
 * and the registration page alike.
 */
module Base {

  datatype Option<T> = None | Some(value: T)

  /** What an Express route answers: a JSON success payload, or a status and an error message. */
  datatype Reply<T> = Success(value: T) | Failure(status: nat, error: string)

  type byte = x: int | 0 <= x < 256

  /** JavaScript truthiness of an optional string: absent, null and "" are falsy. */
  predicate Present(o: Option<string>) {
    o.Some? && o.value != ""
  }

  // ---------------------------------------------------------------------
  // Characters and case mapping (ASCII letters; other characters unchanged)

  predicate IsUpperLetter(c: char) { 'A' <= c <= 'Z' }
  predicate IsLowerLetter(c: char) { 'a' <= c <= 'z' }
  predicate IsDigit(c: char) { '0' <= c <= '9' }

  function UpperChar(c: char): char {
    if IsLowerLetter(c) then (c as int - 32) as char else c
  }

  function LowerChar(c: char): char {
    if IsUpperLetter(c) then (c as int + 32) as char else c
  }

  /** `String.prototype.toUpperCase` */
  function ToUpper(s: string): (r: string)
    ensures |r| == |s|
    ensures forall i :: 0 <= i < |s| ==> r[i] == UpperChar(s[i])
  {
    seq(|s|, i requires 0 <= i < |s| => UpperChar(s[i]))
  }

  /** `String.prototype.toLowerCase` */
  function ToLower(s: string): (r: string)
    ensures |r| == |s|
    ensures forall i :: 0 <= i < |s| ==> r[i] == LowerChar(s[i])
  {
    seq(|s|, i requires 0 <= i < |s| => LowerChar(s[i]))
  }

  lemma ToUpperIdempotent(s: string)
    ensures ToUpper(ToUpper(s)) == ToUpper(s)
  {
    assert forall i :: 0 <= i < |s| ==> UpperChar(UpperChar(s[i])) == UpperChar(s[i]);
  }

  lemma ToLowerIdempotent(s: string)
    ensures ToLower(ToLower(s)) == ToLower(s)
  {
    assert forall i :: 0 <= i < |s| ==> LowerChar(LowerChar(s[i])) == LowerChar(s[i]);
  }

  lemma ToUpperAppend(a: string, b: string)
    ensures ToUpper(a + b) == ToUpper(a) + ToUpper(b)
  {
  }

  lemma ToLowerAppend(a: string, b: string)
    ensures ToLower(a + b) == ToLower(a) + ToLower(b)
  {
  }

  // ---------------------------------------------------------------------
  // Whitespace: the characters matched by the regular-expression class `\s`

  predicate IsWhitespace(c: char) {
    var n := c as int;
    (9 <= n <= 13) || n == 32 || n == 0xA0 || n == 0x1680 || (0x2000 <= n <= 0x200A)
    || n == 0x2028 || n == 0x2029 || n == 0x202F || n == 0x205F || n == 0x3000 || n == 0xFEFF
  }

  predicate NoWhitespace(s: string) {
    forall i :: 0 <= i < |s| ==> !IsWhitespace(s[i])
  }

  /** `s.replace(/\s+/g, '')` and `s.replace(/\s/g, '')`: every whitespace character removed. */
  function RemoveWhitespace(s: string): (r: string)
    ensures |r| <= |s|
  {
    if s == [] then []
    else if IsWhitespace(s[0]) then RemoveWhitespace(s[1..])
    else [s[0]] + RemoveWhitespace(s[1..])
  }

  lemma {:induction false} RemoveWhitespaceSpec(s: string)
    ensures NoWhitespace(RemoveWhitespace(s))
    ensures NoWhitespace(s) ==> RemoveWhitespace(s) == s
  {
    if s != [] {
      RemoveWhitespaceSpec(s[1..]);
      assert NoWhitespace(s) ==> NoWhitespace(s[1..]) by {
        if NoWhitespace(s) {
          forall i | 0 <= i < |s[1..]| ensures !IsWhitespace(s[1..][i]) {
            assert s[1..][i] == s[i + 1];
          }
        }
      }
    }
  }

  /** Case mapping never creates or removes whitespace, so it commutes with removing it. */
  lemma {:induction false} RemoveWhitespaceToLower(s: string)
    ensures RemoveWhitespace(ToLower(s)) == ToLower(RemoveWhitespace(s))
  {
    if s != [] {
      RemoveWhitespaceToLower(s[1..]);
      assert ToLower(s)[1..] == ToLower(s[1..]);
      assert ToLower(s)[0] == LowerChar(s[0]);
      if !IsWhitespace(s[0]) {
        ToLowerAppend([s[0]], RemoveWhitespace(s[1..]));
      }
    }
  }

  lemma {:induction false} RemoveWhitespaceToUpper(s: string)
    ensures RemoveWhitespace(ToUpper(s)) == ToUpper(RemoveWhitespace(s))
  {
    if s != [] {
      RemoveWhitespaceToUpper(s[1..]);
      assert ToUpper(s)[1..] == ToUpper(s[1..]);
      assert ToUpper(s)[0] == UpperChar(s[0]);
      if !IsWhitespace(s[0]) {
        ToUpperAppend([s[0]], RemoveWhitespace(s[1..]));
      }
    }
  }

  /** `s.substring(0, n)` for a non-negative n. */
  function Prefix(s: string, n: nat): (r: string)
    ensures |r| == if |s| < n then |s| else n
    ensures r <= s
  {
    if |s| < n then s else s[..n]
  }

  // ---------------------------------------------------------------------
  // Decimal rendering (`Number.prototype.toString`) and six-digit codes

  function DigitChar(d: nat): char
    requires d < 10
  {
    ('0' as int + d) as char
  }

  function DecimalString(n: nat): string
    decreases n
  {
    if n < 10 then [DigitChar(n)] else DecimalString(n / 10) + [DigitChar(n % 10)]
  }

  function Pow10(k: nat): nat {
    if k == 0 then 1 else 10 * Pow10(k - 1)
  }

  predicate AllDigits(s: string) {
    forall i :: 0 <= i < |s| ==> IsDigit(s[i])
  }

  /** The pattern `/^\d{6}$/`: exactly six ASCII digits. */
  predicate IsSixDigits(s: string) {
    |s| == 6 && AllDigits(s)
  }

  /** A number with k decimal digits renders as exactly k digit characters. */
  lemma {:induction false} DecimalStringShape(n: nat, k: nat)
    requires 1 <= k
    requires (if k == 1 then 0 else Pow10(k - 1)) <= n < Pow10(k)
    ensures |DecimalString(n)| == k
    ensures AllDigits(DecimalString(n))
  {
    if n >= 10 {
      DecimalStringShape(n / 10, k - 1);
    }
  }

  /** `Math.floor(100000 + Math.random() * 900000).toString()` always yields six digits. */
  lemma SixDigitCode(n: nat)
    requires 100000 <= n <= 999999
    ensures IsSixDigits(DecimalString(n))
  {
    assert Pow10(5) == 100000 && Pow10(6) == 1000000;
    DecimalStringShape(n, 6);
  }

  // ---------------------------------------------------------------------
  // Hexadecimal (`Buffer.toString('hex')` and `Buffer.from(s, 'hex')`)

  predicate IsLowerHexChar(c: char) { '0' <= c <= '9' || 'a' <= c <= 'f' }
  predicate IsUpperHexChar(c: char) { '0' <= c <= '9' || 'A' <= c <= 'F' }
  predicate IsHexChar(c: char) { IsLowerHexChar(c) || IsUpperHexChar(c) }

  function HexDigit(n: nat): (c: char)
    requires n < 16
    ensures IsLowerHexChar(c)
  {
    if n < 10 then ('0' as int + n) as char else ('a' as int + n - 10) as char
  }

  function HexValue(c: char): (n: nat)
    requires IsHexChar(c)
    ensures n < 16
  {
    if '0' <= c <= '9' then c as int - '0' as int
    else if 'a' <= c <= 'f' then c as int - 'a' as int + 10
    else c as int - 'A' as int + 10
  }

  function HexEncode(bs: seq<byte>): string {
    if bs == [] then [] else [HexDigit(bs[0] / 16), HexDigit(bs[0] % 16)] + HexEncode(bs[1..])
  }

  /** Node's lenient hex decoding: pairs of hex digits, stopping at the first pair that is not one. */
  function HexDecode(s: string): seq<byte>
    decreases |s|
  {
    if |s| >= 2 && IsHexChar(s[0]) && IsHexChar(s[1])
    then [HexValue(s[0]) * 16 + HexValue(s[1])] + HexDecode(s[2..])
    else []
  }

  lemma {:induction false} HexEncodeShape(bs: seq<byte>)
    ensures |HexEncode(bs)| == 2 * |bs|
    ensures forall i :: 0 <= i < |HexEncode(bs)| ==> IsLowerHexChar(HexEncode(bs)[i])
  {
    if bs != [] {
      HexEncodeShape(bs[1..]);
    }
  }

  lemma {:induction false} HexRoundTrip(bs: seq<byte>)
    ensures HexDecode(HexEncode(bs)) == bs
  {
    if bs != [] {
      HexRoundTrip(bs[1..]);
      var s := HexEncode(bs);
      assert s[2..] == HexEncode(bs[1..]);
      assert HexValue(s[0]) == bs[0] / 16 && HexValue(s[1]) == bs[0] % 16;
    }
  }

  // ---------------------------------------------------------------------
  // The e-mail pattern /^[^\s@]+@[^\s@]+\.[^\s@]+$/

  predicate NoAt(s: string) {
    forall i :: 0 <= i < |s| ==> s[i] != '@'
  }

  /** A '.' that is neither the first nor the last character. */
  predicate HasInnerDot(d: string) {
    exists j :: 0 < j < |d| - 1 && d[j] == '.'
  }

  /**
   * The whole string is non-whitespace characters forming local@domain with
   * exactly one '@', a non-empty local part, and a domain holding a '.' with
   * at least one character on each side.
   */
  predicate MatchesEmailPattern(s: string) {
    && NoWhitespace(s)
    && exists k :: 0 < k < |s| && s[k] == '@' && NoAt(s[..k]) && NoAt(s[k + 1..]) && HasInnerDot(s[k + 1..])
  }

  /** Lower-casing moves no '@'. */
  lemma ToLowerNoAt(s: string)
    requires NoAt(s)
    ensures NoAt(ToLower(s))
  {
    forall i | 0 <= i < |s| ensures ToLower(s)[i] != '@' {
      assert s[i] != '@';
    }
  }

  /** Lower-casing creates no whitespace. */
  lemma ToLowerNoWhitespace(s: string)
    requires NoWhitespace(s)
    ensures NoWhitespace(ToLower(s))
  {
    forall i | 0 <= i < |s| ensures !IsWhitespace(ToLower(s)[i]) {
      assert !IsWhitespace(s[i]);
    }
  }

  /** Lower-casing keeps an address inside the pattern (it moves no '@', '.' or whitespace). */
  lemma ToLowerKeepsEmailPattern(s: string)
    requires MatchesEmailPattern(s)
    ensures MatchesEmailPattern(ToLower(s))
  {
    var t := ToLower(s);
    var k :| 0 < k < |s| && s[k] == '@' && NoAt(s[..k]) && NoAt(s[k + 1..]) && HasInnerDot(s[k + 1..]);
    var local, domain := s[..k], s[k + 1..];
    assert t[..k] == ToLower(local);
    assert t[k + 1..] == ToLower(domain);
    ToLowerNoWhitespace(s);
    ToLowerNoAt(local);
    ToLowerNoAt(domain);
    var j :| 0 < j < |domain| - 1 && domain[j] == '.';
    assert ToLower(domain)[j] == '.';
    assert t[k] == '@';
  }
}
