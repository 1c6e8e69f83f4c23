/**
 * The voting-day verification form (frontend/src/app/voter-verification.ts):
 * the UK National Insurance number validator, the two six-digit code fields
 * and the submission that hands the three values to POST /verify-voter.
 */
module VoterVerification {
  import opened Base
  import opened Crypto
  import opened Security
  import Totp
  import opened Records
  import opened Matching

  // ---------------------------------------------------------------------
  // The character classes of the two patterns

  /** `[A-CEGHJ-PR-TW-Z]` */
  predicate FirstLetterClass(c: char) {
    ('A' <= c <= 'C') || c == 'E' || c == 'G' || c == 'H' || ('J' <= c <= 'P') || ('R' <= c <= 'T') || ('W' <= c <= 'Z')
  }

  /** `[A-CEGHJ-NPR-TW-Z]` */
  predicate SecondLetterClass(c: char) {
    ('A' <= c <= 'C') || c == 'E' || c == 'G' || c == 'H' || ('J' <= c <= 'N') || c == 'P' || ('R' <= c <= 'T') || ('W' <= c <= 'Z')
  }

  /** `[A-D]` */
  predicate SuffixClass(c: char) {
    'A' <= c <= 'D'
  }

  /** The first class is the upper-case letters other than D, F, I, Q, U and V. */
  lemma FirstLetterClassMeaning(c: char)
    ensures FirstLetterClass(c) <==> IsUpperLetter(c) && c != 'D' && c != 'F' && c != 'I' && c != 'Q' && c != 'U' && c != 'V'
  {
  }

  /** The second class additionally leaves out O. */
  lemma SecondLetterClassMeaning(c: char)
    ensures SecondLetterClass(c) <==> FirstLetterClass(c) && c != 'O'
  {
  }

  // ---------------------------------------------------------------------
  // The two patterns

  /** `/^[A-CEGHJ-PR-TW-Z][A-CEGHJ-NPR-TW-Z]\d{6}[A-D]$/`, the standard format. */
  predicate StandardPattern(s: string) {
    && |s| == 9
    && FirstLetterClass(s[0])
    && SecondLetterClass(s[1])
    && AllDigits(s[2..8])
    && SuffixClass(s[8])
  }

  /**
   * `\s?`: one optional whitespace character. What follows it in the pattern
   * is a digit or a letter, never whitespace, so the optional character is
   * consumed exactly when it is there and no other choice can lead to a match.
   */
  function OptionalSpace(s: string): (r: string)
    ensures r == s || (|s| > 0 && IsWhitespace(s[0]) && r == s[1..])
  {
    if |s| > 0 && IsWhitespace(s[0]) then s[1..] else s
  }

  /** `(\s?\d{2}){n}\s?[A-D]$`: n optionally spaced digit pairs, then an optionally spaced suffix letter. */
  predicate SpacedTail(s: string, n: nat)
    decreases n
  {
    var t := OptionalSpace(s);
    if n == 0 then |t| == 1 && SuffixClass(t[0])
    else |t| >= 2 && IsDigit(t[0]) && IsDigit(t[1]) && SpacedTail(t[2..], n - 1)
  }

  /** `/^[A-CEGHJ-PR-TW-Z][A-CEGHJ-NPR-TW-Z]\s?\d{2}\s?\d{2}\s?\d{2}\s?[A-D]$/`, the format "with spaces". */
  predicate SpacedPattern(s: string) {
    |s| >= 2 && FirstLetterClass(s[0]) && SecondLetterClass(s[1]) && SpacedTail(s[2..], 3)
  }

  /** A digit run splits into its first two digits and the rest. */
  lemma AllDigitsSplit(s: string, k: nat)
    requires 2 <= k <= |s|
    ensures AllDigits(s[..k]) <==> IsDigit(s[0]) && IsDigit(s[1]) && AllDigits(s[2..][..k - 2])
  {
    var whole, rest := s[..k], s[2..][..k - 2];
    assert whole[0] == s[0] && whole[1] == s[1];
    if IsDigit(s[0]) && IsDigit(s[1]) && AllDigits(rest) {
      forall i | 0 <= i < k ensures IsDigit(whole[i]) {
        if i >= 2 {
          assert whole[i] == rest[i - 2];
        }
      }
    }
    if AllDigits(whole) {
      forall i | 0 <= i < k - 2 ensures IsDigit(rest[i]) {
        assert rest[i] == whole[i + 2];
      }
    }
  }

  /** What follows a whitespace-free string's first two characters is whitespace-free too. */
  lemma NoWhitespaceDrop(s: string)
    requires NoWhitespace(s) && |s| >= 2
    ensures NoWhitespace(s[2..])
  {
    var t := s[2..];
    forall i | 0 <= i < |t| ensures !IsWhitespace(t[i]) {
      assert t[i] == s[i + 2];
    }
  }

  /** Without whitespace, n digit pairs and a suffix are exactly 2n digits and the suffix letter. */
  lemma {:induction false} SpacedTailWithoutWhitespace(s: string, n: nat)
    requires NoWhitespace(s)
    ensures SpacedTail(s, n) <==> |s| == 2 * n + 1 && AllDigits(s[..2 * n]) && SuffixClass(s[2 * n])
  {
    assert OptionalSpace(s) == s by {
      if |s| > 0 {
        assert !IsWhitespace(s[0]);
      }
    }
    if n > 0 && |s| >= 2 {
      var t := s[2..];
      NoWhitespaceDrop(s);
      SpacedTailWithoutWhitespace(t, n - 1);
      if |s| == 2 * n + 1 {
        AllDigitsSplit(s, 2 * n);
        assert s[2 * n] == t[2 * (n - 1)];
      }
    }
  }

  /**
   * Once whitespace is gone, the pattern "with spaces" accepts exactly what
   * the standard pattern accepts: the second pattern adds nothing.
   */
  lemma SpacedPatternWithoutWhitespace(s: string)
    requires NoWhitespace(s)
    ensures SpacedPattern(s) <==> StandardPattern(s)
  {
    if |s| >= 2 {
      var t := s[2..];
      NoWhitespaceDrop(s);
      SpacedTailWithoutWhitespace(t, 3);
      if |s| == 9 {
        assert t[..6] == s[2..8];
        assert t[6] == s[8];
      }
    }
  }

  /** A space and a digit pair at the front of the tail are consumed together. */
  lemma SpacedTailStep(s: string, n: nat)
    requires n > 0 && |s| >= 3 && IsWhitespace(s[0]) && IsDigit(s[1]) && IsDigit(s[2])
    ensures SpacedTail(s, n) == SpacedTail(s[3..], n - 1)
  {
    assert OptionalSpace(s)[2..] == s[3..];
  }

  /** On a string that still holds spaces the two patterns do differ. */
  lemma SpacedPatternAcceptsSpaces(s: string)
    requires s == "AB 12 34 56 C"
    ensures SpacedPattern(s) && !StandardPattern(s)
  {
    SpacedTailStep(s[2..], 3);
    assert s[2..][3..] == s[5..];
    SpacedTailStep(s[5..], 2);
    assert s[5..][3..] == s[8..];
    SpacedTailStep(s[8..], 1);
    assert s[8..][3..] == s[11..];
    assert OptionalSpace(s[11..]) == [s[12]];
  }

  // ---------------------------------------------------------------------
  // The validator

  /** `control.value.toUpperCase().replace(/\s/g, '')` */
  function Normalized(value: string): (r: string)
    ensures NoWhitespace(r)
    ensures ToUpper(r) == r
  {
    RemoveWhitespaceSpec(ToUpper(value));
    RemoveWhitespaceToUpper(value);
    ToUpperIdempotent(RemoveWhitespace(value));
    RemoveWhitespace(ToUpper(value))
  }

  /**
   * `nationalInsuranceValidator`: an empty value passes (the `required`
   * validator rejects it separately); any other value passes when its
   * normalised form matches one of the two patterns. Since the normalised
   * form holds no whitespace, that is the standard pattern alone.
   */
  function NationalInsuranceValidator(value: string): (valid: bool)
    ensures value == "" ==> valid
    ensures value != "" ==> (valid <==> StandardPattern(Normalized(value)))
  {
    if value == "" then true
    else
      var ni := Normalized(value);
      SpacedPatternWithoutWhitespace(ni);
      StandardPattern(ni) || SpacedPattern(ni)
  }

  /**
   * A non-empty value is accepted iff its normalised form has exactly nine
   * characters: a letter other than D, F, I, Q, U, V; a letter other than
   * D, F, I, O, Q, U, V; six digits; and a final A, B, C or D.
   */
  lemma NationalInsuranceAccepted(value: string)
    requires value != ""
    ensures var n := Normalized(value);
            NationalInsuranceValidator(value) <==>
              && |n| == 9
              && IsUpperLetter(n[0]) && n[0] !in {'D', 'F', 'I', 'Q', 'U', 'V'}
              && IsUpperLetter(n[1]) && n[1] !in {'D', 'F', 'I', 'O', 'Q', 'U', 'V'}
              && (forall i :: 2 <= i < 8 ==> IsDigit(n[i]))
              && n[8] in {'A', 'B', 'C', 'D'}
  {
    var n := Normalized(value);
    if |n| == 9 {
      FirstLetterClassMeaning(n[0]);
      SecondLetterClassMeaning(n[1]);
      FirstLetterClassMeaning(n[1]);
      assert AllDigits(n[2..8]) <==> forall i :: 2 <= i < 8 ==> IsDigit(n[i]) by {
        forall i | 2 <= i < 8 ensures n[2..8][i - 2] == n[i] { }
      }
    }
  }

  /** Removing whitespace works piece by piece. */
  lemma {:induction false} RemoveWhitespaceAppend(a: string, b: string)
    ensures RemoveWhitespace(a + b) == RemoveWhitespace(a) + RemoveWhitespace(b)
  {
    if a == [] {
      assert a + b == b;
    } else {
      assert (a + b)[0] == a[0];
      assert (a + b)[1..] == a[1..] + b;
      RemoveWhitespaceAppend(a[1..], b);
    }
  }

  /** Upper-casing the sample value, piece by piece. */
  lemma UpperExample(value: string)
    requires value == "ab 12 34 56 c"
    ensures ToUpper(value) == "AB 1" + "2 34" + " 56 C"
  {
    assert value == "ab" + " 12 34 56 " + "c";
    ToUpperAppend("ab" + " 12 34 56 ", "c");
    ToUpperAppend("ab", " 12 34 56 ");
    assert ToUpper("ab") == "AB";
    assert ToUpper("c") == "C";
    assert ToUpper(" 12 34 56 ") == " 12 34 56 ";
  }

  /** The sample value normalises to its compact upper-case form. */
  lemma NormalizedExample(value: string)
    requires value == "ab 12 34 56 c"
    ensures Normalized(value) == "AB123456C"
  {
    var a, b, c := "AB 1", "2 34", " 56 C";
    UpperExample(value);
    assert RemoveWhitespace(a) == "AB1";
    assert RemoveWhitespace(b) == "234";
    assert RemoveWhitespace(c) == "56C";
    RemoveWhitespaceAppend(a, b);
    RemoveWhitespaceAppend(a + b, c);
  }

  /** Lower-case and spaced input passes. */
  lemma LowercaseAndSpacedInputPass(value: string)
    requires value == "ab 12 34 56 c"
    ensures NationalInsuranceValidator(value)
  {
    NormalizedExample(value);
    var n := "AB123456C";
    assert n[2..8] == "123456";
  }

  /** A value of whitespace alone is rejected, while the empty value passes. */
  lemma WhitespaceOnlyRejected(value: string)
    requires value != "" && RemoveWhitespace(value) == ""
    ensures !NationalInsuranceValidator(value)
  {
    RemoveWhitespaceToUpper(value);
  }

  // ---------------------------------------------------------------------
  // The form and its submission

  datatype VerificationForm = VerificationForm(emailCode: string, nationalInsurance: string, totpCode: string)

  /** `Validators.pattern(/^\d{6}$/)`: like every Angular pattern validator, it lets the empty value through. */
  predicate SixDigitPatternValidator(value: string) {
    value == "" || IsSixDigits(value)
  }

  /** `[Validators.required, Validators.pattern(/^\d{6}$/)]` */
  function CodeFieldValid(value: string): (valid: bool)
    ensures valid <==> IsSixDigits(value)
  {
    value != "" && SixDigitPatternValidator(value)
  }

  /** `[Validators.required, this.nationalInsuranceValidator]` */
  function NationalInsuranceFieldValid(value: string): (valid: bool)
    ensures valid <==> value != "" && StandardPattern(Normalized(value))
  {
    value != "" && NationalInsuranceValidator(value)
  }

  predicate FormValid(f: VerificationForm) {
    CodeFieldValid(f.emailCode) && NationalInsuranceFieldValid(f.nationalInsurance) && CodeFieldValid(f.totpCode)
  }

  /**
   * `onSubmitVerification`: a valid form sends its three values to
   * verify-voter exactly as they were typed (the upper-cased number is only
   * logged); an invalid form sends nothing.
   */
  function Submit(f: VerificationForm): (request: Option<Credentials>)
    ensures request.Some? <==>
              && IsSixDigits(f.emailCode) && IsSixDigits(f.totpCode)
              && f.nationalInsurance != "" && StandardPattern(Normalized(f.nationalInsurance))
    ensures request.Some? ==> request.value.nationalInsurance == f.nationalInsurance
    ensures request.Some? ==> request.value.emailCode == f.emailCode && request.value.totpCode == f.totpCode
  {
    if FormValid(f) then Some(Credentials(f.emailCode, f.nationalInsurance, f.totpCode)) else None
  }

  /**
   * The server compares numbers after upper-casing only. A number typed with
   * a space is accepted by the form, yet it never matches a voter whose
   * stored number holds no whitespace.
   */
  lemma SpacedNumberMatchesNoUnspacedVoter(u: SecurityUtils, voter: VoterRecord, auths: seq<AuthRecord>,
                                           creds: Credentials, nowMs: nat, hotp: Totp.Hotp, stored: string, i: nat)
    requires Decrypt(u, NiField(voter)) == Some(stored) && NoWhitespace(stored)
    requires i < |creds.nationalInsurance| && IsWhitespace(creds.nationalInsurance[i])
    ensures CheckVoter(u, voter, auths, creds, nowMs, hotp).None?
  {
    var typed := creds.nationalInsurance;
    if |stored| == |typed| {
      assert ToUpper(typed)[i] == typed[i];
      assert !IsWhitespace(stored[i]);
      assert ToUpper(stored)[i] != ToUpper(typed)[i];
    }
  }
}
