/**
 * The registration page's component (frontend/src/app/auth.ts): the
 * e-mail step, the authenticator-app step, and the gate in front of
 * complete-registration. Requests to the backend are returned by the
 * methods that make them; what the backend answers is a parameter.
 */
module AuthPage {
  import opened Base

  /** The base32 alphabet of section 6 of RFC 4648. */
  const Base32Alphabet: string := "ABCDEFGHIJKLMNOPQRSTUVWXYZ234567"

  /** Length of a generated secret. */
  const SecretLength: nat := 32

  /** The alphabet's i-th character: 'A'..'Z' and then '2'..'7'. */
  function Base32Char(i: nat): (c: char)
    requires i < 32
    ensures (IsUpperLetter(c) && i < 26) || ('2' <= c <= '7' && 26 <= i)
  {
    if i < 26 then ('A' as int + i) as char else ('2' as int + i - 26) as char
  }

  lemma Base32AlphabetChars()
    ensures |Base32Alphabet| == 32
    ensures forall i :: 0 <= i < 32 ==> Base32Alphabet[i] == Base32Char(i)
  {
  }

  /** Distinct positions of the alphabet hold distinct characters. */
  lemma Base32CharInjective(i: nat, j: nat)
    requires i < 32 && j < 32 && Base32Char(i) == Base32Char(j)
    ensures i == j
  {
  }

  predicate IsBase32Char(c: char) {
    c in Base32Alphabet
  }

  /** The secret the loop of `generateSecretKey` builds from its draws. */
  function SecretFromDraws(draws: seq<nat>): (s: string)
    requires forall i :: 0 <= i < |draws| ==> draws[i] < 32
    ensures |s| == |draws|
  {
    seq(|draws|, i requires 0 <= i < |draws| => Base32Alphabet[draws[i]])
  }

  /** Different draws give different secrets: the alphabet loses no information. */
  lemma SecretFromDrawsInjective(a: seq<nat>, b: seq<nat>)
    requires forall i :: 0 <= i < |a| ==> a[i] < 32
    requires forall i :: 0 <= i < |b| ==> b[i] < 32
    requires SecretFromDraws(a) == SecretFromDraws(b)
    ensures a == b
  {
    Base32AlphabetChars();
    forall i | 0 <= i < |a| ensures a[i] == b[i] {
      assert SecretFromDraws(a)[i] == SecretFromDraws(b)[i];
      Base32CharInjective(a[i], b[i]);
    }
  }

  /** The code the `Math.floor(100000 + Math.random() * 900000)` expression yields for a draw below 900000. */
  function AuthCodeValue(draw: nat): (n: nat)
    requires draw < 900000
    ensures 100000 <= n <= 999999
  {
    100000 + draw
  }

  /** `isValidEmail`: the pattern `/^[^\s@]+@[^\s@]+\.[^\s@]+$/`. */
  predicate IsValidEmail(email: string) {
    MatchesEmailPattern(email)
  }

  /** The guard `!code || code.length !== 6` of both code checks, negated. */
  predicate CodeLengthAccepted(code: string) {
    !(code == "" || |code| != 6)
  }

  lemma CodeLengthAcceptedMeaning(code: string)
    ensures CodeLengthAccepted(code) <==> |code| == 6
  {
  }

  /** A six-character code passes the guard even when it is not made of digits: only the backend checks digits. */
  lemma NonDigitCodePassesGuard(code: string)
    requires code == "abcdef"
    ensures CodeLengthAccepted(code) && !IsSixDigits(code)
  {
    assert !IsDigit(code[0]);
  }

  class AuthComponent {
    var showQRCode: bool
    var qrCodeDataURL: string
    var authCode: string
    var secretKey: string
    var verificationCode: string
    var showVerification: bool
    var verificationSuccess: bool
    var showEmailSetup: bool
    var userEmail: string
    var emailSent: bool
    var emailVerificationCode: string
    var emailVerificationSuccess: bool

    /** The initial field values. */
    constructor ()
      ensures !showQRCode && qrCodeDataURL == "" && authCode == "" && secretKey == ""
      ensures verificationCode == "" && !showVerification && !verificationSuccess
      ensures showEmailSetup && userEmail == "" && !emailSent
      ensures emailVerificationCode == "" && !emailVerificationSuccess
    {
      showQRCode := false;
      qrCodeDataURL := "";
      authCode := "";
      secretKey := "";
      verificationCode := "";
      showVerification := false;
      verificationSuccess := false;
      showEmailSetup := true;
      userEmail := "";
      emailSent := false;
      emailVerificationCode := "";
      emailVerificationSuccess := false;
    }

    /** The e-mail step's fields. */
    predicate EmailStepUnchanged(oldEmail: string, oldSent: bool, oldCode: string, oldSuccess: bool)
      reads this
    {
      userEmail == oldEmail && emailSent == oldSent && emailVerificationCode == oldCode && emailVerificationSuccess == oldSuccess
    }

    /**
     * `sendEmailVerification`: an empty or malformed address is refused with
     * no request; otherwise the page switches to the code input at once and
     * the address is sent in the background, whatever the outcome.
     */
    method SendEmailVerification() returns (request: Option<string>)
      modifies this
      ensures request.Some? <==> old(userEmail) != "" && IsValidEmail(old(userEmail))
      ensures request.Some? ==> request.value == userEmail && emailSent
      ensures request.None? ==> emailSent == old(emailSent)
      ensures userEmail == old(userEmail) && emailVerificationCode == old(emailVerificationCode)
      ensures emailVerificationSuccess == old(emailVerificationSuccess)
      ensures showQRCode == old(showQRCode) && qrCodeDataURL == old(qrCodeDataURL) && authCode == old(authCode)
      ensures secretKey == old(secretKey) && verificationCode == old(verificationCode)
      ensures showVerification == old(showVerification) && verificationSuccess == old(verificationSuccess)
      ensures showEmailSetup == old(showEmailSetup)
    {
      if userEmail == "" || !IsValidEmail(userEmail) {
        return None;
      }
      emailSent := true;
      request := Some(userEmail);
    }

    /**
     * `verifyEmailCode`: a code that is not six characters long is refused
     * with no request; otherwise the code is sent and the step succeeds when
     * the backend accepts it.
     */
    method VerifyEmailCode(backendAccepts: bool) returns (request: Option<string>)
      modifies this
      ensures request.Some? <==> |old(emailVerificationCode)| == 6
      ensures request.Some? ==> request.value == emailVerificationCode
      ensures emailVerificationSuccess == (old(emailVerificationSuccess) || (request.Some? && backendAccepts))
      ensures userEmail == old(userEmail) && emailSent == old(emailSent)
      ensures emailVerificationCode == old(emailVerificationCode)
      ensures showQRCode == old(showQRCode) && qrCodeDataURL == old(qrCodeDataURL) && authCode == old(authCode)
      ensures secretKey == old(secretKey) && verificationCode == old(verificationCode)
      ensures showVerification == old(showVerification) && verificationSuccess == old(verificationSuccess)
      ensures showEmailSetup == old(showEmailSetup)
    {
      if !CodeLengthAccepted(emailVerificationCode) {
        return None;
      }
      request := Some(emailVerificationCode);
      if backendAccepts {
        emailVerificationSuccess := true;
      }
    }

    /** `resetEmailSetup`: the e-mail step's four fields go back to their initial values, and nothing else changes. */
    method ResetEmailSetup()
      modifies this
      ensures userEmail == "" && !emailSent && emailVerificationCode == "" && !emailVerificationSuccess
      ensures showQRCode == old(showQRCode) && qrCodeDataURL == old(qrCodeDataURL) && authCode == old(authCode)
      ensures secretKey == old(secretKey) && verificationCode == old(verificationCode)
      ensures showVerification == old(showVerification) && verificationSuccess == old(verificationSuccess)
      ensures showEmailSetup == old(showEmailSetup)
    {
      userEmail := "";
      emailSent := false;
      emailVerificationCode := "";
      emailVerificationSuccess := false;
    }

    /**
     * `generateSecretKey`: 32 characters, each drawn from the base32
     * alphabet by `Math.floor(Math.random() * 32)`; the draws are given.
     */
    method GenerateSecretKey(draws: seq<nat>) returns (secret: string)
      requires |draws| == SecretLength
      requires forall i :: 0 <= i < |draws| ==> draws[i] < 32
      ensures |secret| == SecretLength
      ensures forall i :: 0 <= i < |secret| ==> IsBase32Char(secret[i])
      ensures secret == SecretFromDraws(draws)
    {
      secret := "";
      for i := 0 to SecretLength
        invariant secret == SecretFromDraws(draws[..i])
      {
        assert draws[..i + 1] == draws[..i] + [draws[i]];
        secret := secret + [Base32Alphabet[draws[i]]];
      }
      assert draws[..SecretLength] == draws;
    }

    /** `generateAuthCode`: the decimal text of a number from 100000 to 999999, always six digits. */
    method GenerateAuthCode(draw: nat) returns (code: string)
      requires draw < 900000
      ensures IsSixDigits(code)
      ensures code == DecimalString(AuthCodeValue(draw))
    {
      SixDigitCode(AuthCodeValue(draw));
      code := DecimalString(AuthCodeValue(draw));
    }

    /**
     * `setupAuthenticatorApp` with `generateQRCode`: a fresh secret and a
     * display code are generated, the secret is sent to setup-totp (the
     * returned request), and the QR card is shown. The QR image arrives
     * later from a library and is not part of this model.
     */
    method SetupAuthenticatorApp(draws: seq<nat>, codeDraw: nat) returns (stored: string)
      requires |draws| == SecretLength
      requires forall i :: 0 <= i < |draws| ==> draws[i] < 32
      requires codeDraw < 900000
      modifies this
      ensures stored == secretKey == SecretFromDraws(draws)
      ensures IsSixDigits(authCode) && showQRCode
      ensures qrCodeDataURL == old(qrCodeDataURL) && verificationCode == old(verificationCode)
      ensures showVerification == old(showVerification) && verificationSuccess == old(verificationSuccess)
      ensures EmailStepUnchanged(old(userEmail), old(emailSent), old(emailVerificationCode), old(emailVerificationSuccess))
      ensures showEmailSetup == old(showEmailSetup)
    {
      secretKey := GenerateSecretKey(draws);
      authCode := GenerateAuthCode(codeDraw);
      stored := secretKey;
      showQRCode := true;
    }

    /** `resetAuthenticatorCard`: the authenticator step's seven fields go back to their initial values, and nothing else changes. */
    method ResetAuthenticatorCard()
      modifies this
      ensures !showQRCode && qrCodeDataURL == "" && authCode == "" && secretKey == ""
      ensures verificationCode == "" && !showVerification && !verificationSuccess
      ensures EmailStepUnchanged(old(userEmail), old(emailSent), old(emailVerificationCode), old(emailVerificationSuccess))
      ensures showEmailSetup == old(showEmailSetup)
    {
      showQRCode := false;
      qrCodeDataURL := "";
      authCode := "";
      secretKey := "";
      verificationCode := "";
      showVerification := false;
      verificationSuccess := false;
    }

    /** `proceedToVerification` */
    method ProceedToVerification()
      modifies this
      ensures showVerification
      ensures showQRCode == old(showQRCode) && qrCodeDataURL == old(qrCodeDataURL) && authCode == old(authCode)
      ensures secretKey == old(secretKey) && verificationCode == old(verificationCode)
      ensures verificationSuccess == old(verificationSuccess)
      ensures EmailStepUnchanged(old(userEmail), old(emailSent), old(emailVerificationCode), old(emailVerificationSuccess))
      ensures showEmailSetup == old(showEmailSetup)
    {
      showVerification := true;
    }

    /**
     * `verifyAuthenticatorCode` with `verifyCodeWithBackend`: a code that is
     * not six characters long is refused with no request; otherwise it is
     * sent to verify-totp and the step succeeds when the backend accepts it.
     */
    method VerifyAuthenticatorCode(backendAccepts: bool) returns (request: Option<string>)
      modifies this
      ensures request.Some? <==> |old(verificationCode)| == 6
      ensures request.Some? ==> request.value == verificationCode
      ensures verificationSuccess == (old(verificationSuccess) || (request.Some? && backendAccepts))
      ensures showQRCode == old(showQRCode) && qrCodeDataURL == old(qrCodeDataURL) && authCode == old(authCode)
      ensures secretKey == old(secretKey) && verificationCode == old(verificationCode)
      ensures showVerification == old(showVerification)
      ensures EmailStepUnchanged(old(userEmail), old(emailSent), old(emailVerificationCode), old(emailVerificationSuccess))
      ensures showEmailSetup == old(showEmailSetup)
    {
      if !CodeLengthAccepted(verificationCode) {
        return None;
      }
      request := Some(verificationCode);
      if backendAccepts {
        verificationSuccess := true;
      }
    }

    /**
     * `finishRegistration`: complete-registration is called only when both
     * steps have succeeded, and the page moves on to the completion page
     * only when that call succeeds. No field changes.
     */
    method FinishRegistration(backendSucceeds: bool) returns (called: bool, navigated: bool)
      ensures called <==> emailVerificationSuccess && verificationSuccess
      ensures navigated <==> called && backendSucceeds
    {
      called := emailVerificationSuccess && verificationSuccess;
      navigated := called && backendSucceeds;
    }
  }
}
