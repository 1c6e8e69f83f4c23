/**
 * The registration and voting-day routes of backend/routes/api_fixed.js.
 *
 * A registration lives in the in-memory `userSessions` map while the
 * registrant gives personal details, proves possession of an e-mail
 * address and sets up an authenticator app; completion turns it into one
 * `voters` record and one `voter_auth` record and deletes the session. On
 * voting day POST /verify-voter scans the voters who have not voted for one
 * matching three factors and issues a ballot token for it.
 */
module ApiFixed {
  import opened Base
  import opened Crypto
  import opened Security
  import Totp
  import opened Records
  import opened Matching

  const AllDetailsRequired := "All personal details are required"
  const EmailRequired := "Email is required"
  const SessionNotFound := "Session not found. Please restart the registration process."
  const InvalidEmail := "Please enter a valid email address"
  const EmailNotProvided := "Email not provided. Please add email first."
  const SendEmailFailed := "Failed to send verification email"
  const CodeRequired := "Verification code is required"
  const NoCodeFound := "No verification code found. Please request a new code."
  const InvalidCode := "Invalid verification code. Please try again."
  const CodeExpired := "Verification code has expired. Please request a new code."
  const TotpSecretRequired := "TOTP secret is required"
  const TotpCodeRequired := "TOTP code is required"
  const TotpNotSetUp := "TOTP not set up. Please set up authenticator app first."
  const InvalidTotp := "Invalid TOTP code. Please check your authenticator app and try again."
  const VerificationsIncomplete := "Both email and authenticator app verification must be completed first"
  const AlreadyRegistered := "A voter with this email address is already registered."
  const AllFactorsRequired := "All verification fields are required: email code, National Insurance number, and TOTP code"
  const NoEligibleVoters := "No eligible voters found or all votes have been cast"
  const InvalidCredentials := "Invalid credentials. Please check your access code, National Insurance number, and authenticator code."

  const EmailCodeLifetimeMs: nat := 5 * 60 * 1000
  const AccessCodeLifetimeMs: nat := 24 * 60 * 60 * 1000
  const BallotTokenLifetimeMs: nat := 30 * 60 * 1000
  /** The step tolerance used when the authenticator app is set up. */
  const RegistrationWindow: nat := 1

  /** The non-sensitive voter fields returned with a ballot token. */
  datatype VoterSummary = VoterSummary(voterId: string, firstName: string, lastName: string, postcode: string)
  datatype BallotGrant = BallotGrant(ballotToken: string, voter: VoterSummary)

  /** What every stored session satisfies between requests. */
  ghost predicate SessionInvariant(sid: string, s: Session) {
    && s.sessionId == sid
    && s.firstName != "" && s.lastName != "" && s.postcode != "" && s.nationalInsurance != ""
    && ToUpper(s.postcode) == s.postcode && ToUpper(s.nationalInsurance) == s.nationalInsurance
    && (s.email.Some? ==> ToLower(s.email.value) == s.email.value && MatchesEmailPattern(s.email.value))
    && (s.emailVerified ==> s.email.Some?)
    && (s.emailVerificationCode.Some? ==>
          IsSixDigits(s.emailVerificationCode.value) && s.emailCodeExpires.Some? && s.email.Some?)
    && (s.totpVerified ==> Present(s.totpSecret))
  }

  /**
   * No two auth records share an e-mail hash. Completion refuses an address
   * whose hash is stored, so the routes keep this property once it holds;
   * the store is not required to satisfy it.
   */
  ghost predicate EmailHashesUnique(auths: seq<AuthRecord>) {
    forall i, j :: 0 <= i < j < |auths| ==> auths[i].emailHash != auths[j].emailHash
  }

  /** Inserting an auth record under an e-mail hash not yet stored keeps the hashes unique. */
  lemma InsertKeepsEmailHashesUnique(auths: seq<AuthRecord>, a: AuthRecord)
    requires EmailHashesUnique(auths)
    requires FindAuthByEmailHash(auths, a.emailHash).None?
    ensures EmailHashesUnique(auths + [a])
  {
  }

  /** Rewriting an auth record's other fields keeps the hashes unique. */
  lemma UpdateKeepsEmailHashesUnique(auths: seq<AuthRecord>, k: nat, a: AuthRecord)
    requires EmailHashesUnique(auths)
    requires k < |auths| && a.emailHash == auths[k].emailHash
    ensures EmailHashesUnique(auths[k := a])
  {
  }

  /**
   * The grant of POST /verify-voter: the first eligible voter to pass every
   * check gets the ballot token on its auth record and its summary in the reply.
   */
  ghost predicate GrantsFirstMatch(u: SecurityUtils, eligible: seq<VoterRecord>, auths: seq<AuthRecord>, auths': seq<AuthRecord>,
                                   creds: Credentials, nowMs: nat, hotp: Totp.Hotp, token: string, grant: BallotGrant)
  {
    exists m :: IsFirstMatch(u, eligible, auths, creds, nowMs, hotp, m)
      && grant == BallotGrant(token, Summary(eligible[m.position]))
      && auths' == auths[m.authIndex := WithBallotToken(auths[m.authIndex], token, nowMs)]
  }

  /** Writing the token on the first match's auth record grants that voter's ballot. */
  lemma FirstMatchGrants(u: SecurityUtils, eligible: seq<VoterRecord>, auths: seq<AuthRecord>,
                         creds: Credentials, nowMs: nat, hotp: Totp.Hotp, token: string, m: Match)
    requires IsFirstMatch(u, eligible, auths, creds, nowMs, hotp, m)
    ensures AnyMatch(u, eligible, auths, creds, nowMs, hotp)
    ensures GrantsFirstMatch(u, eligible, auths, auths[m.authIndex := WithBallotToken(auths[m.authIndex], token, nowMs)],
                             creds, nowMs, hotp, token, BallotGrant(token, Summary(eligible[m.position])))
  {
  }

  /** The `$set` of `sendVotingNotificationEmail`. */
  function WithAccessCode(a: AuthRecord, code: EncryptedData, nowMs: nat): AuthRecord {
    a.(accessCodeEncrypted := Some(code.encrypted), accessCodeIV := Some(code.iv),
       accessCodeCreated := Some(nowMs), accessCodeExpires := Some(nowMs + AccessCodeLifetimeMs))
  }

  /**
   * The store after `sendVotingNotificationEmail(email)`: the first auth
   * record whose hash is the address's gets the encrypted code; without one
   * the function throws before writing anything.
   */
  function AccessCodeIssued(u: SecurityUtils, auths: seq<AuthRecord>, email: string,
                            code: string, iv: seq<byte>, nowMs: nat): seq<AuthRecord>
    requires |iv| == IvLength
  {
    match FindAuthByEmailHash(auths, HashEmail(email))
    case None => auths
    case Some(k) => auths[k := WithAccessCode(auths[k], EncryptAccessCode(u, code, iv), nowMs)]
  }

  /** The `$set` of a successful POST /verify-voter. */
  function WithBallotToken(a: AuthRecord, token: string, nowMs: nat): AuthRecord {
    a.(ballotToken := Some(token), ballotTokenExpires := Some(nowMs + BallotTokenLifetimeMs),
       lastLoginAttempt := Some(nowMs))
  }

  function NewVoterRecord(docId: string, voterId: string, s: Session, ni: EncryptedData, nowMs: nat): VoterRecord {
    VoterRecord(docId, voterId, s.firstName, s.lastName, ToUpper(s.postcode), ni.encrypted, ni.iv,
                false, nowMs, nowMs, None)
  }

  function NewAuthRecord(voterId: string, emailHash: Digest, totp: EncryptedData, nowMs: nat): AuthRecord {
    AuthRecord(voterId, emailHash, true, Some(totp.encrypted), Some(totp.iv), true, nowMs, nowMs,
               None, None, None, None, None, None, None)
  }

  function Summary(v: VoterRecord): VoterSummary {
    VoterSummary(v.voterId, v.firstName, v.lastName, v.postcode)
  }

  /**
   * Issuing an access code for a registered address stores a code that the
   * voting-day check opens: it decrypts to the drawn code and is accepted up
   * to and including 24 hours after issue, and no other record changes.
   */
  lemma AccessCodeIssuedOpens(u: SecurityUtils, auths: seq<AuthRecord>, email: string, code: string,
                              iv: seq<byte>, nowMs: nat, k: nat)
    requires |iv| == IvLength
    requires FindAuthByEmailHash(auths, HashEmail(email)) == Some(k)
    ensures |AccessCodeIssued(u, auths, email, code, iv, nowMs)| == |auths|
    ensures var a := AccessCodeIssued(u, auths, email, code, iv, nowMs)[k];
            && a.voterId == auths[k].voterId && a.emailHash == auths[k].emailHash
            && AccessCodeField(a).Some? && Decrypt(u, AccessCodeField(a).value) == Some(code)
            && !AccessCodeExpired(a, nowMs + AccessCodeLifetimeMs)
            && AccessCodeExpired(a, nowMs + AccessCodeLifetimeMs + 1)
    ensures forall j :: 0 <= j < |auths| && j != k ==> AccessCodeIssued(u, auths, email, code, iv, nowMs)[j] == auths[j]
  {
    HexEncodeShape(iv);
  }

  /**
   * The auth record written at completion carries no access code, so until
   * the address is verified again in a later session the new voter fails
   * the voting-day check whatever is typed.
   */
  lemma NewRegistrantCannotPassVotingDay(u: SecurityUtils, auths: seq<AuthRecord>, voter: VoterRecord,
                                         emailHash: Digest, totp: EncryptedData, registeredMs: nat,
                                         creds: Credentials, nowMs: nat, hotp: Totp.Hotp)
    requires forall i :: 0 <= i < |auths| ==> auths[i].voterId != voter.voterId
    ensures CheckVoter(u, voter, auths + [NewAuthRecord(voter.voterId, emailHash, totp, registeredMs)],
                       creds, nowMs, hotp).None?
  {
    var all := auths + [NewAuthRecord(voter.voterId, emailHash, totp, registeredMs)];
    var k := FindAuthByVoterId(all, voter.voterId);
    assert all[|auths|].voterId == voter.voterId;
    assert k == Some(|auths|);
  }

  class FixedApi {
    const security: SecurityUtils
    /** `userSessions` */
    var sessions: map<string, Session>
    /** The `voters` collection. */
    var voters: seq<VoterRecord>
    /** The `voter_auth` collection. */
    var auths: seq<AuthRecord>

    ghost predicate Valid()
      reads this
    {
      forall sid :: sid in sessions ==> SessionInvariant(sid, sessions[sid])
    }

    constructor(security: SecurityUtils, voters: seq<VoterRecord>, auths: seq<AuthRecord>)
      ensures Valid()
      ensures this.security == security && sessions == map[]
      ensures this.voters == voters && this.auths == auths
    {
      this.security := security;
      this.sessions := map[];
      this.voters := voters;
      this.auths := auths;
    }

    /** POST /users */
    method CreateSession(firstName: Option<string>, lastName: Option<string>, postcode: Option<string>,
                         nationalInsurance: Option<string>, sessionId: string, nowMs: nat)
      returns (r: Reply<string>)
      requires Valid()
      modifies this
      ensures Valid()
      ensures voters == old(voters) && auths == old(auths)
      ensures !PersonalDetailsPresent(firstName, lastName, postcode, nationalInsurance) ==>
                r == Failure(400, AllDetailsRequired) && sessions == old(sessions)
      ensures PersonalDetailsPresent(firstName, lastName, postcode, nationalInsurance) ==>
                && r == Success(sessionId)
                && sessions == old(sessions)[sessionId := NewSession(sessionId, firstName.value, lastName.value,
                                                                       postcode.value, nationalInsurance.value, nowMs)]
      ensures r.Success? ==>
                && sessions[sessionId].postcode == ToUpper(postcode.value)
                && sessions[sessionId].nationalInsurance == ToUpper(nationalInsurance.value)
                && sessions[sessionId].email.None? && sessions[sessionId].totpSecret.None?
                && !sessions[sessionId].emailVerified && !sessions[sessionId].totpVerified
    {
      if !PersonalDetailsPresent(firstName, lastName, postcode, nationalInsurance) {
        return Failure(400, AllDetailsRequired);
      }
      var userData := NewSession(sessionId, firstName.value, lastName.value, postcode.value,
                                 nationalInsurance.value, nowMs);
      ToUpperIdempotent(postcode.value);
      ToUpperIdempotent(nationalInsurance.value);
      sessions := sessions[sessionId := userData];
      r := Success(sessionId);
    }

    /** POST /users/:sessionId/email */
    method AttachEmail(sessionId: string, email: Option<string>) returns (r: Reply<()>)
      requires Valid()
      modifies this
      ensures Valid()
      ensures voters == old(voters) && auths == old(auths)
      ensures !Present(email) ==> r == Failure(400, EmailRequired)
      ensures Present(email) && sessionId !in old(sessions) ==> r == Failure(404, SessionNotFound)
      ensures Present(email) && sessionId in old(sessions) && !MatchesEmailPattern(email.value) ==>
                r == Failure(400, InvalidEmail)
      ensures r.Failure? ==> sessions == old(sessions)
      ensures Present(email) && sessionId in old(sessions) && MatchesEmailPattern(email.value) ==>
                && r == Success(())
                && sessions == old(sessions)[sessionId := old(sessions)[sessionId].(
                                 email := Some(ToLower(email.value)), emailVerified := false)]
    {
      if !Present(email) {
        return Failure(400, EmailRequired);
      }
      if sessionId !in sessions {
        return Failure(404, SessionNotFound);
      }
      var userData := sessions[sessionId];
      if !MatchesEmailPattern(email.value) {
        return Failure(400, InvalidEmail);
      }
      ToLowerKeepsEmailPattern(email.value);
      ToLowerIdempotent(email.value);
      userData := userData.(email := Some(ToLower(email.value)), emailVerified := false);
      sessions := sessions[sessionId := userData];
      r := Success(());
    }

    /**
     * POST /users/:sessionId/send-email-verification. `codeDraw` is the value
     * of `Math.floor(100000 + Math.random() * 900000)`; `delivered` says
     * whether the e-mail service accepted the message. The code is stored
     * before sending, so it stays usable when delivery fails.
     */
    method SendEmailVerification(sessionId: string, codeDraw: nat, nowMs: nat, delivered: bool)
      returns (r: Reply<()>)
      requires Valid()
      requires 100000 <= codeDraw <= 999999
      modifies this
      ensures Valid()
      ensures voters == old(voters) && auths == old(auths)
      ensures sessionId !in old(sessions) ==> r == Failure(404, SessionNotFound) && sessions == old(sessions)
      ensures sessionId in old(sessions) && !Present(old(sessions)[sessionId].email) ==>
                r == Failure(400, EmailNotProvided) && sessions == old(sessions)
      ensures sessionId in old(sessions) && Present(old(sessions)[sessionId].email) ==>
                && sessions == old(sessions)[sessionId := old(sessions)[sessionId].(
                                 emailVerificationCode := Some(DecimalString(codeDraw)),
                                 emailCodeExpires := Some(nowMs + EmailCodeLifetimeMs))]
                && IsSixDigits(sessions[sessionId].emailVerificationCode.value)
                && r == (if delivered then Success(()) else Failure(500, SendEmailFailed))
    {
      if sessionId !in sessions {
        return Failure(404, SessionNotFound);
      }
      var userData := sessions[sessionId];
      if !Present(userData.email) {
        return Failure(400, EmailNotProvided);
      }
      var verificationCode := DecimalString(codeDraw);
      SixDigitCode(codeDraw);
      userData := userData.(emailVerificationCode := Some(verificationCode),
                            emailCodeExpires := Some(nowMs + EmailCodeLifetimeMs));
      sessions := sessions[sessionId := userData];
      if !delivered {
        return Failure(500, SendEmailFailed);
      }
      r := Success(());
    }

    /**
     * `sendVotingNotificationEmail(email)`: draws an access code and stores
     * it, encrypted, on the auth record of the address; `stored` is false
     * where the source throws "Voter not found".
     */
    method IssueAccessCode(email: string, codeDraw: nat, iv: seq<byte>, nowMs: nat) returns (stored: bool)
      requires Valid()
      requires 100000 <= codeDraw <= 999999 && |iv| == IvLength
      modifies this
      ensures Valid()
      ensures sessions == old(sessions) && voters == old(voters)
      ensures stored <==> FindAuthByEmailHash(old(auths), HashEmail(email)).Some?
      ensures auths == AccessCodeIssued(security, old(auths), email, DecimalString(codeDraw), iv, nowMs)
    {
      var voterVerificationCode := DecimalString(codeDraw);
      var hashedEmail := HashEmail(email);
      var k := FindAuthByEmailHash(auths, hashedEmail);
      if k.None? {
        return false;
      }
      var encryptedAccessCode := EncryptAccessCode(security, voterVerificationCode, iv);
      auths := auths[k.value := WithAccessCode(auths[k.value], encryptedAccessCode, nowMs)];
      stored := true;
    }

    /**
     * POST /users/:sessionId/verify-email. On success the voting-day access
     * code is issued for the address (`accessDraw`, `accessIv`); a failure
     * there does not fail the request.
     */
    method VerifyEmail(sessionId: string, code: Option<string>, nowMs: nat, accessDraw: nat, accessIv: seq<byte>)
      returns (r: Reply<()>)
      requires Valid()
      requires 100000 <= accessDraw <= 999999 && |accessIv| == IvLength
      modifies this
      ensures Valid()
      ensures voters == old(voters)
      ensures !Present(code) ==> r == Failure(400, CodeRequired)
      ensures Present(code) && sessionId !in old(sessions) ==> r == Failure(404, SessionNotFound)
      ensures Present(code) && sessionId in old(sessions) ==>
                var s := old(sessions)[sessionId];
                && (!Present(s.emailVerificationCode) ==> r == Failure(400, NoCodeFound))
                && (Present(s.emailVerificationCode) && s.emailVerificationCode != code ==> r == Failure(400, InvalidCode))
                && ((Present(s.emailVerificationCode) && s.emailVerificationCode == code
                     && s.emailCodeExpires.Some? && nowMs > s.emailCodeExpires.value) ==> r == Failure(400, CodeExpired))
                && ((Present(s.emailVerificationCode) && s.emailVerificationCode == code
                     && (s.emailCodeExpires.None? || nowMs <= s.emailCodeExpires.value)) ==> r.Success?)
      ensures r.Failure? ==> sessions == old(sessions) && auths == old(auths)
      ensures r.Success? ==>
                && sessionId in old(sessions)
                && var s := old(sessions)[sessionId];
                && Present(s.emailVerificationCode) && s.emailVerificationCode == code
                && (s.emailCodeExpires.None? || nowMs <= s.emailCodeExpires.value)
                && sessions == old(sessions)[sessionId := s.(emailVerified := true, emailVerificationCode := None,
                                                              emailCodeExpires := None)]
                && auths == AccessCodeIssued(security, old(auths), s.email.value, DecimalString(accessDraw), accessIv, nowMs)
    {
      if !Present(code) {
        return Failure(400, CodeRequired);
      }
      if sessionId !in sessions {
        return Failure(404, SessionNotFound);
      }
      var userData := sessions[sessionId];
      if !Present(userData.emailVerificationCode) {
        return Failure(400, NoCodeFound);
      }
      if userData.emailVerificationCode != code {
        return Failure(400, InvalidCode);
      }
      if userData.emailCodeExpires.Some? && nowMs > userData.emailCodeExpires.value {
        return Failure(400, CodeExpired);
      }
      userData := userData.(emailVerified := true, emailVerificationCode := None, emailCodeExpires := None);
      sessions := sessions[sessionId := userData];
      var _ := IssueAccessCode(userData.email.value, accessDraw, accessIv, nowMs);
      r := Success(());
    }

    /** POST /users/:sessionId/setup-totp */
    method SetupTotp(sessionId: string, secret: Option<string>) returns (r: Reply<()>)
      requires Valid()
      modifies this
      ensures Valid()
      ensures voters == old(voters) && auths == old(auths)
      ensures !Present(secret) ==> r == Failure(400, TotpSecretRequired) && sessions == old(sessions)
      ensures Present(secret) && sessionId !in old(sessions) ==>
                r == Failure(404, SessionNotFound) && sessions == old(sessions)
      ensures Present(secret) && sessionId in old(sessions) ==>
                && r == Success(())
                && sessions == old(sessions)[sessionId := old(sessions)[sessionId].(
                                 totpSecret := secret, totpVerified := false)]
    {
      if !Present(secret) {
        return Failure(400, TotpSecretRequired);
      }
      if sessionId !in sessions {
        return Failure(404, SessionNotFound);
      }
      var userData := sessions[sessionId];
      userData := userData.(totpSecret := secret, totpVerified := false);
      sessions := sessions[sessionId := userData];
      r := Success(());
    }

    /** POST /users/:sessionId/verify-totp, with a one-step window. */
    method VerifyTotp(sessionId: string, code: Option<string>, nowMs: nat, hotp: Totp.Hotp) returns (r: Reply<()>)
      requires Valid()
      modifies this
      ensures Valid()
      ensures voters == old(voters) && auths == old(auths)
      ensures !Present(code) ==> r == Failure(400, TotpCodeRequired)
      ensures Present(code) && sessionId !in old(sessions) ==> r == Failure(404, SessionNotFound)
      ensures Present(code) && sessionId in old(sessions) ==>
                var s := old(sessions)[sessionId];
                && (!Present(s.totpSecret) ==> r == Failure(400, TotpNotSetUp))
                && ((Present(s.totpSecret) && !Totp.Verify(hotp, s.totpSecret.value, code.value, nowMs, RegistrationWindow))
                      ==> r == Failure(400, InvalidTotp))
                && ((Present(s.totpSecret) && Totp.Verify(hotp, s.totpSecret.value, code.value, nowMs, RegistrationWindow))
                      ==> r == Success(()))
      ensures r.Failure? ==> sessions == old(sessions)
      ensures r.Success? ==> sessions == old(sessions)[sessionId := old(sessions)[sessionId].(totpVerified := true)]
    {
      if !Present(code) {
        return Failure(400, TotpCodeRequired);
      }
      if sessionId !in sessions {
        return Failure(404, SessionNotFound);
      }
      var userData := sessions[sessionId];
      if !Present(userData.totpSecret) {
        return Failure(400, TotpNotSetUp);
      }
      var verified := Totp.Verify(hotp, userData.totpSecret.value, code.value, nowMs, RegistrationWindow);
      if !verified {
        return Failure(400, InvalidTotp);
      }
      userData := userData.(totpVerified := true);
      sessions := sessions[sessionId := userData];
      r := Success(());
    }

    /**
     * POST /users/:sessionId/complete-registration. `voterIdBytes`, `niIv`
     * and `totpIv` are the random draws, `docId` the document id the store
     * assigns. On success the reply carries the new voterId.
     */
    method CompleteRegistration(sessionId: string, voterIdBytes: seq<byte>, niIv: seq<byte>, totpIv: seq<byte>,
                                nowMs: nat, docId: string) returns (r: Reply<string>)
      requires Valid()
      requires |voterIdBytes| == 8 && |niIv| == IvLength && |totpIv| == IvLength
      modifies this
      ensures Valid()
      ensures sessionId !in old(sessions) ==> r == Failure(404, SessionNotFound)
      ensures sessionId in old(sessions) && !(old(sessions)[sessionId].emailVerified && old(sessions)[sessionId].totpVerified) ==>
                r == Failure(400, VerificationsIncomplete)
      ensures sessionId in old(sessions) && old(sessions)[sessionId].emailVerified && old(sessions)[sessionId].totpVerified
              && FindAuthByEmailHash(old(auths), HashEmail(old(sessions)[sessionId].email.value)).Some? ==>
                r == Failure(400, AlreadyRegistered)
      ensures sessionId in old(sessions) && old(sessions)[sessionId].emailVerified && old(sessions)[sessionId].totpVerified
              && FindAuthByEmailHash(old(auths), HashEmail(old(sessions)[sessionId].email.value)).None? ==>
                r.Success?
      ensures r.Failure? ==> sessions == old(sessions) && voters == old(voters) && auths == old(auths)
      ensures EmailHashesUnique(old(auths)) ==> EmailHashesUnique(auths)
      ensures r.Success? ==>
                && sessionId in old(sessions)
                && var s := old(sessions)[sessionId];
                && s.emailVerified && s.totpVerified
                && FindAuthByEmailHash(old(auths), HashEmail(s.email.value)).None?
                && r.value == GenerateVoterId(voterIdBytes)
                && voters == old(voters) + [NewVoterRecord(docId, r.value, s,
                                                           EncryptNationalInsurance(security, s.nationalInsurance, niIv), nowMs)]
                && auths == old(auths) + [NewAuthRecord(r.value, HashEmail(s.email.value),
                                                        EncryptTotpSecret(security, s.totpSecret.value, totpIv), nowMs)]
                && sessions == old(sessions) - {sessionId}
    {
      if sessionId !in sessions {
        return Failure(404, SessionNotFound);
      }
      var userData := sessions[sessionId];
      if !userData.emailVerified || !userData.totpVerified {
        return Failure(400, VerificationsIncomplete);
      }
      var voterId := GenerateVoterId(voterIdBytes);
      var encryptedNI := EncryptNationalInsurance(security, userData.nationalInsurance, niIv);
      var hashedEmail := HashEmail(userData.email.value);
      var existingAuth := FindAuthByEmailHash(auths, hashedEmail);
      if existingAuth.Some? {
        return Failure(400, AlreadyRegistered);
      }
      var voterRecord := NewVoterRecord(docId, voterId, userData, encryptedNI, nowMs);
      var encryptedTotpSecret := EncryptTotpSecret(security, userData.totpSecret.value, totpIv);
      var authRecord := NewAuthRecord(voterId, hashedEmail, encryptedTotpSecret, nowMs);
      InsertRegistration(voterRecord, authRecord);
      sessions := sessions - {sessionId};
      r := Success(voterId);
    }

    /** The two `insertOne` calls of the completion: the voter record and its auth record. */
    method InsertRegistration(v: VoterRecord, a: AuthRecord)
      requires Valid()
      requires FindAuthByEmailHash(auths, a.emailHash).None?
      modifies this
      ensures Valid()
      ensures voters == old(voters) + [v] && auths == old(auths) + [a]
      ensures EmailHashesUnique(old(auths)) ==> EmailHashesUnique(auths)
      ensures unchanged(this`sessions)
    {
      if EmailHashesUnique(auths) {
        InsertKeepsEmailHashesUnique(auths, a);
      }
      voters := voters + [v];
      auths := auths + [a];
    }

    /** The `updateOne` of POST /verify-voter: the `$set` of the ballot token on auth record `k`. */
    method SetBallotToken(k: nat, token: string, nowMs: nat)
      requires Valid()
      requires k < |auths|
      modifies this
      ensures Valid()
      ensures auths == old(auths)[k := WithBallotToken(old(auths)[k], token, nowMs)]
      ensures EmailHashesUnique(old(auths)) ==> EmailHashesUnique(auths)
      ensures unchanged(this`sessions, this`voters)
    {
      if EmailHashesUnique(auths) {
        UpdateKeepsEmailHashesUnique(auths, k, WithBallotToken(auths[k], token, nowMs));
      }
      auths := auths[k := WithBallotToken(auths[k], token, nowMs)];
    }

    /**
     * POST /verify-voter. `tokenBytes` is `crypto.randomBytes(32)`. Whichever
     * factor fails, a non-empty scan without a match answers the same 401.
     */
    method VerifyVoter(emailCode: Option<string>, nationalInsurance: Option<string>, totpCode: Option<string>,
                       nowMs: nat, tokenBytes: seq<byte>, hotp: Totp.Hotp) returns (r: Reply<BallotGrant>)
      requires Valid()
      requires |tokenBytes| == 32
      modifies this
      ensures Valid()
      ensures unchanged(this`sessions, this`voters)
      ensures !(Present(emailCode) && Present(nationalInsurance) && Present(totpCode)) ==>
                r == Failure(400, AllFactorsRequired)
      ensures Present(emailCode) && Present(nationalInsurance) && Present(totpCode) ==>
                var eligible := Eligible(old(voters));
                var creds := Credentials(emailCode.value, nationalInsurance.value, totpCode.value);
                && (eligible == [] ==> r == Failure(404, NoEligibleVoters))
                && (eligible != [] ==> (r.Success? <==> AnyMatch(security, eligible, old(auths), creds, nowMs, hotp)))
                && (eligible != [] && r.Failure? ==> r == Failure(401, InvalidCredentials))
                && (r.Success? ==>
                      GrantsFirstMatch(security, eligible, old(auths), auths, creds, nowMs, hotp, HexEncode(tokenBytes), r.value))
      ensures r.Failure? ==> auths == old(auths)
      ensures EmailHashesUnique(old(auths)) ==> EmailHashesUnique(auths)
      ensures r.Success? ==> |r.value.ballotToken| == 64
                             && forall i :: 0 <= i < 64 ==> IsLowerHexChar(r.value.ballotToken[i])
      ensures r.Success? ==> exists i :: 0 <= i < |voters| && !voters[i].voteCast && voters[i].voterId == r.value.voter.voterId
    {
      if !Present(emailCode) || !Present(nationalInsurance) || !Present(totpCode) {
        return Failure(400, AllFactorsRequired);
      }
      var eligibleVoters := Eligible(voters);
      if |eligibleVoters| == 0 {
        return Failure(404, NoEligibleVoters);
      }
      var creds := Credentials(emailCode.value, nationalInsurance.value, totpCode.value);
      var matched := FindMatch(security, eligibleVoters, auths, creds, nowMs, hotp);
      if matched.None? {
        return Failure(401, InvalidCredentials);
      }
      var m := matched.value;
      var ballotToken := HexEncode(tokenBytes);
      HexEncodeShape(tokenBytes);
      FirstMatchGrants(security, eligibleVoters, auths, creds, nowMs, hotp, ballotToken, m);
      SetBallotToken(m.authIndex, ballotToken, nowMs);
      var voter := eligibleVoters[m.position];
      assert voter in voters && !voter.voteCast;
      var i :| 0 <= i < |voters| && voters[i] == voter;
      r := Success(BallotGrant(ballotToken, Summary(voter)));
      assert voters[i].voterId == r.value.voter.voterId;
    }
  }
}
