/**
 * The older registration routes of backend/routes/api.js, the file the
 * application mounts. Session creation and e-mail code issuance work on the
 * in-memory session map as in the newer routes, but the verify routes read
 * and write documents of a `users` collection addressed by ObjectId, and
 * completion upserts a `users` document keyed by National Insurance number.
 */
module ApiLegacy {
  import opened Base
  import Totp
  import opened Records

  const AllDetailsRequired := "All personal details are required"
  const EmailRequired := "Email is required"
  const SessionNotFound := "Session not found. Please restart the registration process."
  const CodeRequired := "Verification code is required"
  const InvalidOrExpiredCode := "Invalid or expired verification code"
  const VerifyEmailFailed := "Failed to verify email"
  const TotpSecretRequired := "TOTP secret is required"
  const StoreTotpFailed := "Failed to store TOTP secret"
  const TotpCodeRequired := "TOTP code is required"
  const TotpNotSetUp := "TOTP not set up for this user"
  const InvalidTotp := "Invalid TOTP code"
  const VerifyTotpFailed := "Failed to verify TOTP code"
  const VerificationsIncomplete := "Both email and authenticator app verification must be completed first"

  const EmailCodeLifetimeMs: nat := 10 * 60 * 1000
  const RegistrationWindow: nat := 1

  /** A document of the `users` collection; `id` is its ObjectId as hex. */
  datatype UserDoc = UserDoc(
    id: string,
    firstName: string,
    lastName: string,
    postcode: string,
    nationalInsurance: string,
    email: Option<string>,
    emailVerified: bool,
    totpSecret: Option<string>,
    totpVerified: bool,
    createdAt: nat,
    updatedAt: nat)

  /** A document of the `email_codes` collection. */
  datatype EmailCodeDoc = EmailCodeDoc(id: string, userId: string, code: string, expiresAt: nat)

  /** `new ObjectId(userId)` succeeds on a string of 24 hexadecimal digits and throws otherwise. */
  predicate IsObjectIdHex(s: string) {
    |s| == 24 && forall i :: 0 <= i < |s| ==> IsHexChar(s[i])
  }

  /**
   * Two ObjectIds written in hex are the same id when they agree ignoring
   * case: `new ObjectId` parses either case of a hex digit to the same byte.
   */
  predicate SameObjectId(stored: string, given: string) {
    ToLower(stored) == ToLower(given)
  }

  /** `findOne({ _id: new ObjectId(id) })`: the first user with that id. */
  function FindUser(users: seq<UserDoc>, id: string): (k: Option<nat>)
    ensures k.Some? ==> k.value < |users| && SameObjectId(users[k.value].id, id)
                        && forall j :: 0 <= j < k.value ==> !SameObjectId(users[j].id, id)
    ensures k.None? ==> forall j :: 0 <= j < |users| ==> !SameObjectId(users[j].id, id)
  {
    if users == [] then None
    else if SameObjectId(users[0].id, id) then Some(0)
    else match FindUser(users[1..], id)
      case None => None
      case Some(k) => Some(k + 1)
  }

  /** `findOne({ nationalInsurance })`: the first user with exactly that number. */
  function FindUserByNi(users: seq<UserDoc>, ni: string): (k: Option<nat>)
    ensures k.Some? ==> k.value < |users| && users[k.value].nationalInsurance == ni
                        && forall j :: 0 <= j < k.value ==> users[j].nationalInsurance != ni
    ensures k.None? ==> forall j :: 0 <= j < |users| ==> users[j].nationalInsurance != ni
  {
    if users == [] then None
    else if users[0].nationalInsurance == ni then Some(0)
    else match FindUserByNi(users[1..], ni)
      case None => None
      case Some(k) => Some(k + 1)
  }

  /** The code lookup of verify-email: same user, same code, not yet expired. */
  predicate CodeMatches(d: EmailCodeDoc, userId: string, code: string, nowMs: nat) {
    SameObjectId(d.userId, userId) && d.code == code && d.expiresAt > nowMs
  }

  function FindEmailCode(codes: seq<EmailCodeDoc>, userId: string, code: string, nowMs: nat): (k: Option<nat>)
    ensures k.Some? ==> k.value < |codes| && CodeMatches(codes[k.value], userId, code, nowMs)
                        && forall j :: 0 <= j < k.value ==> !CodeMatches(codes[j], userId, code, nowMs)
    ensures k.None? ==> forall j :: 0 <= j < |codes| ==> !CodeMatches(codes[j], userId, code, nowMs)
  {
    if codes == [] then None
    else if CodeMatches(codes[0], userId, code, nowMs) then Some(0)
    else match FindEmailCode(codes[1..], userId, code, nowMs)
      case None => None
      case Some(k) => Some(k + 1)
  }

  /** `deleteOne({ _id })`: the sequence without its first document with that id. */
  function DeleteEmailCode(codes: seq<EmailCodeDoc>, id: string): (r: seq<EmailCodeDoc>)
    ensures id in (set d | d in codes :: d.id) ==> |r| == |codes| - 1
    ensures id !in (set d | d in codes :: d.id) ==> r == codes
    ensures forall d :: d in r ==> d in codes
  {
    if codes == [] then []
    else if codes[0].id == id then codes[1..]
    else [codes[0]] + DeleteEmailCode(codes[1..], id)
  }

  /** An id typed in either hex case finds the same user. */
  lemma {:induction false} FindUserIgnoresIdCase(users: seq<UserDoc>, a: string, b: string)
    requires ToLower(a) == ToLower(b)
    ensures FindUser(users, a) == FindUser(users, b)
  {
    if users != [] {
      FindUserIgnoresIdCase(users[1..], a, b);
    }
  }

  /** An id typed in either hex case finds the same code document. */
  lemma {:induction false} FindEmailCodeIgnoresIdCase(codes: seq<EmailCodeDoc>, a: string, b: string, code: string, nowMs: nat)
    requires ToLower(a) == ToLower(b)
    ensures FindEmailCode(codes, a, code, nowMs) == FindEmailCode(codes, b, code, nowMs)
  {
    if codes != [] {
      FindEmailCodeIgnoresIdCase(codes[1..], a, b, code, nowMs);
    }
  }

  /** The document removed is the first one with the id, and no other. */
  lemma {:induction false} DeleteEmailCodeRemovesFirst(codes: seq<EmailCodeDoc>, id: string, i: nat)
    requires i < |codes| && codes[i].id == id
    requires forall j :: 0 <= j < i ==> codes[j].id != id
    ensures DeleteEmailCode(codes, id) == codes[..i] + codes[i + 1..]
  {
    if i > 0 {
      DeleteEmailCodeRemovesFirst(codes[1..], id, i - 1);
      assert codes[1..][..i - 1] + codes[1..][i..] == codes[1..i] + codes[i + 1..];
      assert codes[..i] == [codes[0]] + codes[1..i];
    }
  }

  /** The `$set` of completion on an existing user with the same number. */
  function Refreshed(u: UserDoc, s: Session, nowMs: nat): UserDoc {
    u.(firstName := s.firstName, lastName := s.lastName, postcode := s.postcode, email := s.email,
       emailVerified := true, totpSecret := s.totpSecret, totpVerified := true, updatedAt := nowMs)
  }

  /** The document completion inserts when no user has the number. */
  function NewUser(id: string, s: Session, nowMs: nat): UserDoc {
    UserDoc(id, s.firstName, s.lastName, s.postcode, s.nationalInsurance, s.email, true,
            s.totpSecret, true, nowMs, nowMs)
  }

  /** The reply of a successful send-email-verification: the code, echoed outside production. */
  datatype CodeSent = CodeSent(developmentCode: Option<string>)

  class LegacyApi {
    /** `userSessions` */
    var sessions: map<string, Session>
    /** The `users` collection. */
    var users: seq<UserDoc>
    /** The `email_codes` collection. */
    var emailCodes: seq<EmailCodeDoc>

    /**
     * Every session is stored under its own id, and no route of this file
     * ever sets a session's verification flags.
     */
    ghost predicate Valid()
      reads this
    {
      forall sid :: sid in sessions ==>
        sessions[sid].sessionId == sid && !sessions[sid].emailVerified && !sessions[sid].totpVerified
    }

    constructor(users: seq<UserDoc>, emailCodes: seq<EmailCodeDoc>)
      ensures Valid()
      ensures sessions == map[] && this.users == users && this.emailCodes == emailCodes
    {
      this.sessions := map[];
      this.users := users;
      this.emailCodes := emailCodes;
    }

    /** POST /users: the reply's `userId` is the session id. */
    method CreateSession(firstName: Option<string>, lastName: Option<string>, postcode: Option<string>,
                         nationalInsurance: Option<string>, sessionId: string, nowMs: nat)
      returns (r: Reply<string>)
      requires Valid()
      modifies this
      ensures Valid()
      ensures users == old(users) && emailCodes == old(emailCodes)
      ensures !PersonalDetailsPresent(firstName, lastName, postcode, nationalInsurance) ==>
                r == Failure(400, AllDetailsRequired) && sessions == old(sessions)
      ensures PersonalDetailsPresent(firstName, lastName, postcode, nationalInsurance) ==>
                && r == Success(sessionId)
                && sessions == old(sessions)[sessionId := NewSession(sessionId, firstName.value, lastName.value,
                                                                       postcode.value, nationalInsurance.value, nowMs)]
    {
      if !PersonalDetailsPresent(firstName, lastName, postcode, nationalInsurance) {
        return Failure(400, AllDetailsRequired);
      }
      var userData := NewSession(sessionId, firstName.value, lastName.value, postcode.value,
                                 nationalInsurance.value, nowMs);
      sessions := sessions[sessionId := userData];
      r := Success(sessionId);
    }

    /**
     * POST /users/:sessionId/send-email-verification. The address is stored
     * as given; whether the e-mail is delivered does not change the reply.
     */
    method SendEmailVerification(sessionId: string, email: Option<string>, codeDraw: nat, nowMs: nat,
                                 production: bool) returns (r: Reply<CodeSent>)
      requires Valid()
      requires 100000 <= codeDraw <= 999999
      modifies this
      ensures Valid()
      ensures users == old(users) && emailCodes == old(emailCodes)
      ensures !Present(email) ==> r == Failure(400, EmailRequired)
      ensures Present(email) && sessionId !in old(sessions) ==> r == Failure(404, SessionNotFound)
      ensures r.Failure? ==> sessions == old(sessions)
      ensures Present(email) && sessionId in old(sessions) ==>
                && sessions == old(sessions)[sessionId := old(sessions)[sessionId].(
                                 email := email, emailVerificationCode := Some(DecimalString(codeDraw)),
                                 emailCodeExpires := Some(nowMs + EmailCodeLifetimeMs))]
                && IsSixDigits(sessions[sessionId].emailVerificationCode.value)
                && r == Success(CodeSent(if production then None else Some(DecimalString(codeDraw))))
    {
      if !Present(email) {
        return Failure(400, EmailRequired);
      }
      if sessionId !in sessions {
        return Failure(404, SessionNotFound);
      }
      var userData := sessions[sessionId];
      var verificationCode := DecimalString(codeDraw);
      SixDigitCode(codeDraw);
      userData := userData.(email := email, emailVerificationCode := Some(verificationCode),
                            emailCodeExpires := Some(nowMs + EmailCodeLifetimeMs));
      sessions := sessions[sessionId := userData];
      r := Success(CodeSent(if production then None else Some(verificationCode)));
    }

    /** POST /users/:userId/verify-email, against the `email_codes` collection. */
    method VerifyEmail(userId: string, code: Option<string>, nowMs: nat) returns (r: Reply<()>)
      modifies this
      ensures sessions == old(sessions)
      ensures !Present(code) ==> r == Failure(400, CodeRequired)
      ensures Present(code) && !IsObjectIdHex(userId) ==> r == Failure(500, VerifyEmailFailed)
      ensures Present(code) && IsObjectIdHex(userId) && FindEmailCode(old(emailCodes), userId, code.value, nowMs).None? ==>
                r == Failure(400, InvalidOrExpiredCode)
      ensures Present(code) && IsObjectIdHex(userId) && FindEmailCode(old(emailCodes), userId, code.value, nowMs).Some? ==>
                r.Success?
      ensures r.Failure? ==> users == old(users) && emailCodes == old(emailCodes)
      ensures r.Success? ==>
                && Present(code) && IsObjectIdHex(userId)
                && var k := FindEmailCode(old(emailCodes), userId, code.value, nowMs);
                && k.Some?
                && emailCodes == DeleteEmailCode(old(emailCodes), old(emailCodes)[k.value].id)
                && |emailCodes| == |old(emailCodes)| - 1
                && var u := FindUser(old(users), userId);
                && (u.None? ==> users == old(users))
                && (u.Some? ==> users == old(users)[u.value := old(users)[u.value].(emailVerified := true, updatedAt := nowMs)])
    {
      if !Present(code) {
        return Failure(400, CodeRequired);
      }
      if !IsObjectIdHex(userId) {
        return Failure(500, VerifyEmailFailed);
      }
      var storedCode := FindEmailCode(emailCodes, userId, code.value, nowMs);
      if storedCode.None? {
        return Failure(400, InvalidOrExpiredCode);
      }
      var doc := emailCodes[storedCode.value];
      var u := FindUser(users, userId);
      if u.Some? {
        users := users[u.value := users[u.value].(emailVerified := true, updatedAt := nowMs)];
      }
      assert doc.id in (set d | d in emailCodes :: d.id);
      emailCodes := DeleteEmailCode(emailCodes, doc.id);
      r := Success(());
    }

    /** POST /users/:userId/setup-totp: an update that matches no user still succeeds. */
    method SetupTotp(userId: string, secret: Option<string>, nowMs: nat) returns (r: Reply<()>)
      modifies this
      ensures sessions == old(sessions) && emailCodes == old(emailCodes)
      ensures !Present(secret) ==> r == Failure(400, TotpSecretRequired)
      ensures Present(secret) && !IsObjectIdHex(userId) ==> r == Failure(500, StoreTotpFailed)
      ensures r.Failure? ==> users == old(users)
      ensures Present(secret) && IsObjectIdHex(userId) ==>
                && r == Success(())
                && var u := FindUser(old(users), userId);
                && (u.None? ==> users == old(users))
                && (u.Some? ==> users == old(users)[u.value := old(users)[u.value].(
                                   totpSecret := secret, totpVerified := false, updatedAt := nowMs)])
    {
      if !Present(secret) {
        return Failure(400, TotpSecretRequired);
      }
      if !IsObjectIdHex(userId) {
        return Failure(500, StoreTotpFailed);
      }
      var u := FindUser(users, userId);
      if u.Some? {
        users := users[u.value := users[u.value].(totpSecret := secret, totpVerified := false, updatedAt := nowMs)];
      }
      r := Success(());
    }

    /** POST /users/:userId/verify-totp, with a one-step window. */
    method VerifyTotp(userId: string, code: Option<string>, nowMs: nat, hotp: Totp.Hotp) returns (r: Reply<()>)
      modifies this
      ensures sessions == old(sessions) && emailCodes == old(emailCodes)
      ensures !Present(code) ==> r == Failure(400, TotpCodeRequired)
      ensures Present(code) && !IsObjectIdHex(userId) ==> r == Failure(500, VerifyTotpFailed)
      ensures Present(code) && IsObjectIdHex(userId) ==>
                var u := FindUser(old(users), userId);
                && ((u.None? || !Present(old(users)[u.value].totpSecret)) ==> r == Failure(400, TotpNotSetUp))
                && ((u.Some? && Present(old(users)[u.value].totpSecret)
                     && !Totp.Verify(hotp, old(users)[u.value].totpSecret.value, code.value, nowMs, RegistrationWindow))
                    ==> r == Failure(400, InvalidTotp))
                && ((u.Some? && Present(old(users)[u.value].totpSecret)
                     && Totp.Verify(hotp, old(users)[u.value].totpSecret.value, code.value, nowMs, RegistrationWindow))
                    ==> r.Success?)
      ensures r.Failure? ==> users == old(users)
      ensures r.Success? ==>
                && Present(code) && IsObjectIdHex(userId)
                && var u := FindUser(old(users), userId);
                && u.Some? && Present(old(users)[u.value].totpSecret)
                && Totp.Verify(hotp, old(users)[u.value].totpSecret.value, code.value, nowMs, RegistrationWindow)
                && users == old(users)[u.value := old(users)[u.value].(totpVerified := true, updatedAt := nowMs)]
    {
      if !Present(code) {
        return Failure(400, TotpCodeRequired);
      }
      if !IsObjectIdHex(userId) {
        return Failure(500, VerifyTotpFailed);
      }
      var u := FindUser(users, userId);
      if u.None? || !Present(users[u.value].totpSecret) {
        return Failure(400, TotpNotSetUp);
      }
      var verified := Totp.Verify(hotp, users[u.value].totpSecret.value, code.value, nowMs, RegistrationWindow);
      if !verified {
        return Failure(400, InvalidTotp);
      }
      users := users[u.value := users[u.value].(totpVerified := true, updatedAt := nowMs)];
      r := Success(());
    }

    /**
     * POST /users/:sessionId/complete-registration. `newId` is the ObjectId
     * the store assigns to an inserted document. On a session created by
     * this file the flags are never set, so the request always fails.
     */
    method CompleteRegistration(sessionId: string, nowMs: nat, newId: string) returns (r: Reply<string>)
      modifies this
      ensures emailCodes == old(emailCodes)
      ensures sessionId !in old(sessions) ==> r == Failure(404, SessionNotFound)
      ensures sessionId in old(sessions) && !(old(sessions)[sessionId].emailVerified && old(sessions)[sessionId].totpVerified) ==>
                r == Failure(400, VerificationsIncomplete)
      ensures r.Failure? ==> sessions == old(sessions) && users == old(users)
      ensures old(Valid()) ==> r.Failure? && r.status in {400, 404}
      ensures r.Success? ==>
                && sessionId in old(sessions)
                && var s := old(sessions)[sessionId];
                && s.emailVerified && s.totpVerified
                && sessions == old(sessions) - {sessionId}
                && var k := FindUserByNi(old(users), s.nationalInsurance);
                && (k.Some? ==> r.value == old(users)[k.value].id
                                && users == old(users)[k.value := Refreshed(old(users)[k.value], s, nowMs)])
                && (k.None? ==> r.value == newId && users == old(users) + [NewUser(newId, s, nowMs)])
    {
      if sessionId !in sessions {
        return Failure(404, SessionNotFound);
      }
      var userData := sessions[sessionId];
      if !userData.emailVerified || !userData.totpVerified {
        return Failure(400, VerificationsIncomplete);
      }
      var existingUser := FindUserByNi(users, userData.nationalInsurance);
      var userId;
      if existingUser.Some? {
        users := users[existingUser.value := Refreshed(users[existingUser.value], userData, nowMs)];
        userId := users[existingUser.value].id;
      } else {
        users := users + [NewUser(newId, userData, nowMs)];
        userId := newId;
      }
      sessions := map sid | sid in sessions && sid != sessionId :: sessions[sid];
      r := Success(userId);
    }
  }

  /** Completion never leaves two users with the same number where there was at most one before. */
  lemma {:induction false} CompletionKeepsNiUnique(users: seq<UserDoc>, s: Session, nowMs: nat, newId: string)
    requires forall i, j :: 0 <= i < j < |users| ==> users[i].nationalInsurance != users[j].nationalInsurance
    ensures var k := FindUserByNi(users, s.nationalInsurance);
            var after := if k.Some? then users[k.value := Refreshed(users[k.value], s, nowMs)]
                         else users + [NewUser(newId, s, nowMs)];
            forall i, j :: 0 <= i < j < |after| ==> after[i].nationalInsurance != after[j].nationalInsurance
  {
  }
}
