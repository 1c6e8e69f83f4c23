/**
 * The documents the routes keep: the in-memory registration session
 * (`userData`, identical in backend/routes/api_fixed.js and
 * backend/routes/api.js) and the two durable voter collections written at
 * completion (`voters` and `voter_auth`).
 */
module Records {
  import opened Base
  import opened Crypto

  /** One in-progress registration, keyed by its session id. */
  datatype Session = Session(
    sessionId: string,
    firstName: string,
    lastName: string,
    postcode: string,
    nationalInsurance: string,
    email: Option<string>,
    emailVerified: bool,
    totpSecret: Option<string>,
    totpVerified: bool,
    createdAt: nat,
    emailVerificationCode: Option<string>,
    emailCodeExpires: Option<nat>)

  /** The `!firstName || !lastName || !postcode || !nationalInsurance` guard, negated. */
  predicate PersonalDetailsPresent(firstName: Option<string>, lastName: Option<string>,
                                   postcode: Option<string>, nationalInsurance: Option<string>) {
    Present(firstName) && Present(lastName) && Present(postcode) && Present(nationalInsurance)
  }

  /** The `userData` object built by POST /users (both route files). */
  function NewSession(sessionId: string, firstName: string, lastName: string,
                      postcode: string, nationalInsurance: string, nowMs: nat): Session
  {
    Session(sessionId, firstName, lastName, ToUpper(postcode), ToUpper(nationalInsurance),
            None, false, None, false, nowMs, None, None)
  }

  /** A document of the `voters` collection. */
  datatype VoterRecord = VoterRecord(
    docId: string,
    voterId: string,
    firstName: string,
    lastName: string,
    postcode: string,
    nationalInsuranceEncrypted: Ciphertext,
    nationalInsuranceIV: string,
    voteCast: bool,
    registrationDate: nat,
    updatedAt: nat,
    voteTimestamp: Option<nat>)

  /** A document of the `voter_auth` collection. */
  datatype AuthRecord = AuthRecord(
    voterId: string,
    emailHash: Digest,
    emailVerified: bool,
    totpSecretEncrypted: Option<Ciphertext>,
    totpSecretIV: Option<string>,
    totpVerified: bool,
    authSetupDate: nat,
    lastAuthUpdate: nat,
    accessCodeEncrypted: Option<Ciphertext>,
    accessCodeIV: Option<string>,
    accessCodeCreated: Option<nat>,
    accessCodeExpires: Option<nat>,
    ballotToken: Option<string>,
    ballotTokenExpires: Option<nat>,
    lastLoginAttempt: Option<nat>)

  /** `findOne({ voterId })`: the first auth record of a voter. */
  function FindAuthByVoterId(auths: seq<AuthRecord>, voterId: string): (k: Option<nat>)
    ensures k.Some? ==> k.value < |auths| && auths[k.value].voterId == voterId
                        && forall j :: 0 <= j < k.value ==> auths[j].voterId != voterId
    ensures k.None? ==> forall j :: 0 <= j < |auths| ==> auths[j].voterId != voterId
  {
    if auths == [] then None
    else if auths[0].voterId == voterId then Some(0)
    else match FindAuthByVoterId(auths[1..], voterId)
      case None => None
      case Some(k) => Some(k + 1)
  }

  /** `findOne({ emailHash })`: the first auth record with that e-mail hash. */
  function FindAuthByEmailHash(auths: seq<AuthRecord>, hash: Digest): (k: Option<nat>)
    ensures k.Some? ==> k.value < |auths| && auths[k.value].emailHash == hash
                        && forall j :: 0 <= j < k.value ==> auths[j].emailHash != hash
    ensures k.None? ==> forall j :: 0 <= j < |auths| ==> auths[j].emailHash != hash
  {
    if auths == [] then None
    else if auths[0].emailHash == hash then Some(0)
    else match FindAuthByEmailHash(auths[1..], hash)
      case None => None
      case Some(k) => Some(k + 1)
  }
}
