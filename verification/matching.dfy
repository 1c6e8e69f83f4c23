/**
 * The voting-day three-factor match of POST /verify-voter
 * (backend/routes/api_fixed.js): a linear scan over the voters who have
 * not voted, decrypting each one's National Insurance number, then
 * checking the voter's access code and authenticator code. The first
 * voter who passes every check is the match.
 */
module Matching {
  import opened Base
  import opened Crypto
  import opened Security
  import Totp
  import opened Records

  /** The three factors typed on voting day. */
  datatype Credentials = Credentials(emailCode: string, nationalInsurance: string, totpCode: string)

  /** The step tolerance used on voting day, wider than registration's 1. */
  const VotingDayWindow: nat := 2

  /** A match: the position of the voter in the eligible list and the index of its auth record. */
  datatype Match = Match(position: nat, authIndex: nat)

  /** `votersCollection.find({ voteCast: false })`, in collection order. */
  function Eligible(voters: seq<VoterRecord>): (r: seq<VoterRecord>)
    ensures forall v :: v in r <==> v in voters && !v.voteCast
  {
    if voters == [] then []
    else if !voters[0].voteCast then [voters[0]] + Eligible(voters[1..])
    else Eligible(voters[1..])
  }

  function NiField(voter: VoterRecord): EncryptedData {
    EncryptedData(voter.nationalInsuranceEncrypted, voter.nationalInsuranceIV)
  }

  /** The stored access code of an auth record, when both its ciphertext and IV are present. */
  function AccessCodeField(a: AuthRecord): Option<EncryptedData> {
    if a.accessCodeEncrypted.Some? && Present(a.accessCodeIV)
    then Some(EncryptedData(a.accessCodeEncrypted.value, a.accessCodeIV.value)) else None
  }

  function TotpSecretField(a: AuthRecord): Option<EncryptedData> {
    if a.totpSecretEncrypted.Some? && Present(a.totpSecretIV)
    then Some(EncryptedData(a.totpSecretEncrypted.value, a.totpSecretIV.value)) else None
  }

  /** `accessCodeExpires && new Date() > accessCodeExpires`; no expiry means the code never expires. */
  predicate AccessCodeExpired(a: AuthRecord, nowMs: nat) {
    a.accessCodeExpires.Some? && nowMs > a.accessCodeExpires.value
  }

  /**
   * The chain of checks of one loop iteration. It yields the index of the
   * voter's auth record when the voter passes them all, and None when any
   * check fails or a decryption throws (the `catch` moves on as well).
   */
  function CheckVoter(u: SecurityUtils, voter: VoterRecord, auths: seq<AuthRecord>,
                      creds: Credentials, nowMs: nat, hotp: Totp.Hotp): (r: Option<nat>)
    ensures r.Some? ==> r == FindAuthByVoterId(auths, voter.voterId)
  {
    var ni := Decrypt(u, NiField(voter));
    if ni.None? || ToUpper(ni.value) != ToUpper(creds.nationalInsurance) then None
    else
      var k := FindAuthByVoterId(auths, voter.voterId);
      if k.None? then None
      else
        var a := auths[k.value];
        if AccessCodeField(a).None? || AccessCodeExpired(a, nowMs) then None
        else if Decrypt(u, AccessCodeField(a).value) != Some(creds.emailCode) then None
        else if TotpSecretField(a).None? then None
        else
          var secret := Decrypt(u, TotpSecretField(a).value);
          if secret.Some? && Totp.Verify(hotp, secret.value, creds.totpCode, nowMs, VotingDayWindow)
          then Some(k.value) else None
  }

  /**
   * The checks of one iteration stated together: the decrypted number
   * equals the typed one ignoring case, the voter has an auth record, its
   * access code is stored, unexpired and decrypts to the typed code, and
   * its TOTP secret is stored, decrypts, and accepts the typed TOTP code
   * within two steps.
   */
  ghost predicate PassesChecks(u: SecurityUtils, voter: VoterRecord, auths: seq<AuthRecord>,
                               creds: Credentials, nowMs: nat, hotp: Totp.Hotp, k: nat)
  {
    && Decrypt(u, NiField(voter)).Some?
    && ToUpper(Decrypt(u, NiField(voter)).value) == ToUpper(creds.nationalInsurance)
    && FindAuthByVoterId(auths, voter.voterId) == Some(k)
    && AccessCodeField(auths[k]).Some?
    && !AccessCodeExpired(auths[k], nowMs)
    && Decrypt(u, AccessCodeField(auths[k]).value) == Some(creds.emailCode)
    && TotpSecretField(auths[k]).Some?
    && Decrypt(u, TotpSecretField(auths[k]).value).Some?
    && Totp.Verify(hotp, Decrypt(u, TotpSecretField(auths[k]).value).value, creds.totpCode, nowMs, VotingDayWindow)
  }

  /** A voter is matched through auth record `k` exactly when every check passes. */
  lemma CheckVoterMeaning(u: SecurityUtils, voter: VoterRecord, auths: seq<AuthRecord>,
                          creds: Credentials, nowMs: nat, hotp: Totp.Hotp, k: nat)
    ensures CheckVoter(u, voter, auths, creds, nowMs, hotp) == Some(k) <==> PassesChecks(u, voter, auths, creds, nowMs, hotp, k)
  {
  }

  /** `m` names the first eligible voter to pass every check. */
  ghost predicate IsFirstMatch(u: SecurityUtils, eligible: seq<VoterRecord>, auths: seq<AuthRecord>,
                               creds: Credentials, nowMs: nat, hotp: Totp.Hotp, m: Match)
  {
    && m.position < |eligible| && m.authIndex < |auths|
    && CheckVoter(u, eligible[m.position], auths, creds, nowMs, hotp) == Some(m.authIndex)
    && forall j :: 0 <= j < m.position ==> CheckVoter(u, eligible[j], auths, creds, nowMs, hotp).None?
  }

  /** Some eligible voter passes every check. */
  ghost predicate AnyMatch(u: SecurityUtils, eligible: seq<VoterRecord>, auths: seq<AuthRecord>,
                           creds: Credentials, nowMs: nat, hotp: Totp.Hotp)
  {
    exists j :: 0 <= j < |eligible| && CheckVoter(u, eligible[j], auths, creds, nowMs, hotp).Some?
  }

  /** The `for (const voter of eligibleVoters)` loop with its `continue`s and its `break`. */
  method FindMatch(u: SecurityUtils, eligible: seq<VoterRecord>, auths: seq<AuthRecord>,
                   creds: Credentials, nowMs: nat, hotp: Totp.Hotp) returns (m: Option<Match>)
    ensures m.Some? ==> IsFirstMatch(u, eligible, auths, creds, nowMs, hotp, m.value)
    ensures m.Some? ==> m.value.authIndex < |auths| && auths[m.value.authIndex].voterId == eligible[m.value.position].voterId
    ensures m.None? <==> forall j :: 0 <= j < |eligible| ==> CheckVoter(u, eligible[j], auths, creds, nowMs, hotp).None?
  {
    m := None;
    for i := 0 to |eligible|
      invariant m.None?
      invariant forall j :: 0 <= j < i ==> CheckVoter(u, eligible[j], auths, creds, nowMs, hotp).None?
    {
      var voter := eligible[i];
      var ni := Decrypt(u, NiField(voter));
      if ni.None? {
        continue;  // decryption threw
      }
      if ToUpper(ni.value) != ToUpper(creds.nationalInsurance) {
        continue;
      }
      var k := FindAuthByVoterId(auths, voter.voterId);
      if k.None? {
        continue;  // no auth record
      }
      var a := auths[k.value];
      if AccessCodeField(a).None? {
        continue;  // no access code
      }
      if AccessCodeExpired(a, nowMs) {
        continue;
      }
      var code := Decrypt(u, AccessCodeField(a).value);
      if code != Some(creds.emailCode) {
        continue;  // mismatch, or decryption threw
      }
      if TotpSecretField(a).None? {
        continue;  // no TOTP secret
      }
      var secret := Decrypt(u, TotpSecretField(a).value);
      if secret.Some? && Totp.Verify(hotp, secret.value, creds.totpCode, nowMs, VotingDayWindow) {
        m := Some(Match(i, k.value));
        break;
      }
    }
  }

  /** The eligible list keeps collection order: a voter added last comes last when it has not voted. */
  lemma {:induction false} EligibleAppend(voters: seq<VoterRecord>, v: VoterRecord)
    ensures Eligible(voters + [v]) == Eligible(voters) + (if v.voteCast then [] else [v])
  {
    if voters == [] {
      assert voters + [v] == [v];
      assert [v][1..] == [];
    } else {
      assert (voters + [v])[1..] == voters[1..] + [v];
      EligibleAppend(voters[1..], v);
    }
  }

  /** A voter who has voted is never eligible, whatever credentials are offered. */
  lemma {:induction false} VotedVoterNeverEligible(voters: seq<VoterRecord>, i: nat)
    requires i < |Eligible(voters)|
    ensures !Eligible(voters)[i].voteCast
  {
    assert Eligible(voters)[i] in Eligible(voters);
  }

  /**
   * Completeness: a voter registered through the vault, whose access code
   * was issued and has not expired, is matched by the right number (in any
   * case), the issued code and a TOTP code valid within two steps.
   */
  lemma RegisteredVoterPassesChecks(u: SecurityUtils, voter: VoterRecord, auths: seq<AuthRecord>, k: nat,
                                    ni: string, code: string, secret: string, niIv: seq<byte>,
                                    codeIv: seq<byte>, secretIv: seq<byte>,
                                    creds: Credentials, nowMs: nat, hotp: Totp.Hotp)
    requires |niIv| == IvLength && |codeIv| == IvLength && |secretIv| == IvLength
    requires NiField(voter) == EncryptNationalInsurance(u, ni, niIv)
    requires FindAuthByVoterId(auths, voter.voterId) == Some(k)
    requires var access := EncryptAccessCode(u, code, codeIv);
             auths[k].accessCodeEncrypted == Some(access.encrypted) && auths[k].accessCodeIV == Some(access.iv)
    requires var totp := EncryptTotpSecret(u, secret, secretIv);
             auths[k].totpSecretEncrypted == Some(totp.encrypted) && auths[k].totpSecretIV == Some(totp.iv)
    requires !AccessCodeExpired(auths[k], nowMs)
    requires ToUpper(creds.nationalInsurance) == ToUpper(ni) && creds.emailCode == code
    requires Totp.Verify(hotp, secret, creds.totpCode, nowMs, VotingDayWindow)
    ensures CheckVoter(u, voter, auths, creds, nowMs, hotp) == Some(k)
  {
    ToUpperIdempotent(ni);
    HexEncodeShape(codeIv);
    HexEncodeShape(secretIv);
  }
}
