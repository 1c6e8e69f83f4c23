# WeVote registration, voting-day verification and statistics, in Dafny

WeVote is a small electronic-voting application.

- **Registration.** A registrant gives personal details and proves possession of an e-mail address. They also set up an authenticator app (TOTP). Completion stores one `voters` record and one `voter_auth` record.
- **Voting day.** The voter types three factors:
  - the access code sent by e-mail;
  - their National Insurance (NI) number;
  - the current authenticator code.

  The server scans the voters who have not voted for the first one who matches all three, and issues a ballot token.
- **Administration.** An administrator sees turnout and party, candidate and constituency tallies.

This project models the core of that application and proves what each part promises.

| module (file) | models |
|---|---|
| `Base` (base.dfy) | JavaScript helpers used throughout: `toUpperCase`/`toLowerCase` on ASCII letters, whitespace removal, `substring`, decimal and hex rendering (with Node's lenient hex decoding), the e-mail pattern |
| `Crypto`, `Totp` (crypto.dfy) | SHA-256 and AES-256-CBC as symbolic values; the TOTP step window used by the routes |
| `Security` (security.dfy) | the `SecurityUtils` singleton of `backend/utils/security.js`: one derived key, per-field encryption with a fresh IV, case normalisation before hashing and encryption, voter ids, field normalisation |
| `Records` (records.dfy) | the registration session, the `voters` and `voter_auth` documents and their `findOne` lookups |
| `Dicts` (dicts.dfy) | JavaScript objects used as counters and dictionaries, keys kept in first-insertion order |
| `ApiFixed` (api_fixed.dfy) | `backend/routes/api_fixed.js` as a class `FixedApi`. Its fields are the session map and the two collections. Each route is a method that checks its guards in the source's order and changes the state in place. |
| `Matching` (matching.dfy) | the voting-day scan of POST `/verify-voter`: the per-voter chain of checks and the first-match loop |
| `ApiLegacy` (api_legacy.dfy) | `backend/routes/api.js` as a class `LegacyApi`. It has the same session map, plus a `users` and an `email_codes` collection addressed by ObjectId. |
| `Admin` (admin.dfy) | POST `/stats` (the counting loops, party summaries, turnout) and POST `/voters` of `backend/routes/admin.js` |
| `VoterVerification` (voter_verification.dfy) | the voting-day form: the NI validator, the six-digit fields, submission |
| `AuthPage` (auth_component.dfy) | the registration page component `AuthComponent` as a class with its fields: the code guards, secret and code generation, resets, the finishing gate |

## Modelling choices

- **Crypto.**
  - The cryptographic primitives are symbolic.
    - A digest is `Sha256(input)`, so equal digests mean equal inputs.
    - A ciphertext records its key, IV and plaintext.
    - Decryption yields `None` under another key or IV. This is an idealisation; "Left out" says how Node differs.
  - HOTP is a function-typed parameter. TOTP verification is "some counter within `window` steps of now yields the token".
- **Randomness.** Random values are parameters constrained to their ranges:
  - codes from `Math.random`;
  - IVs, voter-id bytes and ballot-token bytes from `randomBytes`;
  - session ids and inserted ObjectIds.
- **Time** is a number of milliseconds passed in by the caller.
- **Percentages.** `Math.round((x / d) * 100)` is modelled by exact integer round-half-up, `(200x + d) / (2d)`. Where the double arithmetic misses an exact half, the two differ (see "Left out").
- **Errors.** A route answers `Success(value)` or `Failure(status, message)`, with the source's status codes and messages.
- **JavaScript truthiness.** An optional request field is `Option<string>`. `Present` is JavaScript truthiness: absent, `null` and `""` are all falsy.

### Behaviour of the code that the model exhibits

- **A spaced NI number never matches on voting day.**
  - The voting-day form accepts an NI number typed with spaces.
  - It then passes the number exactly as typed to `UserService.verifyVoter`. That service method is assumed to post it unchanged, since the service shipped with the page does not define it (see "Left out").
  - The server compares it, only upper-cased, against the stored number, and completion stores the number without removing spaces.
  - So a spaced entry never matches a number that was registered without spaces (`VoterVerification.SpacedNumberMatchesNoUnspacedVoter`).
- **A first-time registrant gets no access code.**
  - The voting-day access code is issued when the e-mail address is verified.
  - That is before completion creates the auth record it is written to.
  - So for a first-time registrant the lookup fails and the failure is swallowed.
  - The auth record created later has no access code, and every voting-day check of that voter fails (`ApiFixed.NewRegistrantCannotPassVotingDay`).
- **The legacy completion always fails.**
  - In `backend/routes/api.js` no route sets a session's verified flags.
  - So completion of a session created by that file always fails (`ApiLegacy.LegacyApi.CompleteRegistration`).
- **Short postcodes are named differently.**
  - The voter list and the statistics name a constituency differently for a postcode of one or two characters.
  - The list shows the postcode itself; the statistics count it under "Unknown" (`Admin.ListingConstituencyAgreesWithStats`).
- **A pending code survives a change of address.**
  - POST `/users/:sessionId/email` replaces the address and resets `emailVerified`, but keeps the pending verification code and its expiry.
  - So a code sent to one address still verifies the session after the address is switched to another, and the access code is then issued for the second address (`ApiFixed.FixedApi.AttachEmail`, `ApiFixed.FixedApi.VerifyEmail`).

## Model

| member | source | states |
|---|---|---|
| Base.ToUpper | backend/utils/security.js:91-93 | character-wise upper-casing: same length, each character mapped on its own |
| Base.ToLower | backend/utils/security.js:13-15 | character-wise lower-casing: same length, each character mapped on its own |
| Base.ToUpperIdempotent | backend/utils/security.js:91-93 | upper-casing twice is upper-casing once |
| Base.ToLowerIdempotent | backend/utils/security.js:13-15 | lower-casing twice is lower-casing once |
| Base.RemoveWhitespace | backend/utils/security.js:127-129 | removing whitespace never lengthens a string |
| Base.RemoveWhitespaceSpec | backend/utils/security.js:127-129 | the result holds no whitespace, and a whitespace-free string is returned unchanged |
| Base.RemoveWhitespaceToLower | backend/utils/security.js:127-129 | lower-casing and removing whitespace commute |
| Base.RemoveWhitespaceToUpper | frontend/src/app/voter-verification.ts:42 | upper-casing and removing whitespace commute |
| Base.Prefix | backend/routes/admin.js:236 | `substring(0, n)` is a prefix of length min(n, length) |
| Base.DecimalStringShape | frontend/src/app/auth.ts:142-144 | a number with k decimal digits renders as exactly k digit characters |
| Base.SixDigitCode | backend/routes/api_fixed.js:25 | every code in 100000..999999 renders as six digits |
| Base.HexEncodeShape | backend/routes/api_fixed.js:756 | hex encoding yields two lower-case hex characters per byte |
| Base.HexRoundTrip | backend/utils/security.js:25-31 | decoding the hex text of an IV gives back the IV |
| Base.ToLowerKeepsEmailPattern | backend/routes/api_fixed.js:216-226 | lower-casing an address that matched the e-mail pattern keeps it matching |
| Crypto.AesDecrypt | backend/utils/security.js:30-36 | decryption succeeds exactly under the encrypting key and IV, and then yields the plaintext |
| Crypto.AesRoundTrip | backend/utils/security.js:18-36 | decrypting an encryption with the same key and IV gives back the plaintext |
| Totp.AnyCounterMatchesMeaning | backend/routes/api_fixed.js:469-474 | the counter search holds exactly when some counter in the range yields the token |
| Totp.VerifyMeaning | backend/routes/api_fixed.js:469-474 | a token verifies exactly when it is the HOTP value of a counter within `window` steps of the current one |
| Totp.WiderWindowAccepts | backend/routes/api_fixed.js:724-729 | a code accepted with window 1 at registration is also accepted with voting day's window 2 |
| Security.NewSecurityUtils | backend/utils/security.js:4-10 | the key is SHA-256 of ENCRYPTION_KEY, or of the built-in string when that is unset or empty; the algorithm is aes-256-cbc |
| Security.Encrypt | backend/utils/security.js:19-26 | the IV is returned as 32 lower-case hex characters, and the result decrypts to the plaintext under the same key |
| Security.FreshIvDistinctCiphertexts | backend/utils/security.js:19-26 | two encryptions of one plaintext with different IVs differ in both ciphertext and IV |
| Security.OtherKeyCannotDecrypt | backend/utils/security.js:30-36 | data encrypted under one key does not decrypt under another |
| Security.HashEmailIgnoresCase | backend/utils/security.js:13-15 | two addresses hash equally if and only if they agree after lower-casing |
| Security.HashNationalInsuranceIgnoresCase | backend/utils/security.js:91-93 | two NI numbers hash equally if and only if they agree after upper-casing |
| Security.EncryptNationalInsurance | backend/utils/security.js:18-36 | decryption returns the number upper-cased; the IV is the hex of the drawn bytes |
| Security.EncryptTotpSecret | backend/utils/security.js:44-62 | decryption returns the secret unchanged |
| Security.EncryptAccessCode | backend/utils/security.js:70-88 | decryption returns the code string unchanged |
| Security.EncryptEmail | backend/utils/security.js:96-114 | decryption returns the address lower-cased |
| Security.GenerateVoterId | backend/utils/security.js:39-41 | "VTR-" followed by exactly 16 upper-case hex characters |
| Security.NormalizeField | backend/utils/security.js:127-129 | "" for a falsy value, else lower-cased with all whitespace removed; the result is whitespace-free and lower-case |
| Security.NormalizeFieldIdempotent | backend/utils/security.js:127-129 | normalising a normalised value changes nothing |
| Security.NormalizePersonalData | backend/utils/security.js:117-124 | each of the four fields is exactly the `normalizeField` of its input |
| Records.FindAuthByVoterId | backend/routes/api_fixed.js:686 | the index of the first auth record of the voter, or None exactly when there is none |
| Records.FindAuthByEmailHash | backend/routes/api_fixed.js:32-38 | the index of the first auth record with the hash, or None exactly when there is none |
| Dicts.Empty | backend/routes/admin.js:133-136 | an empty dictionary with no keys |
| Dicts.Put | backend/routes/admin.js:165-169 | the key gets the value; an existing key keeps its place, a new key goes last |
| Dicts.Lookup | backend/routes/admin.js:159 | a value exactly when the key is set, and then the value stored under it |
| Dicts.Increment | backend/routes/admin.js:173-176 | the key's counter (absent counts 0) grows by one and no other counter changes |
| Dicts.IncrementTotal | backend/routes/admin.js:173-177 | incrementing a counter adds one to the sum of all counters |
| Dicts.PutSumBy | backend/routes/admin.js:238-252 | replacing a value changes a weighted sum by the new weight minus the old |
| Dicts.CountAtMostTotal | backend/routes/admin.js:211-221 | each counter is at most the sum of all counters |
| Matching.Eligible | backend/routes/api_fixed.js:660 | exactly the voters who have not voted |
| Matching.EligibleAppend | backend/routes/api_fixed.js:660 | the eligible voters keep collection order: a voter stored last comes last, when it has not voted |
| Matching.CheckVoter | backend/routes/api_fixed.js:674-747 | a voter that passes the chain of checks yields the index of its own first auth record |
| Matching.CheckVoterMeaning | backend/routes/api_fixed.js:674-747 | a voter is matched through auth record k exactly when: its NI decrypts and equals the typed one up to case; k is its first auth record; that record's access code is stored, unexpired and decrypts to the typed code; and its TOTP secret is stored, decrypts and accepts the typed code with window 2 |
| Matching.FindMatch | backend/routes/api_fixed.js:670-747 | returns the first eligible voter to pass every check, with the index of its own auth record; returns None exactly when no eligible voter passes |
| Matching.VotedVoterNeverEligible | backend/routes/api_fixed.js:660 | no voter who has voted is among the candidates for a match |
| Matching.RegisteredVoterPassesChecks | backend/routes/api_fixed.js:674-735 | a voter passes when: the NI matches up to case; its auth record holds an unexpired access code equal to the typed one; and the authenticator code verifies with window 2 |
| ApiFixed.InsertKeepsEmailHashesUnique | backend/routes/api_fixed.js:561-600 | inserting an auth record under an e-mail hash not yet stored keeps the hashes unique |
| ApiFixed.UpdateKeepsEmailHashesUnique | backend/routes/api_fixed.js:760-769 | rewriting an auth record's other fields keeps the hashes unique |
| ApiFixed.FirstMatchGrants | backend/routes/api_fixed.js:756-782 | writing the token on the first match's auth record grants that voter a ballot with its summary |
| ApiFixed.AccessCodeIssuedOpens | backend/routes/api_fixed.js:21-56 | the access code is stored encrypted on that address's auth record only; it decrypts to the issued code, and it is accepted up to and including 24 hours after issue and not a millisecond later |
| ApiFixed.NewRegistrantCannotPassVotingDay | backend/routes/api_fixed.js:385-392 | an auth record created at completion, after the access code could not be stored, fails every voting-day check |
| ApiFixed.FixedApi.constructor | backend/routes/api_fixed.js:12 | an empty session map over the given collections |
| ApiFixed.FixedApi.CreateSession | backend/routes/api_fixed.js:151-196 | 400 when a personal detail is missing; otherwise a new session: postcode and NI upper-cased, no email or secret, both flags false |
| ApiFixed.FixedApi.AttachEmail | backend/routes/api_fixed.js:199-239 | the 400/404/400 guards in order; on success the address is stored lower-cased, emailVerified is reset, and nothing else changes |
| ApiFixed.FixedApi.SendEmailVerification | backend/routes/api_fixed.js:242-334 | 404 for an unknown session, 400 without an email; otherwise a six-digit code expiring in five minutes replaces the old one, and a failed delivery answers 500 with the code kept |
| ApiFixed.FixedApi.IssueAccessCode | backend/routes/api_fixed.js:21-56 | stores the access code exactly when an auth record has the address's hash; the collections change by `AccessCodeIssued` only |
| ApiFixed.FixedApi.VerifyEmail | backend/routes/api_fixed.js:337-403 | failures in the source's order: no code, unknown session, no stored code, wrong code, expired (a code is still accepted at its expiry instant); a present code equal to the stored one and not past its expiry always succeeds; success sets emailVerified, clears the code so it cannot be replayed, and issues the access code |
| ApiFixed.FixedApi.SetupTotp | backend/routes/api_fixed.js:406-440 | the secret replaces any earlier one and totpVerified is reset |
| ApiFixed.FixedApi.VerifyTotp | backend/routes/api_fixed.js:443-498 | fails without a stored secret or when the code does not verify with window 1; success sets only totpVerified |
| ApiFixed.FixedApi.CompleteRegistration | backend/routes/api_fixed.js:529-635 | 404 or 400 unless both flags are set; 400 with nothing changed when the e-mail hash is registered; with both flags set and a new e-mail hash it succeeds: exactly one voter record (voteCast false) and one auth record with the same voter id are added and the session is deleted; unique e-mail hashes stay unique |
| ApiFixed.FixedApi.InsertRegistration | backend/routes/api_fixed.js:598-600 | appends the two records; unique e-mail hashes stay unique |
| ApiFixed.FixedApi.SetBallotToken | backend/routes/api_fixed.js:760-769 | the token and its 30-minute expiry are set on one auth record only; unique e-mail hashes stay unique |
| ApiFixed.FixedApi.VerifyVoter | backend/routes/api_fixed.js:638-789 | 400 when a factor is missing, 404 when nobody is eligible; success holds exactly when some eligible voter passes, and otherwise the answer is one 401 whatever failed; on success a 64-hex token is written to the first match's auth record only, and that voter exists and has not voted; unique e-mail hashes stay unique |
| ApiLegacy.FindUser | backend/routes/api.js:245 | the first user whose ObjectId equals the given one ignoring hex case, or None exactly when there is none |
| ApiLegacy.FindUserByNi | backend/routes/api.js:340-342 | the first user with exactly that NI number, or None exactly when there is none |
| ApiLegacy.FindEmailCode | backend/routes/api.js:158-162 | the first code document with the user id (ignoring hex case), the code and an expiry after now, or None exactly when there is none |
| ApiLegacy.FindUserIgnoresIdCase | backend/routes/api.js:245 | an id typed in upper- or lower-case hex finds the same user |
| ApiLegacy.FindEmailCodeIgnoresIdCase | backend/routes/api.js:158-162 | an id typed in upper- or lower-case hex finds the same code document |
| ApiLegacy.DeleteEmailCode | backend/routes/api.js:182 | removes one document with that id when there is one, and only removes |
| ApiLegacy.DeleteEmailCodeRemovesFirst | backend/routes/api.js:182 | the document removed is the first one with the id: the rest keep their order |
| ApiLegacy.LegacyApi.constructor | backend/routes/api.js:27-71 | an empty session map over the given collections |
| ApiLegacy.LegacyApi.CreateSession | backend/routes/api.js:27-71 | 400 when a personal detail is missing; otherwise a new session with postcode and NI upper-cased, answered with the session id as userId |
| ApiLegacy.LegacyApi.SendEmailVerification | backend/routes/api.js:74-141 | 400 without an email, 404 for an unknown session; otherwise the address as given, a six-digit code and a ten-minute expiry are stored, the reply does not depend on delivery, and the code is echoed outside production |
| ApiLegacy.LegacyApi.VerifyEmail | backend/routes/api.js:144-193 | 500 for a malformed ObjectId; the id is matched ignoring hex case; 400 unless a matching unexpired code exists, and success whenever one does; success marks the user verified and deletes that code document |
| ApiLegacy.LegacyApi.SetupTotp | backend/routes/api.js:196-229 | stores the secret and resets totpVerified on the user found ignoring hex case; an id that matches no user still succeeds |
| ApiLegacy.LegacyApi.VerifyTotp | backend/routes/api.js:232-287 | fails without a user (found ignoring hex case) or secret or when the code does not verify with window 1, and succeeds otherwise; success sets the user's totpVerified |
| ApiLegacy.LegacyApi.CompleteRegistration | backend/routes/api.js:318-395 | with the session map as this file's routes leave it, always fails with 404 or 400; completion, were it reached, updates the user with the same NI or inserts one, and deletes the session |
| ApiLegacy.CompletionKeepsNiUnique | backend/routes/api.js:340-380 | the upsert never creates a second user with the same NI number |
| Admin.RoundPercent | backend/routes/admin.js:214 | 0 when the total is 0; otherwise round-half-up of 100x/d, and at most 100 when x is at most d |
| Admin.RoundPercentBounds | backend/routes/admin.js:258-260 | the rounded percentage is the nearest integer to 100x/d, ties upward |
| Admin.CandidateLookup | backend/routes/admin.js:109-116 | a candidate id is known exactly when some candidate document has it |
| Admin.BuildCandidateMap | backend/routes/admin.js:109-116 | the built map answers every id as the candidate lookup does (the last document wins) |
| Admin.FindVoter | backend/routes/admin.js:146 | the first voter with that document id, or None exactly when there is none |
| Admin.VoteConstituency | backend/routes/admin.js:142-155 | the vote's own constituency, else the voter's postcode prefix, else "Unknown"; never empty |
| Admin.FirstVoteType | backend/routes/admin.js:191-201 | a candidate has a vote type exactly when it has a vote |
| Admin.ConstituenciesSeen | backend/routes/admin.js:165-169 | each constituency is listed once |
| Admin.ConstituenciesSeenMeaning | backend/routes/admin.js:165-169 | a constituency is listed exactly when some vote is cast in it |
| Admin.RaceTotalsAtMostVotes | backend/routes/admin.js:172-188 | MP votes plus council votes never exceed the votes cast |
| Admin.PartyStep | backend/routes/admin.js:172-188 | one vote in a race adds one to its party's counter and to the race total; the counters still sum to the total |
| Admin.RaceTotalStep | backend/routes/admin.js:177 | a race total grows by one exactly for a vote in that race |
| Admin.RaceStep | backend/routes/admin.js:172-188 | a vote adds to its own party's count in its own race only |
| Admin.CandidateStep | backend/routes/admin.js:202-207 | a vote adds one to its candidate's total and to one constituency count, keeping total = sum of counts |
| Admin.CandidateCountsStep | backend/routes/admin.js:202-207 | the counters of the vote's candidate still agree with its votes after the vote |
| Admin.ConstituencyCountsStep | backend/routes/admin.js:204-207 | each constituency counter of a candidate still holds its votes there |
| Admin.OtherCandidateStep | backend/routes/admin.js:190-207 | a vote leaves every other candidate's tally as it was |
| Admin.TallyBeforeAgrees | backend/routes/admin.js:191-201 | a new tally is labelled from the candidate map and takes the vote type of the first vote |
| Admin.CandidateVotesStep | backend/routes/admin.js:202 | a vote changes only its own candidate's count |
| Admin.CandidatesStep | backend/routes/admin.js:190-207 | `candidateVotes` after one more vote agrees with all the votes so far |
| Admin.CandidateVotesInAtMost | backend/routes/admin.js:204-207 | a candidate's votes in one constituency are at most its votes |
| Admin.TallyStep | backend/routes/admin.js:140-208 | one pass of the vote loop keeps the loop invariant |
| Admin.SeenStep | backend/routes/admin.js:165-169 | the constituency keys after one more vote are those of all the votes so far |
| Admin.MpStep | backend/routes/admin.js:172-178 | the MP counters after one more vote agree with all the votes so far |
| Admin.CouncilStep | backend/routes/admin.js:179-185 | the council counters after one more vote agree with all the votes so far |
| Admin.CandidateVotesStepOf | backend/routes/admin.js:190-207 | the candidate tallies after one more vote agree with all the votes so far |
| Admin.CountVote | backend/routes/admin.js:141-207 | the loop body adds one vote to every accumulator |
| Admin.TallyVotes | backend/routes/admin.js:140-208 | after the loop: each party counter holds its race votes and sums to the race total; each candidate's total equals the sum of its constituency counts; constituencies are listed by first appearance |
| Admin.CountVotedAtMostVoters | backend/routes/admin.js:121-126 | the number of voters who voted is at most the number registered |
| Admin.VotedAtMostRegistered | backend/routes/admin.js:247-252 | in every constituency, voted is at most registered |
| Admin.CountVoterOf | backend/routes/admin.js:247-252 | counting a voter adds one to registered, and one to voted exactly when the voter has voted |
| Admin.EntryStep | backend/routes/admin.js:238-252 | a constituency's entry after one more voter holds its counts |
| Admin.TurnoutStep | backend/routes/admin.js:233-253 | one pass of the voter loop keeps every constituency's counts right |
| Admin.RegisteredSumStep | backend/routes/admin.js:247 | counting a voter adds one to the sum of the registered counts |
| Admin.VotedSumStep | backend/routes/admin.js:250-252 | counting a voter adds one to the sum of the voted counts exactly when the voter voted |
| Admin.TurnoutSumsStep | backend/routes/admin.js:233-253 | both sums grow with each voter |
| Admin.CountVotersByConstituency | backend/routes/admin.js:230-253 | voters grouped by postcode prefix or "Unknown": a group exists exactly when a voter is in it, and holds its registered and voted counts |
| Admin.SetTurnoutPercentages | backend/routes/admin.js:256-261 | every entry gets its turnout percentage, keys and order unchanged |
| Admin.Summaries | backend/routes/admin.js:211-214 | one summary per party key, with its count and rounded percentage |
| Admin.InsertByVotes | backend/routes/admin.js:215 | insertion adds exactly the one element |
| Admin.InsertByVotesElements | backend/routes/admin.js:215 | insertion brings in no other element |
| Admin.SortedCons | backend/routes/admin.js:215 | an element beating every element of a sorted list can lead it |
| Admin.InsertByVotesSorted | backend/routes/admin.js:215 | insertion into a list sorted by votes keeps it sorted |
| Admin.SortByVotes | backend/routes/admin.js:215 | a permutation of its input, sorted by votes descending |
| Admin.PartyVotesMeaning | backend/routes/admin.js:211-221 | each party appears once with its count and rounded percentage in 0..100, sorted by votes descending |
| Admin.Stats | backend/routes/admin.js:101-287 | registered, votes cast and turnout counts; every percentage is the rounded ratio and lies in 0..100; the group sizes sum to the voter count and the voted sizes to the turnout; party and candidate tallies agree with the votes; MP plus council votes never exceed votes cast |
| Admin.VoterList | backend/routes/admin.js:290-326 | the intended projection: every voter in order, without NI fields, with constituency = postcode prefix (or "Unknown") and name = first + " " + last |
| Admin.ListingConstituencyAgreesWithStats | backend/routes/admin.js:236 | the list and the statistics agree on a voter's constituency except for one- or two-character postcodes |
| VoterVerification.FirstLetterClassMeaning | frontend/src/app/voter-verification.ts:46 | the first letter is an upper-case letter other than D, F, I, Q, U and V |
| VoterVerification.SecondLetterClassMeaning | frontend/src/app/voter-verification.ts:46 | the second letter additionally excludes O |
| VoterVerification.OptionalSpace | frontend/src/app/voter-verification.ts:47 | `\s?` consumes at most one leading whitespace character |
| VoterVerification.SpacedTailWithoutWhitespace | frontend/src/app/voter-verification.ts:47 | without whitespace, the spaced tail is exactly 2n digits and a suffix letter |
| VoterVerification.SpacedPatternWithoutWhitespace | frontend/src/app/voter-verification.ts:45-50 | once whitespace is stripped, the spaced pattern accepts exactly what the standard pattern accepts |
| VoterVerification.SpacedPatternAcceptsSpaces | frontend/src/app/voter-verification.ts:45-48 | on an unstripped spaced number the two patterns do differ |
| VoterVerification.Normalized | frontend/src/app/voter-verification.ts:42 | the tested value is whitespace-free and upper-case |
| VoterVerification.NationalInsuranceValidator | frontend/src/app/voter-verification.ts:39-52 | the empty value passes; any other value passes exactly when its upper-cased, whitespace-free form matches the standard pattern |
| VoterVerification.NationalInsuranceAccepted | frontend/src/app/voter-verification.ts:46 | an accepted number has nine characters: the two letter classes, six digits, and A to D |
| VoterVerification.LowercaseAndSpacedInputPass | frontend/src/app/voter-verification.ts:42 | "ab 12 34 56 c" passes |
| VoterVerification.WhitespaceOnlyRejected | frontend/src/app/voter-verification.ts:40-51 | a non-empty value of whitespace only is rejected |
| VoterVerification.CodeFieldValid | frontend/src/app/voter-verification.ts:27-29 | a code field is valid exactly when it holds six ASCII digits |
| VoterVerification.NationalInsuranceFieldValid | frontend/src/app/voter-verification.ts:28 | the NI field is valid exactly when it is non-empty and its normalised form matches |
| VoterVerification.Submit | frontend/src/app/voter-verification.ts:54-71 | a request is made exactly when all three fields are valid, and it carries the values exactly as typed |
| VoterVerification.SpacedNumberMatchesNoUnspacedVoter | frontend/src/app/voter-verification.ts:67-71 | a spaced NI number that the form accepts never matches a voter whose stored number has no whitespace |
| AuthPage.Base32Char | frontend/src/app/auth.ts:134 | the alphabet's characters are A to Z, then 2 to 7 |
| AuthPage.Base32AlphabetChars | frontend/src/app/auth.ts:134 | the alphabet string has 32 characters, in that order |
| AuthPage.Base32CharInjective | frontend/src/app/auth.ts:134 | distinct positions hold distinct characters |
| AuthPage.SecretFromDraws | frontend/src/app/auth.ts:136-138 | one character per draw |
| AuthPage.SecretFromDrawsInjective | frontend/src/app/auth.ts:133-140 | different draws give different secrets |
| AuthPage.AuthCodeValue | frontend/src/app/auth.ts:143 | the code number lies in 100000..999999 |
| AuthPage.CodeLengthAcceptedMeaning | frontend/src/app/auth.ts:63-66 | the guard passes exactly a code of length 6 |
| AuthPage.NonDigitCodePassesGuard | frontend/src/app/auth.ts:166-169 | six non-digit characters pass the length guard |
| AuthPage.AuthComponent.constructor | frontend/src/app/auth.ts:15-28 | the initial field values |
| AuthPage.AuthComponent.SendEmailVerification | frontend/src/app/auth.ts:41-60 | a request is made exactly when the address is non-empty and matches the pattern; then emailSent is set, and nothing else changes |
| AuthPage.AuthComponent.VerifyEmailCode | frontend/src/app/auth.ts:62-78 | a request is made exactly when the code has length 6; success is set only when the backend accepts |
| AuthPage.AuthComponent.ResetEmailSetup | frontend/src/app/auth.ts:85-90 | the four e-mail fields return to their initial values and no other field changes |
| AuthPage.AuthComponent.GenerateSecretKey | frontend/src/app/auth.ts:133-140 | 32 characters, each from the base32 alphabet, determined by the draws |
| AuthPage.AuthComponent.GenerateAuthCode | frontend/src/app/auth.ts:142-144 | six decimal digits |
| AuthPage.AuthComponent.SetupAuthenticatorApp | frontend/src/app/auth.ts:92-121 | a new secret is stored and handed to the backend, and a six-digit code is shown; the e-mail step is untouched |
| AuthPage.AuthComponent.ResetAuthenticatorCard | frontend/src/app/auth.ts:146-154 | the seven authenticator fields return to their initial values and no other field changes |
| AuthPage.AuthComponent.ProceedToVerification | frontend/src/app/auth.ts:156-158 | sets showVerification only |
| AuthPage.AuthComponent.VerifyAuthenticatorCode | frontend/src/app/auth.ts:160-181 | a request is made exactly when the code has length 6; success is set only when the backend accepts |
| AuthPage.AuthComponent.FinishRegistration | frontend/src/app/auth.ts:183-202 | completion is requested exactly when both verifications succeeded, and the page moves on only when it succeeds |

## Left out

- **Cryptography.** AES-256-CBC, SHA-256, the hex rendering of digests and ciphertexts, and speakeasy's HOTP computation are symbolic.
  - Collisions and the cipher's internals are not modelled.
  - Decryption failure stands for the exception Node throws. That is an idealisation: with the right key but a wrong IV, AES-CBC decryption does not throw; it yields the plaintext with a garbled first block. With a wrong key it usually throws on bad padding, but not always. In the routes every stored ciphertext is paired with the IV it was made with, so the idealisation only matters for corrupted records.
- **Strings.**
  - Case mapping covers ASCII letters only, not the full Unicode mapping of `toUpperCase`/`toLowerCase`.
  - String length counts characters, not UTF-16 code units.
- **Infrastructure.** The following are outside the model:
  - e-mail delivery (the Azure client, nodemailer and the HTML bodies) — a delivery outcome is a parameter;
  - the MongoDB driver, connection errors and every catch-all 500 path other than the ones named in the table;
  - the rollback of a half-written completion;
  - `lastUpdated`, `createdAt` and the other timestamps that only record the clock.
- **Concurrency.** Concurrent requests are left out, including the check-then-insert race in completion and two verify-voter calls for one voter. Each method runs atomically.
- **Other routes and pages.** Left out, because they only read, render or fetch:
  - the GET `/users/:userId` projections;
  - the admin login and setup routes;
  - Express wiring;
  - the other front-end pages.
  - Vote casting has no implementation in the source, so it is not modelled.
- **AuthComponent UI.** Left out: the `ngOnInit` redirect, alerts, router navigation, and the QR code image (`generateQRCode` builds an otpauth URL and renders it).
  - `SetupAuthenticatorApp` returns the secret it hands to the backend.
  - Backend outcomes are parameters.
- **Dictionary key order.** A JavaScript object orders integer-like keys before others; the model keeps keys in first-insertion order only.
- Admin.VoterList: models the intended projection (the listed fields, no NI fields). The route as written mixes inclusions and exclusions in one MongoDB projection, which the server rejects, so the request would answer 500.
- Admin.RoundPercent: exact round-half-up, not the double arithmetic of `Math.round((x / d) * 100)`. At a tie the double product can fall just below the half: 23 of 40 gives 57.49999999999999, so JavaScript shows 57 where the model gives 58 (likewise 57 of 200: 28 against 29; 29 of 200: 14 against 15).
- VoterVerification.Submit: assumes a `UserService.verifyVoter` that posts the three values to POST `/verify-voter`. The service imported by the page defines no such method, so the page as shipped fails to compile; run untyped, it throws before any request and leaves `isVerifying` set.
- AuthPage.AuthComponent.FinishRegistration: assumes a `UserService.completeRegistration` that posts to the completion route. The imported service defines no such method, so the page as shipped fails to compile; run untyped, the call throws into the `catch` and the page never moves on.
- Admin.SortByVotes: proves sortedness and permutation, not the stability of `Array.prototype.sort` among parties with equal counts.
- Admin.Stats: the party summaries are stated through counters that agree with the votes, not as the exact dictionaries built by the loop.
