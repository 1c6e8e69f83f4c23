/**
 * The administrator's statistics (POST /stats) and voter list (POST
 * /voters) of backend/routes/admin.js: counting loops over the cast votes
 * and the voters, grouped by party, candidate and constituency, where a
 * constituency is named by the first three characters of a postcode.
 */
module Admin {
  import opened Base
  import opened Dicts
  import opened Records

  const MemberOfParliament := "memberOfParliament"
  const LocalCouncil := "localCouncil"
  const UnknownConstituency := "Unknown"
  const UnknownParty := "Unknown Party"
  const UnknownCandidate := "Unknown Candidate"

  /** A document of the `candidates` collection. */
  datatype Candidate = Candidate(candidateId: string, name: string, party: string)

  /** A value of `candidateMap`. */
  datatype CandidateInfo = CandidateInfo(name: string, party: string)

  /** A document of the cast-votes collection; its optional fields may be missing. */
  datatype CastVote = CastVote(voterId: Option<string>, candidateId: string, constituency: Option<string>,
                               voteType: Option<string>, race: Option<string>)

  // ---------------------------------------------------------------------
  // Round-half-up percentages

  /** `d > 0 ? Math.round((x / d) * 100) : 0`, in integers. */
  function RoundPercent(x: nat, d: nat): (r: nat)
    ensures d == 0 ==> r == 0
    ensures d > 0 ==> 2 * d * r <= 200 * x + d < 2 * d * r + 2 * d
    ensures x <= d ==> r <= 100
  {
    if d == 0 then 0
    else
      RoundPercentBounds(x, d);
      (200 * x + d) / (2 * d)
  }

  lemma RoundPercentBounds(x: nat, d: nat)
    requires d > 0
    ensures var q := (200 * x + d) / (2 * d);
            2 * d * q <= 200 * x + d < 2 * d * q + 2 * d && (x <= d ==> q <= 100)
  {
    var n, m := 200 * x + d, 2 * d;
    var q := n / m;
    DivBounds(n, m);
    if x <= d {
      Distribute(m, 101, q);
      PositiveFactor(m, 101 - q);
    }
  }

  lemma DivBounds(n: nat, m: nat)
    requires m > 0
    ensures m * (n / m) <= n < m * (n / m) + m
  {
  }

  lemma Distribute(m: int, a: int, b: int)
    ensures m * (a - b) == m * a - m * b
  {
  }

  lemma PositiveFactor(m: int, k: int)
    requires m > 0 && m * k > 0
    ensures k > 0
  {
  }

  // ---------------------------------------------------------------------
  // The candidate map

  /** `candidateMap[id]` after the `forEach`: the last candidate document with that id wins. */
  function CandidateLookup(candidates: seq<Candidate>, id: string): (r: Option<CandidateInfo>)
    ensures r.None? ==> forall i :: 0 <= i < |candidates| ==> candidates[i].candidateId != id
    ensures r.Some? ==> exists i :: 0 <= i < |candidates| && candidates[i].candidateId == id
                          && r.value == CandidateInfo(candidates[i].name, candidates[i].party)
                          && forall j :: i < j < |candidates| ==> candidates[j].candidateId != id
  {
    if candidates == [] then None
    else
      var c := candidates[|candidates| - 1];
      if c.candidateId == id then Some(CandidateInfo(c.name, c.party))
      else
        var r := CandidateLookup(candidates[..|candidates| - 1], id);
        assert forall i :: 0 <= i < |candidates| - 1 ==> candidates[..|candidates| - 1][i] == candidates[i];
        r
  }

  method BuildCandidateMap(candidates: seq<Candidate>) returns (candidateMap: Dict<CandidateInfo>)
    ensures Valid(candidateMap)
    ensures forall id :: Lookup(candidateMap, id) == CandidateLookup(candidates, id)
  {
    candidateMap := Empty();
    for i := 0 to |candidates|
      invariant Valid(candidateMap)
      invariant forall id :: Lookup(candidateMap, id) == CandidateLookup(candidates[..i], id)
    {
      var candidate := candidates[i];
      assert candidates[..i + 1][..i] == candidates[..i];
      candidateMap := Put(candidateMap, candidate.candidateId, CandidateInfo(candidate.name, candidate.party));
    }
    assert candidates[..|candidates|] == candidates;
  }

  // ---------------------------------------------------------------------
  // What the vote loop reads off one vote

  /** `allVoters.find(v => v._id.toString() === voterId)` */
  function FindVoter(voters: seq<VoterRecord>, docId: string): (k: Option<nat>)
    ensures k.Some? ==> k.value < |voters| && voters[k.value].docId == docId
                        && forall j :: 0 <= j < k.value ==> voters[j].docId != docId
    ensures k.None? ==> forall j :: 0 <= j < |voters| ==> voters[j].docId != docId
  {
    if voters == [] then None
    else if voters[0].docId == docId then Some(0)
    else match FindVoter(voters[1..], docId)
      case None => None
      case Some(k) => Some(k + 1)
  }

  /** The constituency derived from the vote's voter: the first three characters of a non-empty postcode. */
  function VoterPostcodePrefix(voters: seq<VoterRecord>, vote: CastVote): string {
    if !Present(vote.voterId) then ""
    else match FindVoter(voters, vote.voterId.value)
      case None => ""
      case Some(k) => if voters[k].postcode != "" then Prefix(voters[k].postcode, 3) else ""
  }

  /** The vote's own constituency, else its voter's postcode prefix, else "Unknown". */
  function VoteConstituency(voters: seq<VoterRecord>, vote: CastVote): (c: string)
    ensures c != ""
    ensures Present(vote.constituency) ==> c == vote.constituency.value
    ensures !Present(vote.constituency) && VoterPostcodePrefix(voters, vote) != "" ==> c == VoterPostcodePrefix(voters, vote)
    ensures !Present(vote.constituency) && VoterPostcodePrefix(voters, vote) == "" ==> c == UnknownConstituency
  {
    if Present(vote.constituency) then vote.constituency.value
    else if VoterPostcodePrefix(voters, vote) != "" then VoterPostcodePrefix(voters, vote)
    else UnknownConstituency
  }

  /** `vote.voteType || vote.race` */
  function VoteTypeOf(vote: CastVote): Option<string> {
    if Present(vote.voteType) then vote.voteType else vote.race
  }

  function PartyOf(candidateMap: Dict<CandidateInfo>, candidateId: string): string {
    match Lookup(candidateMap, candidateId)
    case Some(info) => info.party
    case None => UnknownParty
  }

  function CandidateNameOf(candidateMap: Dict<CandidateInfo>, candidateId: string): string {
    match Lookup(candidateMap, candidateId)
    case Some(info) => info.name
    case None => UnknownCandidate
  }

  /** The vote counts in `race` (`voteType === race`). */
  predicate InRace(vote: CastVote, race: string) {
    VoteTypeOf(vote) == Some(race)
  }

  // ---------------------------------------------------------------------
  // Reference counts over the votes (each defined on a prefix, last vote last)

  /** The votes in `race` for candidates of `party`. */
  function RaceVotesFor(candidateMap: Dict<CandidateInfo>, votes: seq<CastVote>, race: string, party: string): nat {
    if votes == [] then 0
    else RaceVotesFor(candidateMap, votes[..|votes| - 1], race, party)
         + (if InRace(votes[|votes| - 1], race) && PartyOf(candidateMap, votes[|votes| - 1].candidateId) == party then 1 else 0)
  }

  /** The votes in `race`. */
  function RaceTotal(votes: seq<CastVote>, race: string): nat {
    if votes == [] then 0 else RaceTotal(votes[..|votes| - 1], race) + (if InRace(votes[|votes| - 1], race) then 1 else 0)
  }

  function CandidateVotes(votes: seq<CastVote>, candidateId: string): nat {
    if votes == [] then 0
    else CandidateVotes(votes[..|votes| - 1], candidateId) + (if votes[|votes| - 1].candidateId == candidateId then 1 else 0)
  }

  function CandidateVotesIn(voters: seq<VoterRecord>, votes: seq<CastVote>, candidateId: string, constituency: string): nat {
    if votes == [] then 0
    else CandidateVotesIn(voters, votes[..|votes| - 1], candidateId, constituency)
         + (if votes[|votes| - 1].candidateId == candidateId
               && VoteConstituency(voters, votes[|votes| - 1]) == constituency then 1 else 0)
  }

  /** The vote type of the candidate's first vote, None when the candidate has no vote. */
  function FirstVoteType(votes: seq<CastVote>, candidateId: string): (r: Option<Option<string>>)
    ensures r.Some? <==> CandidateVotes(votes, candidateId) > 0
  {
    if votes == [] then None
    else match FirstVoteType(votes[..|votes| - 1], candidateId)
      case Some(t) => Some(t)
      case None => if votes[|votes| - 1].candidateId == candidateId then Some(VoteTypeOf(votes[|votes| - 1])) else None
  }

  /** The keys of `votesByConstituency`: each vote's constituency, first appearance first. */
  function ConstituenciesSeen(voters: seq<VoterRecord>, votes: seq<CastVote>): (r: seq<string>)
    ensures forall i, j :: 0 <= i < j < |r| ==> r[i] != r[j]
  {
    if votes == [] then []
    else
      var seen := ConstituenciesSeen(voters, votes[..|votes| - 1]);
      var c := VoteConstituency(voters, votes[|votes| - 1]);
      if c in seen then seen else seen + [c]
  }

  /** No vote is in two races, so the MP and council totals never exceed the votes. */
  lemma {:induction false} RaceTotalsAtMostVotes(votes: seq<CastVote>)
    ensures RaceTotal(votes, MemberOfParliament) + RaceTotal(votes, LocalCouncil) <= |votes|
  {
    if votes != [] {
      RaceTotalsAtMostVotes(votes[..|votes| - 1]);
    }
  }

  /** Every vote's constituency is listed, and only those. */
  lemma {:induction false} ConstituenciesSeenMeaning(voters: seq<VoterRecord>, votes: seq<CastVote>, c: string)
    ensures c in ConstituenciesSeen(voters, votes) <==> exists i :: 0 <= i < |votes| && VoteConstituency(voters, votes[i]) == c
  {
    if votes != [] {
      var init := votes[..|votes| - 1];
      ConstituenciesSeenMeaning(voters, init, c);
      if exists i :: 0 <= i < |init| && VoteConstituency(voters, init[i]) == c {
        var i :| 0 <= i < |init| && VoteConstituency(voters, init[i]) == c;
        assert votes[i] == init[i];
      }
      if exists i :: 0 <= i < |votes| && VoteConstituency(voters, votes[i]) == c {
        var i :| 0 <= i < |votes| && VoteConstituency(voters, votes[i]) == c;
        if i < |init| {
          assert init[i] == votes[i];
        }
      }
    }
  }

  /** A candidate's votes split over the constituencies it was cast in. */
  ghost predicate TallyAgrees(t: CandidateTally, candidateMap: Dict<CandidateInfo>, voters: seq<VoterRecord>,
                              votes: seq<CastVote>, candidateId: string)
  {
    && t.candidateId == candidateId
    && t.candidateName == CandidateNameOf(candidateMap, candidateId)
    && t.party == PartyOf(candidateMap, candidateId)
    && FirstVoteType(votes, candidateId) == Some(t.voteType)
    && t.totalVotes == CandidateVotes(votes, candidateId)
    && Valid(t.constituencies)
    && Total(t.constituencies) == t.totalVotes
    && ConstituencyCountsAgree(t.constituencies, voters, votes, candidateId)
  }

  /** Each constituency counter of a candidate holds its votes there. */
  ghost predicate ConstituencyCountsAgree(d: Dict<nat>, voters: seq<VoterRecord>, votes: seq<CastVote>, candidateId: string) {
    forall c :: Count(d, c) == CandidateVotesIn(voters, votes, candidateId, c)
  }

  lemma ConstituencyCountsStep(d: Dict<nat>, voters: seq<VoterRecord>, done: seq<CastVote>, vote: CastVote, candidateId: string)
    requires ConstituencyCountsAgree(d, voters, done, candidateId)
    ensures vote.candidateId == candidateId ==>
              var c := VoteConstituency(voters, vote);
              ConstituencyCountsAgree(Increment(d, c), voters, done + [vote], candidateId)
    ensures vote.candidateId != candidateId ==> ConstituencyCountsAgree(d, voters, done + [vote], candidateId)
  {
    var all := done + [vote];
    assert all[..|all| - 1] == done;
    var c := VoteConstituency(voters, vote);
    var r := if vote.candidateId == candidateId then Increment(d, c) else d;
    forall c' | true
      ensures Count(r, c') == CandidateVotesIn(voters, all, candidateId, c')
    {
    }
  }

  /** A value of `candidateVotes`. */
  datatype CandidateTally = CandidateTally(candidateId: string, candidateName: string, party: string,
                                           voteType: Option<string>, totalVotes: nat, constituencies: Dict<nat>)

  /** `totalVotes++` and `constituencies[constituency]++` on a candidate's tally. */
  function AddVote(t: CandidateTally, constituency: string): CandidateTally {
    t.(totalVotes := t.totalVotes + 1,
       constituencies := Increment(t.constituencies, constituency))
  }

  /** The accumulators of the vote loop. */
  datatype VoteTally = VoteTally(
    votesByConstituency: seq<string>,
    candidateVotes: Dict<CandidateTally>,
    mpVotesByParty: Dict<nat>,
    councilVotesByParty: Dict<nat>,
    totalMpVotes: nat,
    totalCouncilVotes: nat)

  /** A race's party counters and total after the votes `done`. */
  ghost predicate PartyCountsAgree(d: Dict<nat>, total: nat, candidateMap: Dict<CandidateInfo>, done: seq<CastVote>, race: string) {
    && Valid(d)
    && (forall p :: Count(d, p) == RaceVotesFor(candidateMap, done, race, p))
    && (forall p :: p in d.values ==> d.values[p] > 0)
    && total == RaceTotal(done, race)
    && total == Total(d)
  }

  /** `candidateVotes` after the votes `done`. */
  ghost predicate CandidatesAgree(d: Dict<CandidateTally>, candidateMap: Dict<CandidateInfo>, voters: seq<VoterRecord>,
                                  done: seq<CastVote>) {
    && Valid(d)
    && (forall id :: id in d.values <==> CandidateVotes(done, id) > 0)
    && (forall id :: id in d.values ==> TallyAgrees(d.values[id], candidateMap, voters, done, id))
  }

  /** The loop invariant of the vote loop after the votes `done`. */
  ghost predicate TallyInvariant(t: VoteTally, candidateMap: Dict<CandidateInfo>, voters: seq<VoterRecord>, done: seq<CastVote>) {
    && t.votesByConstituency == ConstituenciesSeen(voters, done)
    && PartyCountsAgree(t.mpVotesByParty, t.totalMpVotes, candidateMap, done, MemberOfParliament)
    && PartyCountsAgree(t.councilVotesByParty, t.totalCouncilVotes, candidateMap, done, LocalCouncil)
    && CandidatesAgree(t.candidateVotes, candidateMap, voters, done)
  }

  /** The party counters of one race after one more vote. */
  lemma PartyStep(d: Dict<nat>, total: nat, candidateMap: Dict<CandidateInfo>, done: seq<CastVote>, vote: CastVote, race: string)
    requires PartyCountsAgree(d, total, candidateMap, done, race)
    ensures var party := PartyOf(candidateMap, vote.candidateId);
            if InRace(vote, race) then PartyCountsAgree(Increment(d, party), total + 1, candidateMap, done + [vote], race)
            else PartyCountsAgree(d, total, candidateMap, done + [vote], race)
  {
    var all := done + [vote];
    var party := PartyOf(candidateMap, vote.candidateId);
    var r := if InRace(vote, race) then Increment(d, party) else d;
    RaceTotalStep(done, vote, race);
    forall p | true
      ensures Count(r, p) == RaceVotesFor(candidateMap, all, race, p)
    {
      RaceStep(candidateMap, done, vote, race, p);
    }
    if InRace(vote, race) {
      IncrementTotal(d, party);
      assert forall p :: p in r.values ==> r.values[p] > 0;
    }
  }

  lemma RaceTotalStep(done: seq<CastVote>, vote: CastVote, race: string)
    ensures RaceTotal(done + [vote], race) == RaceTotal(done, race) + (if InRace(vote, race) then 1 else 0)
  {
    var all := done + [vote];
    assert all[..|all| - 1] == done;
  }

  /** One more vote adds to its race's total and to its party's count there, and to nothing else. */
  lemma RaceStep(candidateMap: Dict<CandidateInfo>, done: seq<CastVote>, vote: CastVote, race: string, p: string)
    ensures RaceVotesFor(candidateMap, done + [vote], race, p) ==
            RaceVotesFor(candidateMap, done, race, p)
            + (if InRace(vote, race) && PartyOf(candidateMap, vote.candidateId) == p then 1 else 0)
  {
    var all := done + [vote];
    assert all[..|all| - 1] == done;
  }

  /** One candidate's tally after one more vote for it. */
  lemma CandidateStep(t: CandidateTally, candidateMap: Dict<CandidateInfo>, voters: seq<VoterRecord>,
                      done: seq<CastVote>, vote: CastVote)
    requires t.candidateId == vote.candidateId
    requires t.candidateName == CandidateNameOf(candidateMap, vote.candidateId)
    requires t.party == PartyOf(candidateMap, vote.candidateId)
    requires FirstVoteType(done + [vote], vote.candidateId) == Some(t.voteType)
    requires t.totalVotes == CandidateVotes(done, vote.candidateId)
    requires Valid(t.constituencies) && Total(t.constituencies) == t.totalVotes
    requires ConstituencyCountsAgree(t.constituencies, voters, done, vote.candidateId)
    ensures TallyAgrees(AddVote(t, VoteConstituency(voters, vote)), candidateMap, voters, done + [vote], vote.candidateId)
  {
    CandidateCountsStep(t, voters, done, vote);
  }

  /** The counters of a candidate's tally after one more vote for it. */
  lemma CandidateCountsStep(t: CandidateTally, voters: seq<VoterRecord>, done: seq<CastVote>, vote: CastVote)
    requires t.totalVotes == CandidateVotes(done, vote.candidateId)
    requires Valid(t.constituencies) && Total(t.constituencies) == t.totalVotes
    requires ConstituencyCountsAgree(t.constituencies, voters, done, vote.candidateId)
    ensures var r := AddVote(t, VoteConstituency(voters, vote));
            && r.totalVotes == CandidateVotes(done + [vote], vote.candidateId)
            && Valid(r.constituencies) && Total(r.constituencies) == r.totalVotes
            && ConstituencyCountsAgree(r.constituencies, voters, done + [vote], vote.candidateId)
  {
    IncrementTotal(t.constituencies, VoteConstituency(voters, vote));
    ConstituencyCountsStep(t.constituencies, voters, done, vote, vote.candidateId);
    CandidateVotesStep(done, vote, vote.candidateId);
  }

  /** Another candidate's tally is unaffected by a vote that is not for it. */
  lemma OtherCandidateStep(t: CandidateTally, candidateMap: Dict<CandidateInfo>, voters: seq<VoterRecord>,
                           done: seq<CastVote>, vote: CastVote, id: string)
    requires id != vote.candidateId
    requires TallyAgrees(t, candidateMap, voters, done, id)
    ensures TallyAgrees(t, candidateMap, voters, done + [vote], id)
  {
    var all := done + [vote];
    assert all[..|all| - 1] == done;
    ConstituencyCountsStep(t.constituencies, voters, done, vote, id);
  }

  /** The tally a vote is added to: the candidate's existing one, or a fresh one labelled from the candidate map. */
  function TallyBefore(d: Dict<CandidateTally>, candidateMap: Dict<CandidateInfo>, vote: CastVote): CandidateTally {
    var id := vote.candidateId;
    if id in d.values then d.values[id]
    else CandidateTally(id, CandidateNameOf(candidateMap, id), PartyOf(candidateMap, id), VoteTypeOf(vote), 0, Empty())
  }

  /** The tally a vote is added to meets what CandidateStep needs. */
  lemma TallyBeforeAgrees(d: Dict<CandidateTally>, candidateMap: Dict<CandidateInfo>, voters: seq<VoterRecord>,
                          done: seq<CastVote>, vote: CastVote)
    requires CandidatesAgree(d, candidateMap, voters, done)
    ensures var t := TallyBefore(d, candidateMap, vote);
            && t.candidateId == vote.candidateId
            && t.candidateName == CandidateNameOf(candidateMap, vote.candidateId)
            && t.party == PartyOf(candidateMap, vote.candidateId)
            && FirstVoteType(done + [vote], vote.candidateId) == Some(t.voteType)
            && t.totalVotes == CandidateVotes(done, vote.candidateId)
            && Valid(t.constituencies) && Total(t.constituencies) == t.totalVotes
            && ConstituencyCountsAgree(t.constituencies, voters, done, vote.candidateId)
  {
    var all := done + [vote];
    assert all[..|all| - 1] == done;
    var id := vote.candidateId;
    if id !in d.values {
      var t := TallyBefore(d, candidateMap, vote);
      forall c | true
        ensures Count(t.constituencies, c) == CandidateVotesIn(voters, done, id, c)
      {
        CandidateVotesInAtMost(voters, done, id, c);
      }
    }
  }

  /** A vote changes only its own candidate's count. */
  lemma CandidateVotesStep(done: seq<CastVote>, vote: CastVote, id: string)
    ensures CandidateVotes(done + [vote], id) == CandidateVotes(done, id) + (if vote.candidateId == id then 1 else 0)
  {
    var all := done + [vote];
    assert all[..|all| - 1] == done;
  }

  /** `candidateVotes` after one more vote. */
  lemma CandidatesStep(d: Dict<CandidateTally>, candidateMap: Dict<CandidateInfo>, voters: seq<VoterRecord>,
                       done: seq<CastVote>, vote: CastVote)
    requires CandidatesAgree(d, candidateMap, voters, done)
    ensures var tally := TallyBefore(d, candidateMap, vote);
            CandidatesAgree(Put(d, vote.candidateId, AddVote(tally, VoteConstituency(voters, vote))),
                            candidateMap, voters, done + [vote])
  {
    var all := done + [vote];
    var id := vote.candidateId;
    var tally := TallyBefore(d, candidateMap, vote);
    TallyBeforeAgrees(d, candidateMap, voters, done, vote);
    CandidateStep(tally, candidateMap, voters, done, vote);
    var r := Put(d, id, AddVote(tally, VoteConstituency(voters, vote)));
    forall other
      ensures other in r.values <==> CandidateVotes(all, other) > 0
    {
      CandidateVotesStep(done, vote, other);
    }
    forall other | other in r.values && other != id
      ensures TallyAgrees(r.values[other], candidateMap, voters, all, other)
    {
      OtherCandidateStep(d.values[other], candidateMap, voters, done, vote, other);
    }
  }

  /** A candidate's votes in one constituency are among its votes. */
  lemma {:induction false} CandidateVotesInAtMost(voters: seq<VoterRecord>, votes: seq<CastVote>, id: string, c: string)
    ensures CandidateVotesIn(voters, votes, id, c) <= CandidateVotes(votes, id)
  {
    if votes != [] {
      CandidateVotesInAtMost(voters, votes[..|votes| - 1], id, c);
    }
  }

  /** One pass of the vote loop's body, as a function of the accumulators. */
  function NextTally(t: VoteTally, candidateMap: Dict<CandidateInfo>, voters: seq<VoterRecord>, vote: CastVote): VoteTally {
    var constituency := VoteConstituency(voters, vote);
    var party := PartyOf(candidateMap, vote.candidateId);
    VoteTally(
      if constituency in t.votesByConstituency then t.votesByConstituency else t.votesByConstituency + [constituency],
      Put(t.candidateVotes, vote.candidateId, AddVote(TallyBefore(t.candidateVotes, candidateMap, vote), constituency)),
      if InRace(vote, MemberOfParliament) then Increment(t.mpVotesByParty, party) else t.mpVotesByParty,
      if InRace(vote, LocalCouncil) then Increment(t.councilVotesByParty, party) else t.councilVotesByParty,
      if InRace(vote, MemberOfParliament) then t.totalMpVotes + 1 else t.totalMpVotes,
      if InRace(vote, LocalCouncil) then t.totalCouncilVotes + 1 else t.totalCouncilVotes)
  }

  /** The vote loop's body keeps its invariant. */
  lemma TallyStep(t: VoteTally, candidateMap: Dict<CandidateInfo>, voters: seq<VoterRecord>, done: seq<CastVote>, vote: CastVote)
    requires TallyInvariant(t, candidateMap, voters, done)
    ensures TallyInvariant(NextTally(t, candidateMap, voters, vote), candidateMap, voters, done + [vote])
  {
    SeenStep(t, candidateMap, voters, done, vote);
    MpStep(t, candidateMap, voters, done, vote);
    CouncilStep(t, candidateMap, voters, done, vote);
    CandidateVotesStepOf(t, candidateMap, voters, done, vote);
  }

  lemma SeenStep(t: VoteTally, candidateMap: Dict<CandidateInfo>, voters: seq<VoterRecord>, done: seq<CastVote>, vote: CastVote)
    requires t.votesByConstituency == ConstituenciesSeen(voters, done)
    ensures NextTally(t, candidateMap, voters, vote).votesByConstituency == ConstituenciesSeen(voters, done + [vote])
  {
    var all := done + [vote];
    assert all[..|all| - 1] == done;
  }

  lemma MpStep(t: VoteTally, candidateMap: Dict<CandidateInfo>, voters: seq<VoterRecord>, done: seq<CastVote>, vote: CastVote)
    requires PartyCountsAgree(t.mpVotesByParty, t.totalMpVotes, candidateMap, done, MemberOfParliament)
    ensures var n := NextTally(t, candidateMap, voters, vote);
            PartyCountsAgree(n.mpVotesByParty, n.totalMpVotes, candidateMap, done + [vote], MemberOfParliament)
  {
    var n := NextTally(t, candidateMap, voters, vote);
    PartyStep(t.mpVotesByParty, t.totalMpVotes, candidateMap, done, vote, MemberOfParliament);
    if InRace(vote, MemberOfParliament) {
      assert n.mpVotesByParty == Increment(t.mpVotesByParty, PartyOf(candidateMap, vote.candidateId)) && n.totalMpVotes == t.totalMpVotes + 1;
    } else {
      assert n.mpVotesByParty == t.mpVotesByParty && n.totalMpVotes == t.totalMpVotes;
    }
  }

  lemma CouncilStep(t: VoteTally, candidateMap: Dict<CandidateInfo>, voters: seq<VoterRecord>, done: seq<CastVote>, vote: CastVote)
    requires PartyCountsAgree(t.councilVotesByParty, t.totalCouncilVotes, candidateMap, done, LocalCouncil)
    ensures var n := NextTally(t, candidateMap, voters, vote);
            PartyCountsAgree(n.councilVotesByParty, n.totalCouncilVotes, candidateMap, done + [vote], LocalCouncil)
  {
    var n := NextTally(t, candidateMap, voters, vote);
    PartyStep(t.councilVotesByParty, t.totalCouncilVotes, candidateMap, done, vote, LocalCouncil);
    if InRace(vote, LocalCouncil) {
      assert n.councilVotesByParty == Increment(t.councilVotesByParty, PartyOf(candidateMap, vote.candidateId)) && n.totalCouncilVotes == t.totalCouncilVotes + 1;
    } else {
      assert n.councilVotesByParty == t.councilVotesByParty && n.totalCouncilVotes == t.totalCouncilVotes;
    }
  }

  lemma CandidateVotesStepOf(t: VoteTally, candidateMap: Dict<CandidateInfo>, voters: seq<VoterRecord>, done: seq<CastVote>, vote: CastVote)
    requires CandidatesAgree(t.candidateVotes, candidateMap, voters, done)
    ensures CandidatesAgree(NextTally(t, candidateMap, voters, vote).candidateVotes, candidateMap, voters, done + [vote])
  {
    CandidatesStep(t.candidateVotes, candidateMap, voters, done, vote);
  }

  /** The body of the vote loop's callback: one vote added to every accumulator. */
  method CountVote(t: VoteTally, candidateMap: Dict<CandidateInfo>, voters: seq<VoterRecord>, vote: CastVote)
    returns (t': VoteTally)
    ensures t' == NextTally(t, candidateMap, voters, vote)
  {
    var constituency := VoteConstituency(voters, vote);
    var candidateId := vote.candidateId;
    var voteType := VoteTypeOf(vote);
    var party := PartyOf(candidateMap, candidateId);

    var byConstituency := t.votesByConstituency;
    if constituency !in byConstituency {
      byConstituency := byConstituency + [constituency];
    }

    var mp, council := t.mpVotesByParty, t.councilVotesByParty;
    var totalMp, totalCouncil := t.totalMpVotes, t.totalCouncilVotes;
    if voteType == Some(MemberOfParliament) {
      mp := Increment(mp, party);
      totalMp := totalMp + 1;
    } else if voteType == Some(LocalCouncil) {
      council := Increment(council, party);
      totalCouncil := totalCouncil + 1;
    }

    var candidates := t.candidateVotes;
    var tally;
    if candidateId !in candidates.values {
      tally := CandidateTally(candidateId, CandidateNameOf(candidateMap, candidateId), party, voteType, 0, Empty());
    } else {
      tally := candidates.values[candidateId];
    }
    tally := AddVote(tally, constituency);
    candidates := Put(candidates, candidateId, tally);

    t' := VoteTally(byConstituency, candidates, mp, council, totalMp, totalCouncil);
  }

  /** The vote loop (`allCastVotes.forEach`). */
  method TallyVotes(candidateMap: Dict<CandidateInfo>, voters: seq<VoterRecord>, votes: seq<CastVote>)
    returns (t: VoteTally)
    ensures TallyInvariant(t, candidateMap, voters, votes)
  {
    t := VoteTally([], Empty(), Empty(), Empty(), 0, 0);
    for i := 0 to |votes|
      invariant TallyInvariant(t, candidateMap, voters, votes[..i])
    {
      var vote := votes[i];
      assert votes[..i + 1] == votes[..i] + [vote];
      TallyStep(t, candidateMap, voters, votes[..i], vote);
      t := CountVote(t, candidateMap, voters, vote);
    }
    assert votes[..|votes|] == votes;
  }

  // ---------------------------------------------------------------------
  // Registration and turnout by constituency

  /** `postcode.length >= 3 ? postcode.substring(0, 3) : 'Unknown'` */
  function VoterConstituency(voter: VoterRecord): string {
    if |voter.postcode| >= 3 then voter.postcode[..3] else UnknownConstituency
  }

  function RegisteredIn(voters: seq<VoterRecord>, c: string): nat {
    if voters == [] then 0
    else RegisteredIn(voters[..|voters| - 1], c) + (if VoterConstituency(voters[|voters| - 1]) == c then 1 else 0)
  }

  function VotedIn(voters: seq<VoterRecord>, c: string): nat {
    if voters == [] then 0
    else VotedIn(voters[..|voters| - 1], c)
         + (if VoterConstituency(voters[|voters| - 1]) == c && voters[|voters| - 1].voteCast then 1 else 0)
  }

  /** `votersCollection.find({ voteCast: true }).length` */
  function CountVoted(voters: seq<VoterRecord>): nat {
    if voters == [] then 0 else CountVoted(voters[..|voters| - 1]) + (if voters[|voters| - 1].voteCast then 1 else 0)
  }

  lemma {:induction false} CountVotedAtMostVoters(voters: seq<VoterRecord>)
    ensures CountVoted(voters) <= |voters|
  {
    if voters != [] {
      CountVotedAtMostVoters(voters[..|voters| - 1]);
    }
  }

  /** In every constituency, those who voted are among those registered. */
  lemma {:induction false} VotedAtMostRegistered(voters: seq<VoterRecord>, c: string)
    ensures VotedIn(voters, c) <= RegisteredIn(voters, c)
  {
    if voters != [] {
      VotedAtMostRegistered(voters[..|voters| - 1], c);
    }
  }

  /** A value of `votersByConstituency`. */
  datatype Turnout = Turnout(constituency: string, totalRegistered: nat, totalVoted: nat, turnoutPercentage: nat)

  function Registered(t: Turnout): nat {
    t.totalRegistered
  }

  function Voted(t: Turnout): nat {
    t.totalVoted
  }

  /** `votersByConstituency` after the voters `done`, before the percentages are set. */
  ghost predicate TurnoutAgrees(d: Dict<Turnout>, done: seq<VoterRecord>) {
    && Valid(d)
    && (forall c :: EntryAgrees(d, done, c))
    && SumBy(d.keys, d.values, Registered) == |done|
    && SumBy(d.keys, d.values, Voted) == CountVoted(done)
  }

  /** `totalRegistered++`, and `totalVoted++` for a voter who has voted. */
  function CountVoter(entry: Turnout, voteCast: bool): Turnout {
    entry.(totalRegistered := entry.totalRegistered + 1,
           totalVoted := entry.totalVoted + (if voteCast then 1 else 0))
  }

  lemma CountVoterOf(t: Turnout, c: string, registered: nat, voted: nat, voteCast: bool)
    requires t == Turnout(c, registered, voted, 0)
    ensures CountVoter(t, voteCast) == Turnout(c, registered + 1, voted + (if voteCast then 1 else 0), 0)
  {
  }

  /** The entry of a constituency, a fresh one when it has none yet. */
  function EntryFor(d: Dict<Turnout>, c: string): Turnout {
    if c in d.values then d.values[c] else Turnout(c, 0, 0, 0)
  }

  /** A constituency has an entry exactly when a voter is registered there, and the entry holds its counts. */
  ghost predicate EntryAgrees(d: Dict<Turnout>, done: seq<VoterRecord>, c: string) {
    && (c in d.values <==> RegisteredIn(done, c) > 0)
    && (c in d.values ==> d.values[c] == Turnout(c, RegisteredIn(done, c), VotedIn(done, c), 0))
  }

  lemma EntryStep(d: Dict<Turnout>, done: seq<VoterRecord>, voter: VoterRecord, c': string)
    requires EntryAgrees(d, done, VoterConstituency(voter)) && EntryAgrees(d, done, c')
    ensures var c := VoterConstituency(voter);
            EntryAgrees(Put(d, c, CountVoter(EntryFor(d, c), voter.voteCast)), done + [voter], c')
  {
    var all := done + [voter];
    assert all[..|all| - 1] == done;
    var c := VoterConstituency(voter);
    var e := CountVoter(EntryFor(d, c), voter.voteCast);
    var r := Put(d, c, e);
    assert RegisteredIn(all, c') == RegisteredIn(done, c') + (if c' == c then 1 else 0);
    assert VotedIn(all, c') == VotedIn(done, c') + (if c' == c && voter.voteCast then 1 else 0);
    if c' == c {
      if c !in d.values {
        VotedAtMostRegistered(done, c);
      }
      CountVoterOf(EntryFor(d, c), c, RegisteredIn(done, c), VotedIn(done, c), voter.voteCast);
    }
  }

  /** One more voter counted in its constituency. */
  lemma TurnoutStep(d: Dict<Turnout>, done: seq<VoterRecord>, voter: VoterRecord)
    requires TurnoutAgrees(d, done)
    ensures var c := VoterConstituency(voter);
            TurnoutAgrees(Put(d, c, CountVoter(EntryFor(d, c), voter.voteCast)), done + [voter])
  {
    var all := done + [voter];
    var c := VoterConstituency(voter);
    var r := Put(d, c, CountVoter(EntryFor(d, c), voter.voteCast));
    forall c' | true
      ensures EntryAgrees(r, all, c')
    {
      EntryStep(d, done, voter, c');
    }
    TurnoutSumsStep(d, done, voter);
  }

  /** Counting a voter adds one to the sum of the registered counts. */
  lemma RegisteredSumStep(d: Dict<Turnout>, c: string, voteCast: bool)
    requires Valid(d)
    ensures var r := Put(d, c, CountVoter(EntryFor(d, c), voteCast));
            SumBy(r.keys, r.values, Registered) == SumBy(d.keys, d.values, Registered) + 1
  {
    var e := CountVoter(EntryFor(d, c), voteCast);
    PutSumBy(d, c, e, Registered);
    assert Registered(e) == Registered(EntryFor(d, c)) + 1;
  }

  /** Counting a voter adds one to the sum of the voted counts exactly when the voter has voted. */
  lemma VotedSumStep(d: Dict<Turnout>, c: string, voteCast: bool)
    requires Valid(d)
    ensures var r := Put(d, c, CountVoter(EntryFor(d, c), voteCast));
            SumBy(r.keys, r.values, Voted) == SumBy(d.keys, d.values, Voted) + (if voteCast then 1 else 0)
  {
    var e := CountVoter(EntryFor(d, c), voteCast);
    PutSumBy(d, c, e, Voted);
    assert Voted(e) == Voted(EntryFor(d, c)) + (if voteCast then 1 else 0);
  }

  /** The registered and voted sums grow by the voter. */
  lemma TurnoutSumsStep(d: Dict<Turnout>, done: seq<VoterRecord>, voter: VoterRecord)
    requires Valid(d)
    requires SumBy(d.keys, d.values, Registered) == |done|
    requires SumBy(d.keys, d.values, Voted) == CountVoted(done)
    ensures var c := VoterConstituency(voter);
            var r := Put(d, c, CountVoter(EntryFor(d, c), voter.voteCast));
            && SumBy(r.keys, r.values, Registered) == |done| + 1
            && SumBy(r.keys, r.values, Voted) == CountVoted(done + [voter])
  {
    var all := done + [voter];
    assert all[..|all| - 1] == done;
    RegisteredSumStep(d, VoterConstituency(voter), voter.voteCast);
    VotedSumStep(d, VoterConstituency(voter), voter.voteCast);
  }

  /** The voter loop (`allVoters.forEach`). */
  method CountVotersByConstituency(voters: seq<VoterRecord>) returns (votersByConstituency: Dict<Turnout>)
    ensures TurnoutAgrees(votersByConstituency, voters)
  {
    votersByConstituency := Empty();
    for i := 0 to |voters|
      invariant TurnoutAgrees(votersByConstituency, voters[..i])
    {
      var voter := voters[i];
      assert voters[..i + 1] == voters[..i] + [voter];
      TurnoutStep(votersByConstituency, voters[..i], voter);
      var constituency := VoterConstituency(voter);
      var stats := EntryFor(votersByConstituency, constituency);
      stats := CountVoter(stats, voter.voteCast);
      votersByConstituency := Put(votersByConstituency, constituency, stats);
    }
    assert voters[..|voters|] == voters;
  }

  function WithTurnout(t: Turnout): Turnout {
    t.(turnoutPercentage := RoundPercent(t.totalVoted, t.totalRegistered))
  }

  /** The percentage loop (`Object.keys(votersByConstituency).forEach`). */
  method SetTurnoutPercentages(d: Dict<Turnout>) returns (r: Dict<Turnout>)
    requires Valid(d)
    ensures Valid(r) && r.keys == d.keys
    ensures forall c :: c in r.values <==> c in d.values
    ensures forall c :: c in d.values ==> r.values[c] == WithTurnout(d.values[c])
  {
    r := d;
    for i := 0 to |d.keys|
      invariant Valid(r) && r.keys == d.keys
      invariant forall c :: c in r.values <==> c in d.values
      invariant forall j :: 0 <= j < i ==> r.values[d.keys[j]] == WithTurnout(d.values[d.keys[j]])
      invariant forall j :: i <= j < |d.keys| ==> r.values[d.keys[j]] == d.values[d.keys[j]]
    {
      var constituency := d.keys[i];
      var stats := r.values[constituency];
      ghost var before := r;
      r := Put(r, constituency, WithTurnout(stats));
      assert r.values == before.values[constituency := WithTurnout(stats)];
      forall j | 0 <= j < |d.keys| && j != i
        ensures r.values[d.keys[j]] == before.values[d.keys[j]]
      {
        assert d.keys[j] != constituency;
      }
    }
    forall c | c in d.values
      ensures r.values[c] == WithTurnout(d.values[c])
    {
      var j :| 0 <= j < |d.keys| && d.keys[j] == c;
    }
  }

  // ---------------------------------------------------------------------
  // Party summaries

  /** An element of `mpPartyVotes` or `councilPartyVotes`. */
  datatype PartySummary = PartySummary(party: string, totalVotes: nat, percentage: nat)

  /** `Object.keys(byParty).map(...)`, before sorting. */
  function Summaries(d: Dict<nat>, total: nat): (r: seq<PartySummary>)
    ensures |r| == |d.keys|
    ensures forall i :: 0 <= i < |r| ==>
              r[i] == PartySummary(d.keys[i], Count(d, d.keys[i]), RoundPercent(Count(d, d.keys[i]), total))
  {
    seq(|d.keys|, i requires 0 <= i < |d.keys| => PartySummary(d.keys[i], Count(d, d.keys[i]), RoundPercent(Count(d, d.keys[i]), total)))
  }

  ghost predicate SortedByVotes(s: seq<PartySummary>) {
    forall i, j :: 0 <= i < j < |s| ==> s[i].totalVotes >= s[j].totalVotes
  }

  /** Place `x` after every element with at least as many votes. */
  function InsertByVotes(x: PartySummary, s: seq<PartySummary>): (r: seq<PartySummary>)
    ensures multiset(r) == multiset(s) + multiset{x}
  {
    if s == [] then [x]
    else if s[0].totalVotes >= x.totalVotes then
      assert s == [s[0]] + s[1..];
      [s[0]] + InsertByVotes(x, s[1..])
    else [x] + s
  }

  /** Every element of the insertion is an element of `s` or `x` itself. */
  lemma InsertByVotesElements(x: PartySummary, s: seq<PartySummary>, y: PartySummary)
    requires y in InsertByVotes(x, s)
    ensures y == x || y in s
  {
    assert y in multiset(InsertByVotes(x, s));
  }

  /** A summary that beats every element of a sorted list can go in front of it. */
  lemma SortedCons(h: PartySummary, rest: seq<PartySummary>)
    requires SortedByVotes(rest)
    requires forall y :: y in rest ==> h.totalVotes >= y.totalVotes
    ensures SortedByVotes([h] + rest)
  {
    var r := [h] + rest;
    forall i, j | 0 <= i < j < |r|
      ensures r[i].totalVotes >= r[j].totalVotes
    {
      assert r[j] == rest[j - 1];
      if i > 0 {
        assert r[i] == rest[i - 1];
      }
    }
  }

  lemma {:induction false} InsertByVotesSorted(x: PartySummary, s: seq<PartySummary>)
    requires SortedByVotes(s)
    ensures SortedByVotes(InsertByVotes(x, s))
  {
    if s == [] {
    } else if s[0].totalVotes >= x.totalVotes {
      var tail := s[1..];
      assert SortedByVotes(tail) by {
        forall i, j | 0 <= i < j < |tail| ensures tail[i].totalVotes >= tail[j].totalVotes {
          assert tail[i] == s[i + 1] && tail[j] == s[j + 1];
        }
      }
      InsertByVotesSorted(x, tail);
      var rest := InsertByVotes(x, tail);
      forall y | y in rest
        ensures s[0].totalVotes >= y.totalVotes
      {
        InsertByVotesElements(x, tail, y);
        if y != x {
          var j :| 0 <= j < |tail| && tail[j] == y;
          assert s[j + 1] == y;
        }
      }
      SortedCons(s[0], rest);
    } else {
      forall y | y in s
        ensures x.totalVotes >= y.totalVotes
      {
        var j :| 0 <= j < |s| && s[j] == y;
        assert s[0].totalVotes >= s[j].totalVotes || j == 0;
      }
      SortedCons(x, s);
    }
  }

  /** `.sort((a, b) => b.totalVotes - a.totalVotes)`: a stable sort, most votes first. */
  function SortByVotes(s: seq<PartySummary>): (r: seq<PartySummary>)
    ensures multiset(r) == multiset(s)
    ensures SortedByVotes(r)
  {
    if s == [] then []
    else
      assert s == s[..|s| - 1] + [s[|s| - 1]];
      InsertByVotesSorted(s[|s| - 1], SortByVotes(s[..|s| - 1]));
      InsertByVotes(s[|s| - 1], SortByVotes(s[..|s| - 1]))
  }

  /** The party summaries of one race. */
  function PartyVotes(d: Dict<nat>, total: nat): seq<PartySummary> {
    SortByVotes(Summaries(d, total))
  }

  /**
   * Each party appears once with its count, the summaries are ordered by
   * votes, and, since the counters sum to the race total, every percentage
   * lies in 0..100.
   */
  lemma PartyVotesMeaning(d: Dict<nat>, total: nat)
    requires Valid(d) && total == Total(d)
    ensures var r := PartyVotes(d, total);
            && |r| == |d.keys|
            && multiset(r) == multiset(Summaries(d, total))
            && SortedByVotes(r)
            && (forall s :: s in r ==>
                  (s.party in d.values && s.totalVotes == Count(d, s.party)
                   && s.percentage == RoundPercent(s.totalVotes, total) && s.percentage <= 100))
  {
    var u := Summaries(d, total);
    var r := PartyVotes(d, total);
    assert |multiset(r)| == |multiset(u)|;
    forall s | s in r
      ensures s.party in d.values && s.totalVotes == Count(d, s.party)
      ensures s.percentage == RoundPercent(s.totalVotes, total) && s.percentage <= 100
    {
      assert s in multiset(u);
      var i :| 0 <= i < |u| && u[i] == s;
      CountAtMostTotal(d, s.party);
    }
  }

  // ---------------------------------------------------------------------
  // The whole report

  datatype OverallStats = OverallStats(totalRegisteredVoters: nat, totalVotesCast: nat, totalVotersTurnout: nat,
                                       overallTurnoutPercentage: nat, totalConstituencies: nat)

  /**
   * The reply of POST /stats. The dictionaries are answered as
   * `Object.values`, their values in key order.
   */
  datatype StatsReport = StatsReport(
    overallStats: OverallStats,
    votesByConstituency: seq<string>,
    votersByConstituency: Dict<Turnout>,
    candidateVotes: Dict<CandidateTally>,
    mpPartyVotes: seq<PartySummary>,
    councilPartyVotes: seq<PartySummary>)

  /** POST /stats over the three collections. */
  method Stats(candidates: seq<Candidate>, voters: seq<VoterRecord>, votes: seq<CastVote>)
    returns (r: StatsReport, ghost candidateMap: Dict<CandidateInfo>)
    ensures forall id :: Lookup(candidateMap, id) == CandidateLookup(candidates, id)
    ensures r.overallStats.totalRegisteredVoters == |voters|
    ensures r.overallStats.totalVotesCast == |votes|
    ensures r.overallStats.totalVotersTurnout == CountVoted(voters) <= |voters|
    ensures r.overallStats.overallTurnoutPercentage == RoundPercent(CountVoted(voters), |voters|) <= 100
    ensures r.overallStats.totalConstituencies == |r.votersByConstituency.keys|
    ensures r.votesByConstituency == ConstituenciesSeen(voters, votes)
    ensures Valid(r.votersByConstituency)
    ensures forall c :: c in r.votersByConstituency.values <==> RegisteredIn(voters, c) > 0
    ensures forall c :: c in r.votersByConstituency.values ==>
              var t := r.votersByConstituency.values[c];
              && t.constituency == c && t.totalRegistered == RegisteredIn(voters, c) && t.totalVoted == VotedIn(voters, c)
              && t.totalVoted <= t.totalRegistered
              && t.turnoutPercentage == RoundPercent(t.totalVoted, t.totalRegistered) <= 100
    ensures SumBy(r.votersByConstituency.keys, r.votersByConstituency.values, Registered) == |voters|
    ensures SumBy(r.votersByConstituency.keys, r.votersByConstituency.values, Voted) == CountVoted(voters)
    ensures CandidatesAgree(r.candidateVotes, candidateMap, voters, votes)
    ensures exists mp: Dict<nat>, council: Dict<nat> ::
              && PartyCountsAgree(mp, RaceTotal(votes, MemberOfParliament), candidateMap, votes, MemberOfParliament)
              && PartyCountsAgree(council, RaceTotal(votes, LocalCouncil), candidateMap, votes, LocalCouncil)
              && r.mpPartyVotes == PartyVotes(mp, RaceTotal(votes, MemberOfParliament))
              && r.councilPartyVotes == PartyVotes(council, RaceTotal(votes, LocalCouncil))
    ensures RaceTotal(votes, MemberOfParliament) + RaceTotal(votes, LocalCouncil) <= |votes|
  {
    var map_ := BuildCandidateMap(candidates);
    candidateMap := map_;
    var tally := TallyVotes(map_, voters, votes);
    var mpPartyVotes := PartyVotes(tally.mpVotesByParty, tally.totalMpVotes);
    var councilPartyVotes := PartyVotes(tally.councilVotesByParty, tally.totalCouncilVotes);
    var counted := CountVotersByConstituency(voters);
    var votersByConstituency := SetTurnoutPercentages(counted);
    SumByAgree(counted.keys, counted.values, votersByConstituency.values, Registered);
    SumByAgree(counted.keys, counted.values, votersByConstituency.values, Voted);
    forall c | true
      ensures c in votersByConstituency.values <==> RegisteredIn(voters, c) > 0
      ensures c in votersByConstituency.values ==>
                votersByConstituency.values[c] == WithTurnout(Turnout(c, RegisteredIn(voters, c), VotedIn(voters, c), 0))
      ensures VotedIn(voters, c) <= RegisteredIn(voters, c)
    {
      assert EntryAgrees(counted, voters, c);
      VotedAtMostRegistered(voters, c);
    }
    CountVotedAtMostVoters(voters);
    RaceTotalsAtMostVotes(votes);
    var totalRegistered := |voters|;
    var totalVotersTurnout := CountVoted(voters);
    var overall := OverallStats(totalRegistered, |votes|, totalVotersTurnout,
                                RoundPercent(totalVotersTurnout, totalRegistered), |votersByConstituency.keys|);
    r := StatsReport(overall, tally.votesByConstituency, votersByConstituency, tally.candidateVotes,
                     mpPartyVotes, councilPartyVotes);
  }

  // ---------------------------------------------------------------------
  // The voter list

  /** A voter as POST /voters lists it: no National Insurance fields, plus a constituency and a display name. */
  datatype VoterListEntry = VoterListEntry(docId: string, voterId: string, firstName: string, lastName: string,
                                           postcode: string, voteCast: bool, registrationDate: nat,
                                           voteTimestamp: Option<nat>, constituency: string, name: string)

  /** `voter.postcode ? voter.postcode.substring(0, 3) : 'Unknown'` */
  function ListingConstituency(postcode: string): string {
    if postcode != "" then Prefix(postcode, 3) else UnknownConstituency
  }

  /** POST /voters: every voter, in collection order, with its total count. */
  function VoterList(voters: seq<VoterRecord>): (r: (seq<VoterListEntry>, nat))
    ensures |r.0| == |voters| && r.1 == |voters|
    ensures forall i :: 0 <= i < |voters| ==>
              && r.0[i].voterId == voters[i].voterId && r.0[i].docId == voters[i].docId
              && r.0[i].postcode == voters[i].postcode && r.0[i].voteCast == voters[i].voteCast
              && r.0[i].name == voters[i].firstName + " " + voters[i].lastName
              && r.0[i].constituency == ListingConstituency(voters[i].postcode)
  {
    (seq(|voters|, i requires 0 <= i < |voters| =>
       var v := voters[i];
       VoterListEntry(v.docId, v.voterId, v.firstName, v.lastName, v.postcode, v.voteCast, v.registrationDate,
                      v.voteTimestamp, ListingConstituency(v.postcode), v.firstName + " " + v.lastName)),
     |voters|)
  }

  /**
   * The list and the statistics name a voter's constituency alike except
   * for a postcode of one or two characters, which the list shows as is and
   * the statistics count under "Unknown".
   */
  lemma ListingConstituencyAgreesWithStats(voter: VoterRecord)
    ensures |voter.postcode| >= 3 || voter.postcode == "" ==>
              ListingConstituency(voter.postcode) == VoterConstituency(voter)
    ensures 0 < |voter.postcode| < 3 ==>
              ListingConstituency(voter.postcode) == voter.postcode
              && VoterConstituency(voter) == UnknownConstituency
              && ListingConstituency(voter.postcode) != VoterConstituency(voter)
  {
  }
}
