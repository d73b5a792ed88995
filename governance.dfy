/** The governance tally: proposals and stake-weighted votes. */
module Governance {
  import opened Common

  /** A proposal is stored at `[b"proposal", proposer, title]`. */
  datatype ProposalKey = ProposalKey(proposer: Pubkey, title: string)

  /** The `Proposal` record (its `bump` is not modelled). */
  datatype Proposal = Proposal(
    proposer: Pubkey,
    title: string,
    description: string,
    startTime: int,
    endTime: int,
    yesVotes: U64,
    noVotes: U64,
    executed: bool)

  /** The `VoteRecord` at `[b"vote_record", proposal, voter]`. */
  datatype VoteRecord = VoteRecord(voter: Pubkey, proposal: ProposalKey, voteYes: bool, votingPower: U64)

  /** The proposal `create_proposal` stores: open from `now` for
      `votingPeriod` seconds, with empty totals and not executed. */
  function NewProposal(proposer: Pubkey, title: string, description: string, now: int, votingPeriod: int): (p: Proposal)
    ensures p.yesVotes == 0 && p.noVotes == 0 && !p.executed
    ensures p.startTime == now && p.endTime == now + votingPeriod
    ensures p.proposer == proposer && p.title == title && p.description == description
  {
    Proposal(proposer, title, description, now, now + votingPeriod, 0, 0, false)
  }

  /** `vote`'s update of the proposal: the voting power is added, with a
      checked addition, to the chosen total. */
  function Tallied(p: Proposal, voteYes: bool, power: U64): (r: Result<Proposal>)
    ensures r.Err? <==> (if voteYes then p.yesVotes else p.noVotes) + power > U64_MAX
    ensures r.Err? ==> r.error == Overflow
    ensures r.Ok? ==> r.value.yesVotes + r.value.noVotes == p.yesVotes + p.noVotes + power
    ensures r.Ok? && voteYes ==> r.value.noVotes == p.noVotes
    ensures r.Ok? && !voteYes ==> r.value.yesVotes == p.yesVotes
    ensures r.Ok? ==> r.value.(yesVotes := p.yesVotes, noVotes := p.noVotes) == p
  {
    if voteYes then
      match CheckedAdd(p.yesVotes, power)
      case Err(err) => Err(err)
      case Ok(yes) => Ok(p.(yesVotes := yes))
    else
      match CheckedAdd(p.noVotes, power)
      case Err(err) => Err(err)
      case Ok(no) => Ok(p.(noVotes := no))
  }

  /** The voting power of the yes ballots among `ballots`. */
  function YesPower(ballots: seq<VoteRecord>): nat
  {
    if ballots == [] then 0
    else
      var last := ballots[|ballots| - 1];
      YesPower(ballots[..|ballots| - 1]) + (if last.voteYes then last.votingPower else 0)
  }

  /** The voting power of the no ballots among `ballots`. */
  function NoPower(ballots: seq<VoteRecord>): nat
  {
    if ballots == [] then 0
    else
      var last := ballots[|ballots| - 1];
      NoPower(ballots[..|ballots| - 1]) + (if last.voteYes then 0 else last.votingPower)
  }

  /** The voting power of all of `ballots`. */
  function CastPower(ballots: seq<VoteRecord>): nat
  {
    if ballots == [] then 0
    else CastPower(ballots[..|ballots| - 1]) + ballots[|ballots| - 1].votingPower
  }

  /** `ballots` counted into `p` one after another, the first overflow
      aborting the count. */
  function TallyAll(p: Proposal, ballots: seq<VoteRecord>): Result<Proposal>
  {
    if ballots == [] then Ok(p)
    else
      var last := ballots[|ballots| - 1];
      match TallyAll(p, ballots[..|ballots| - 1])
      case Err(err) => Err(err)
      case Ok(before) => Tallied(before, last.voteYes, last.votingPower)
  }

  /** Counting ballots succeeds exactly when both totals stay within a
      `u64`; each total then grows by the power of its own ballots, and
      nothing else in the proposal changes. */
  lemma {:induction false} TallyAllCounts(p: Proposal, ballots: seq<VoteRecord>)
    ensures TallyAll(p, ballots).Ok? <==>
              p.yesVotes + YesPower(ballots) <= U64_MAX && p.noVotes + NoPower(ballots) <= U64_MAX
    ensures TallyAll(p, ballots).Ok? ==>
              TallyAll(p, ballots).value ==
                p.(yesVotes := p.yesVotes + YesPower(ballots), noVotes := p.noVotes + NoPower(ballots))
    decreases |ballots|
  {
    if ballots != [] {
      TallyAllCounts(p, ballots[..|ballots| - 1]);
    }
  }

  /** Every unit of cast voting power lands in exactly one total. */
  lemma {:induction false} PowerSplits(ballots: seq<VoteRecord>)
    ensures YesPower(ballots) + NoPower(ballots) == CastPower(ballots)
    decreases |ballots|
  {
    if ballots != [] {
      PowerSplits(ballots[..|ballots| - 1]);
    }
  }

  /** The tally of a new proposal: after counting its ballots, the yes and
      no totals together equal the voting power recorded across them. */
  lemma TallyMatchesRecords(proposer: Pubkey, title: string, description: string, now: int,
                            votingPeriod: int, ballots: seq<VoteRecord>)
    requires TallyAll(NewProposal(proposer, title, description, now, votingPeriod), ballots).Ok?
    ensures var p := TallyAll(NewProposal(proposer, title, description, now, votingPeriod), ballots).value;
            p.yesVotes + p.noVotes == CastPower(ballots) && !p.executed
  {
    TallyAllCounts(NewProposal(proposer, title, description, now, votingPeriod), ballots);
    PowerSplits(ballots);
  }

  /** The vote records `ballots` leave in the store, each at its
      (proposal, voter) key, a later record replacing an earlier one. */
  function Stored(ballots: seq<VoteRecord>): map<(ProposalKey, Pubkey), VoteRecord>
  {
    if ballots == [] then map[]
    else
      var last := ballots[|ballots| - 1];
      Stored(ballots[..|ballots| - 1])[(last.proposal, last.voter) := last]
  }

  /** A key no ballot has is not in the store. */
  lemma {:induction false} StoredFresh(ballots: seq<VoteRecord>, x: (ProposalKey, Pubkey))
    requires forall i :: 0 <= i < |ballots| ==> (ballots[i].proposal, ballots[i].voter) != x
    ensures x !in Stored(ballots)
    decreases |ballots|
  {
    if ballots != [] {
      var init := ballots[..|ballots| - 1];
      assert forall i :: 0 <= i < |init| ==> init[i] == ballots[i];
      StoredFresh(init, x);
    }
  }

  /** The series tally and the stored records agree: when every ballot is on
      proposal `k` and no voter casts two, counting the ballots into `k`'s
      totals gives exactly the power the stored records hold per side. */
  lemma {:induction false} StoredTally(ballots: seq<VoteRecord>, k: ProposalKey)
    requires forall i :: 0 <= i < |ballots| ==> ballots[i].proposal == k
    requires forall i, j :: 0 <= i < j < |ballots| ==> ballots[i].voter != ballots[j].voter
    ensures Tally(Stored(ballots), k, true) == YesPower(ballots)
    ensures Tally(Stored(ballots), k, false) == NoPower(ballots)
    decreases |ballots|
  {
    if ballots != [] {
      var init := ballots[..|ballots| - 1];
      var last := ballots[|ballots| - 1];
      var x := (last.proposal, last.voter);
      assert forall i :: 0 <= i < |init| ==> init[i] == ballots[i];
      StoredTally(init, k);
      StoredFresh(init, x);
      TallyAdd(Stored(init), x, last, k, true);
      TallyAdd(Stored(init), x, last, k, false);
    }
  }

  /** The totals a new proposal reaches by counting its ballots one vote at
      a time are the per-side tallies of the vote records those votes store. */
  lemma TallyAllMatchesStore(proposer: Pubkey, title: string, description: string, now: int,
                             votingPeriod: int, ballots: seq<VoteRecord>)
    requires forall i :: 0 <= i < |ballots| ==> ballots[i].proposal == ProposalKey(proposer, title)
    requires forall i, j :: 0 <= i < j < |ballots| ==> ballots[i].voter != ballots[j].voter
    requires TallyAll(NewProposal(proposer, title, description, now, votingPeriod), ballots).Ok?
    ensures var p := TallyAll(NewProposal(proposer, title, description, now, votingPeriod), ballots).value;
            p.yesVotes == Tally(Stored(ballots), ProposalKey(proposer, title), true)
            && p.noVotes == Tally(Stored(ballots), ProposalKey(proposer, title), false)
  {
    TallyAllCounts(NewProposal(proposer, title, description, now, votingPeriod), ballots);
    StoredTally(ballots, ProposalKey(proposer, title));
  }

  /** The power `r` adds to side `yes` of proposal `k`. */
  function Weight(r: VoteRecord, k: ProposalKey, yes: bool): nat
  {
    if r.proposal == k && r.voteYes == yes then r.votingPower else 0
  }

  /** The voting power recorded on side `yes` of proposal `k` across the
      stored vote records. */
  ghost function Tally(records: map<(ProposalKey, Pubkey), VoteRecord>, k: ProposalKey, yes: bool): nat
    decreases |records|
  {
    if records == map[] then 0
    else
      var x :| x in records;
      Weight(records[x], k, yes) + Tally(records - {x}, k, yes)
  }

  /** The tally can be split at any record, not only at the one `Tally`
      happens to pick. */
  lemma {:induction false} TallySplit(records: map<(ProposalKey, Pubkey), VoteRecord>, x: (ProposalKey, Pubkey),
                                      k: ProposalKey, yes: bool)
    requires x in records
    ensures Tally(records, k, yes) == Weight(records[x], k, yes) + Tally(records - {x}, k, yes)
    decreases |records|
  {
    var y :| y in records && Tally(records, k, yes) == Weight(records[y], k, yes) + Tally(records - {y}, k, yes);
    if y != x {
      assert records - {y} - {x} == records - {x} - {y};
      TallySplit(records - {y}, x, k, yes);
      TallySplit(records - {x}, y, k, yes);
    }
  }

  /** A proposal no record votes on has empty tallies. */
  lemma {:induction false} TallyOfUnvoted(records: map<(ProposalKey, Pubkey), VoteRecord>, k: ProposalKey, yes: bool)
    requires forall x :: x in records ==> records[x].proposal != k
    ensures Tally(records, k, yes) == 0
    decreases |records|
  {
    if records != map[] {
      var x :| x in records;
      TallySplit(records, x, k, yes);
      TallyOfUnvoted(records - {x}, k, yes);
    }
  }

  /** Storing a new record adds its power to its own side of its own
      proposal and to no other tally. */
  lemma TallyAdd(records: map<(ProposalKey, Pubkey), VoteRecord>, x: (ProposalKey, Pubkey), r: VoteRecord,
                 k: ProposalKey, yes: bool)
    requires x !in records
    ensures Tally(records[x := r], k, yes) == Tally(records, k, yes) + Weight(r, k, yes)
  {
    TallySplit(records[x := r], x, k, yes);
    assert records[x := r] - {x} == records;
  }
}
