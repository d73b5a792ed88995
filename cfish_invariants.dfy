/** The invariants the CFISH store keeps between instructions, one per
    program area, and the lemmas showing that each instruction's update
    preserves them.

    Each invariant is a set-level fact plus a per-key predicate that holds
    at every key. The per-key predicates are named so that a proof mentions
    exactly the keys it is about. */
module CfishInvariants {
  import opened Common
  import opened Custody
  import opened Marketplace
  import opened Staking
  import opened Vesting
  import opened Governance

  // ----- Marketplace -----

  /** The listing of mint `m`, if any, sits at `m` with its escrow vault and
      escrow authority derived from `m`, and while unsold its vault still
      holds the escrowed unit; the vault exists exactly when the listing
      does. */
  ghost predicate ListingSound(listings: map<Pubkey, Listing>, tokens: map<TokenAccount, U64>, m: Pubkey)
  {
    (EscrowVault(m) in tokens <==> m in listings) &&
    (m in listings ==>
       listings[m].nftMint == m && listings[m].escrowAuthority == m
       && listings[m].escrowTokenAccount == EscrowVault(m)
       && (!listings[m].isSold ==> tokens[EscrowVault(m)] >= 1))
  }

  /** Escrow authorities are created with listings, and every mint's
      listing is sound. */
  ghost predicate MarketInv(listings: map<Pubkey, Listing>, escrowAuthorities: set<Pubkey>,
                            tokens: map<TokenAccount, U64>)
  {
    escrowAuthorities == listings.Keys && forall m :: ListingSound(listings, tokens, m)
  }

  /** A transfer between accounts other than escrow vaults keeps the
      marketplace invariant. */
  lemma MoveKeepsMarketInv(listings: map<Pubkey, Listing>, escrowAuthorities: set<Pubkey>,
                           tokens: map<TokenAccount, U64>, from: TokenAccount, to: TokenAccount, amount: U64)
    requires MarketInv(listings, escrowAuthorities, tokens)
    requires !from.EscrowVault? && !to.EscrowVault? && Move(tokens, from, to, amount).Ok?
    ensures MarketInv(listings, escrowAuthorities, Move(tokens, from, to, amount).value)
  {
    forall m ensures ListingSound(listings, Move(tokens, from, to, amount).value, m) {
      assert ListingSound(listings, tokens, m);
    }
  }

  /** Opening an account other than an escrow vault keeps the marketplace
      invariant. */
  lemma OpenKeepsMarketInv(listings: map<Pubkey, Listing>, escrowAuthorities: set<Pubkey>,
                           tokens: map<TokenAccount, U64>, account: TokenAccount)
    requires MarketInv(listings, escrowAuthorities, tokens) && !account.EscrowVault?
    ensures MarketInv(listings, escrowAuthorities, Open(tokens, account))
  {
    forall m ensures ListingSound(listings, Open(tokens, account), m) {
      assert ListingSound(listings, tokens, m);
    }
  }

  /** Listing a mint that has no listing yet, with its unit moved into the
      new escrow vault, keeps the marketplace invariant. */
  lemma ListKeepsMarketInv(listings: map<Pubkey, Listing>, escrowAuthorities: set<Pubkey>,
                           tokens: map<TokenAccount, U64>, seller: Pubkey, mint: Pubkey, price: U64)
    requires MarketInv(listings, escrowAuthorities, tokens) && mint !in listings
    requires Move(Open(tokens, EscrowVault(mint)), Wallet(seller, mint), EscrowVault(mint), 1).Ok?
    ensures MarketInv(listings[mint := NewListing(seller, mint, price)], escrowAuthorities + {mint},
                      Move(Open(tokens, EscrowVault(mint)), Wallet(seller, mint), EscrowVault(mint), 1).value)
  {
    var listings' := listings[mint := NewListing(seller, mint, price)];
    var tokens' := Move(Open(tokens, EscrowVault(mint)), Wallet(seller, mint), EscrowVault(mint), 1).value;
    forall m ensures ListingSound(listings', tokens', m) {
      assert ListingSound(listings, tokens, m);
    }
  }

  /** Delivering the escrowed unit of an unsold listing and marking it sold
      keeps the marketplace invariant. */
  lemma BuyKeepsMarketInv(listings: map<Pubkey, Listing>, escrowAuthorities: set<Pubkey>,
                          tokens: map<TokenAccount, U64>, buyer: Pubkey, mint: Pubkey)
    requires MarketInv(listings, escrowAuthorities, tokens) && mint in listings
    requires Move(Open(tokens, Wallet(buyer, mint)), EscrowVault(mint), Wallet(buyer, mint), 1).Ok?
    ensures MarketInv(listings[mint := listings[mint].(isSold := true)], escrowAuthorities,
                      Move(Open(tokens, Wallet(buyer, mint)), EscrowVault(mint), Wallet(buyer, mint), 1).value)
  {
    var listings' := listings[mint := listings[mint].(isSold := true)];
    var tokens' := Move(Open(tokens, Wallet(buyer, mint)), EscrowVault(mint), Wallet(buyer, mint), 1).value;
    forall m ensures ListingSound(listings', tokens', m) {
      assert ListingSound(listings, tokens, m);
    }
  }

  // ----- Staking -----

  /** The stake entry of `s`, if any, belongs to `s` and its principal is
      backed by `s`'s stake vault; the vault exists exactly when the entry
      does. */
  ghost predicate StakeSound(stakeEntries: map<Pubkey, StakeEntry>, tokens: map<TokenAccount, U64>, s: Pubkey)
  {
    (StakeVault(s) in tokens <==> s in stakeEntries) &&
    (s in stakeEntries ==> stakeEntries[s].staker == s && tokens[StakeVault(s)] >= stakeEntries[s].amount)
  }

  /** Stake authorities are created with stake entries, and every staker's
      entry is sound. */
  ghost predicate StakingInv(stakeEntries: map<Pubkey, StakeEntry>, stakeAuthorities: set<Pubkey>,
                             tokens: map<TokenAccount, U64>)
  {
    stakeAuthorities == stakeEntries.Keys && forall s :: StakeSound(stakeEntries, tokens, s)
  }

  /** A transfer between accounts other than stake vaults keeps the staking
      invariant. */
  lemma MoveKeepsStakingInv(stakeEntries: map<Pubkey, StakeEntry>, stakeAuthorities: set<Pubkey>,
                            tokens: map<TokenAccount, U64>, from: TokenAccount, to: TokenAccount, amount: U64)
    requires StakingInv(stakeEntries, stakeAuthorities, tokens)
    requires !from.StakeVault? && !to.StakeVault? && Move(tokens, from, to, amount).Ok?
    ensures StakingInv(stakeEntries, stakeAuthorities, Move(tokens, from, to, amount).value)
  {
    forall s ensures StakeSound(stakeEntries, Move(tokens, from, to, amount).value, s) {
      assert StakeSound(stakeEntries, tokens, s);
    }
  }

  /** Opening an account other than a stake vault keeps the staking
      invariant. */
  lemma OpenKeepsStakingInv(stakeEntries: map<Pubkey, StakeEntry>, stakeAuthorities: set<Pubkey>,
                            tokens: map<TokenAccount, U64>, account: TokenAccount)
    requires StakingInv(stakeEntries, stakeAuthorities, tokens) && !account.StakeVault?
    ensures StakingInv(stakeEntries, stakeAuthorities, Open(tokens, account))
  {
    forall s ensures StakeSound(stakeEntries, Open(tokens, account), s) {
      assert StakeSound(stakeEntries, tokens, s);
    }
  }

  /** A first stake, moved from a wallet into the newly opened stake vault,
      keeps the staking invariant: the vault holds exactly the principal. */
  lemma StakeKeepsStakingInv(stakeEntries: map<Pubkey, StakeEntry>, stakeAuthorities: set<Pubkey>,
                             tokens: map<TokenAccount, U64>, staker: Pubkey, wallet: TokenAccount,
                             entry: StakeEntry)
    requires StakingInv(stakeEntries, stakeAuthorities, tokens) && staker !in stakeAuthorities
    requires !wallet.StakeVault? && entry.staker == staker
    requires Move(Open(tokens, StakeVault(staker)), wallet, StakeVault(staker), entry.amount).Ok?
    ensures StakingInv(stakeEntries[staker := entry], stakeAuthorities + {staker},
                       Move(Open(tokens, StakeVault(staker)), wallet, StakeVault(staker), entry.amount).value)
  {
    var entries', tokens' := stakeEntries[staker := entry],
      Move(Open(tokens, StakeVault(staker)), wallet, StakeVault(staker), entry.amount).value;
    forall s ensures StakeSound(entries', tokens', s) {
      assert StakeSound(stakeEntries, tokens, s);
    }
  }

  /** Paying out of a stake vault and zeroing the entry's principal keeps
      the staking invariant. */
  lemma UnstakeKeepsStakingInv(stakeEntries: map<Pubkey, StakeEntry>, stakeAuthorities: set<Pubkey>,
                               tokens: map<TokenAccount, U64>, staker: Pubkey, wallet: TokenAccount,
                               payout: U64, entry: StakeEntry)
    requires StakingInv(stakeEntries, stakeAuthorities, tokens) && staker in stakeEntries
    requires !wallet.StakeVault? && entry.staker == staker && entry.amount == 0
    requires Move(tokens, StakeVault(staker), wallet, payout).Ok?
    ensures StakingInv(stakeEntries[staker := entry], stakeAuthorities,
                       Move(tokens, StakeVault(staker), wallet, payout).value)
  {
    var entries', tokens' := stakeEntries[staker := entry], Move(tokens, StakeVault(staker), wallet, payout).value;
    forall s ensures StakeSound(entries', tokens', s) {
      assert StakeSound(stakeEntries, tokens, s);
    }
  }

  // ----- Rewards -----

  /** The reward tracker of `u`, if any, has not passed the daily cap. */
  ghost predicate TrackerSound(rewardTrackers: map<Pubkey, RewardTracker>, u: Pubkey)
  {
    u in rewardTrackers ==> rewardTrackers[u].dailyCount <= DAILY_REWARD_CAP
  }

  /** The vesting entry at `k`, if any, belongs to the user in its key and
      runs for the fixed 180 days. */
  ghost predicate VestingSound(vestingEntries: map<(Pubkey, Pubkey), VestingEntry>, k: (Pubkey, Pubkey))
  {
    k in vestingEntries ==> vestingEntries[k].beneficiary == k.0 && vestingEntries[k].duration == VESTING_DURATION
  }

  /** Every reward tracker and every vesting entry is sound. */
  ghost predicate RewardsInv(rewardTrackers: map<Pubkey, RewardTracker>,
                             vestingEntries: map<(Pubkey, Pubkey), VestingEntry>)
  {
    (forall u :: TrackerSound(rewardTrackers, u)) && (forall k :: VestingSound(vestingEntries, k))
  }

  /** A grant that passes the daily check, with its new vesting entry,
      keeps the rewards invariant. */
  lemma GrantKeepsRewardsInv(rewardTrackers: map<Pubkey, RewardTracker>,
                             vestingEntries: map<(Pubkey, Pubkey), VestingEntry>,
                             user: Pubkey, mint: Pubkey, tracker: RewardTracker, amount: U64, now: int)
    requires RewardsInv(rewardTrackers, vestingEntries) && RecordGrant(tracker, now).Ok?
    ensures RewardsInv(rewardTrackers[user := RecordGrant(tracker, now).value],
                       vestingEntries[(user, mint) := NewVestingEntry(user, amount, now)])
  {
    var trackers' := rewardTrackers[user := RecordGrant(tracker, now).value];
    var entries' := vestingEntries[(user, mint) := NewVestingEntry(user, amount, now)];
    forall u ensures TrackerSound(trackers', u) {
      assert TrackerSound(rewardTrackers, u);
    }
    forall k ensures VestingSound(entries', k) {
      assert VestingSound(vestingEntries, k);
    }
  }

  /** Raising an entry's released amount keeps the rewards invariant. */
  lemma ReleaseKeepsRewardsInv(rewardTrackers: map<Pubkey, RewardTracker>,
                               vestingEntries: map<(Pubkey, Pubkey), VestingEntry>,
                               key: (Pubkey, Pubkey), released: U64)
    requires RewardsInv(rewardTrackers, vestingEntries) && key in vestingEntries
    ensures RewardsInv(rewardTrackers, vestingEntries[key := vestingEntries[key].(releasedAmount := released)])
  {
    var entries' := vestingEntries[key := vestingEntries[key].(releasedAmount := released)];
    forall k ensures VestingSound(entries', k) {
      assert VestingSound(vestingEntries, k);
    }
  }

  // ----- Governance -----

  /** The proposal at `k`, if any, sits at its key, is not executed, and
      its totals are the voting power of the stored vote records on it. */
  ghost predicate ProposalSound(proposals: map<ProposalKey, Proposal>,
                                voteRecords: map<(ProposalKey, Pubkey), VoteRecord>, k: ProposalKey)
  {
    k in proposals ==>
      proposals[k].proposer == k.proposer && proposals[k].title == k.title && !proposals[k].executed
      && proposals[k].yesVotes == Tally(voteRecords, k, true)
      && proposals[k].noVotes == Tally(voteRecords, k, false)
  }

  /** The vote record at `x`, if any, sits at its (proposal, voter) key and
      votes on a stored proposal. */
  ghost predicate RecordSound(proposals: map<ProposalKey, Proposal>,
                              voteRecords: map<(ProposalKey, Pubkey), VoteRecord>, x: (ProposalKey, Pubkey))
  {
    x in voteRecords ==> voteRecords[x].proposal == x.0 && voteRecords[x].voter == x.1 && x.0 in proposals
  }

  /** Every proposal and every vote record is sound: each proposal's totals
      are exactly the power recorded for it. */
  ghost predicate GovernanceInv(proposals: map<ProposalKey, Proposal>,
                                voteRecords: map<(ProposalKey, Pubkey), VoteRecord>)
  {
    (forall k :: ProposalSound(proposals, voteRecords, k)) && (forall x :: RecordSound(proposals, voteRecords, x))
  }

  /** Creating a proposal with empty totals keeps the governance
      invariant: no stored record votes on it yet. */
  lemma CreateKeepsGovernance(proposals: map<ProposalKey, Proposal>,
                              voteRecords: map<(ProposalKey, Pubkey), VoteRecord>, key: ProposalKey, p: Proposal)
    requires GovernanceInv(proposals, voteRecords) && key !in proposals
    requires p.proposer == key.proposer && p.title == key.title && !p.executed
    requires p.yesVotes == 0 && p.noVotes == 0
    ensures GovernanceInv(proposals[key := p], voteRecords)
  {
    forall x | x in voteRecords ensures voteRecords[x].proposal != key {
      assert RecordSound(proposals, voteRecords, x);
    }
    TallyOfUnvoted(voteRecords, key, true);
    TallyOfUnvoted(voteRecords, key, false);
    var proposals' := proposals[key := p];
    forall k ensures ProposalSound(proposals', voteRecords, k) {
      assert ProposalSound(proposals, voteRecords, k);
    }
    forall x ensures RecordSound(proposals', voteRecords, x) {
      assert RecordSound(proposals, voteRecords, x);
    }
  }

  /** Recording a new vote on a stored proposal, with its power added to
      the chosen total, keeps the governance invariant. */
  lemma VoteKeepsGovernance(proposals: map<ProposalKey, Proposal>,
                            voteRecords: map<(ProposalKey, Pubkey), VoteRecord>,
                            record: VoteRecord, p: Proposal)
    requires GovernanceInv(proposals, voteRecords)
    requires record.proposal in proposals && (record.proposal, record.voter) !in voteRecords
    requires Tallied(proposals[record.proposal], record.voteYes, record.votingPower) == Ok(p)
    ensures GovernanceInv(proposals[record.proposal := p], voteRecords[(record.proposal, record.voter) := record])
  {
    var x := (record.proposal, record.voter);
    var proposals', voteRecords' := proposals[record.proposal := p], voteRecords[x := record];
    forall k ensures ProposalSound(proposals', voteRecords', k) {
      assert ProposalSound(proposals, voteRecords, k);
      TallyAdd(voteRecords, x, record, k, true);
      TallyAdd(voteRecords, x, record, k, false);
    }
    forall y ensures RecordSound(proposals', voteRecords', y) {
      assert RecordSound(proposals, voteRecords, y);
    }
  }
}
