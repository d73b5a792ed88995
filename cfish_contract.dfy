/** The full CFISH program: its nine instruction handlers run against one
    store of records and balances.

    Every record lives at a derived address; the store keys it by the owner
    key(s) in its seeds. `init` on an address that holds a record fails with
    `AccountAlreadyInUse`, an `Account<T>` whose record is missing fails with
    `AccountNotInitialized`, and `init_if_needed` uses the zero-filled record
    when none exists. Handlers work on copies of their records, as the
    framework deserialises each account, and the store is written only when
    the handler returns `Ok`; an error anywhere leaves every record and
    balance as it was, which is the transaction's all-or-nothing rule. */
module CfishContract {
  import opened Common
  import opened Custody
  import opened Marketplace
  import opened Staking
  import opened Vesting
  import opened Governance
  import opened CfishInvariants

  class Cfish {
    /** SPL token balances, by existing token account. */
    var tokens: map<TokenAccount, U64>
    /** Native (lamport) balances, by existing system account. */
    var lamports: map<Pubkey, U64>

    /** `NftMetadata` records, by mint. */
    var nftMetadata: map<Pubkey, NftMetadata>
    /** `Listing` records, by mint. */
    var listings: map<Pubkey, Listing>
    /** `EscrowAuthority` records, by mint. */
    var escrowAuthorities: set<Pubkey>
    /** `StakeEntry` records, by staker. */
    var stakeEntries: map<Pubkey, StakeEntry>
    /** `StakeAuthority` records, by staker. */
    var stakeAuthorities: set<Pubkey>
    /** `RewardTracker` records, by user. */
    var rewardTrackers: map<Pubkey, RewardTracker>
    /** `VestingEntry` records, by (user, mint). */
    var vestingEntries: map<(Pubkey, Pubkey), VestingEntry>
    /** `Proposal` records, by (proposer, title). */
    var proposals: map<ProposalKey, Proposal>
    /** `VoteRecord` records, by (proposal, voter). */
    var voteRecords: map<(ProposalKey, Pubkey), VoteRecord>
    /** Whether the `Authority` record at `[b"authority"]` exists. No
        instruction of the program creates it. */
    const rewardAuthority: bool

    ghost predicate Valid()
      reads this
    {
      MarketInv(listings, escrowAuthorities, tokens)
      && StakingInv(stakeEntries, stakeAuthorities, tokens)
      && RewardsInv(rewardTrackers, vestingEntries)
      && GovernanceInv(proposals, voteRecords)
    }

    /** A deployment with the given wallets and reward vaults and no records. */
    constructor(tokens: map<TokenAccount, U64>, lamports: map<Pubkey, U64>, rewardAuthority: bool)
      requires forall a :: a in tokens ==> a.Wallet? || a.RewardVault?
      ensures Valid()
      ensures this.tokens == tokens && this.lamports == lamports && this.rewardAuthority == rewardAuthority
      ensures nftMetadata == map[] && listings == map[] && stakeEntries == map[] && rewardTrackers == map[]
      ensures vestingEntries == map[] && proposals == map[] && voteRecords == map[]
    {
      this.tokens := tokens;
      this.lamports := lamports;
      this.rewardAuthority := rewardAuthority;
      nftMetadata, listings, escrowAuthorities := map[], map[], {};
      stakeEntries, stakeAuthorities, rewardTrackers := map[], {}, map[];
      vestingEntries, proposals, voteRecords := map[], map[], map[];
    }

    /** `mint_nft`: stores the metadata record of `mint`, once per mint. */
    method MintNft(mintAuthority: Pubkey, mint: Pubkey, name: string, symbol: string, uri: string)
      returns (res: Outcome)
      requires Valid()
      modifies this`nftMetadata
      ensures Valid()
      ensures res == if mint in old(nftMetadata) then Fail(AccountAlreadyInUse) else Pass
      ensures nftMetadata == if res.Pass? then old(nftMetadata)[mint := NftMetadata(mint, mintAuthority, name, symbol, uri)]
                             else old(nftMetadata)
    {
      if mint in nftMetadata {
        return Fail(AccountAlreadyInUse);
      }
      var record := NftMetadata(0, 0, "", "", "");
      record := record.(name := name);
      record := record.(symbol := symbol);
      record := record.(uri := uri);
      record := record.(mint := mint);
      record := record.(creator := mintAuthority);
      nftMetadata := nftMetadata[mint := record];
      res := Pass;
    }

    /** `list_nft`: creates the escrow vault, the listing and the escrow
        authority of `mint` (each at most once per mint), moves one unit from
        the seller's wallet into the vault, and records the unsold listing. */
    method ListNft(seller: Pubkey, mint: Pubkey, price: U64) returns (res: Outcome)
      requires Valid()
      modifies this`tokens, this`listings, this`escrowAuthorities
      ensures Valid()
      ensures Wallet(seller, mint) !in old(tokens) ==> res == Fail(AccountNotInitialized)
      ensures Wallet(seller, mint) in old(tokens) && mint in old(listings) ==> res == Fail(AccountAlreadyInUse)
      ensures res.Pass? <==> Wallet(seller, mint) in old(tokens) && mint !in old(listings)
                             && old(tokens)[Wallet(seller, mint)] >= 1
      ensures res.Pass? ==> listings == old(listings)[mint := NewListing(seller, mint, price)]
      ensures res.Pass? ==> escrowAuthorities == old(escrowAuthorities) + {mint}
      ensures res.Pass? ==> tokens == old(tokens)[Wallet(seller, mint) := old(tokens)[Wallet(seller, mint)] - 1]
                                                 [EscrowVault(mint) := 1]
      ensures res.Fail? ==> tokens == old(tokens) && listings == old(listings)
                            && escrowAuthorities == old(escrowAuthorities)
      ensures Total(tokens) == Total(old(tokens))
    {
      var sellerAccount := Wallet(seller, mint);
      if sellerAccount !in tokens {
        return Fail(AccountNotInitialized);
      }
      assert ListingSound(listings, tokens, mint);
      if EscrowVault(mint) in tokens || mint in listings || mint in escrowAuthorities {
        return Fail(AccountAlreadyInUse);
      }
      var staged := Open(tokens, EscrowVault(mint));
      OpenKeepsTotal(tokens, EscrowVault(mint));
      var moved := Move(staged, sellerAccount, EscrowVault(mint), 1);
      if moved.Err? {
        return Fail(moved.error);
      }
      MoveIntoOpened(tokens, sellerAccount, EscrowVault(mint), 1);
      MoveKeepsTotal(staged, sellerAccount, EscrowVault(mint), 1);
      ListKeepsMarketInv(listings, escrowAuthorities, tokens, seller, mint, price);
      OpenKeepsStakingInv(stakeEntries, stakeAuthorities, tokens, EscrowVault(mint));
      MoveKeepsStakingInv(stakeEntries, stakeAuthorities, staged, sellerAccount, EscrowVault(mint), 1);
      var listing := NewListing(seller, mint, price);
      tokens := moved.value;
      listings := listings[mint := listing];
      escrowAuthorities := escrowAuthorities + {mint};
      res := Pass;
    }

    /** `buy_nft`: on an unsold listing, pays the price from the buyer to
        the `seller` account the caller supplies (nothing ties it to the
        listing's seller; the system program credits any address, so a
        payee without lamports starts from zero), delivers the escrowed unit
        to the buyer's wallet (created if needed), and marks the listing sold
        through `BuyAttempt`. */
    method BuyNft(buyer: Pubkey, seller: Pubkey, mint: Pubkey) returns (res: Outcome)
      requires Valid()
      modifies this`tokens, this`lamports, this`listings
      ensures Valid()
      ensures mint !in old(listings) ==> res == Fail(AccountNotInitialized)
      ensures mint in old(listings) && old(listings)[mint].isSold ==> res == Fail(ConstraintRaw)
      ensures mint in old(listings) ==>
                (res.Pass? <==> BuyAttempt(old(listings)[mint],
                                           Move(Open(old(lamports), seller), buyer, seller, old(listings)[mint].price).Ok?
                                           && Move(Open(old(tokens), Wallet(buyer, mint)), EscrowVault(mint),
                                                   Wallet(buyer, mint), 1).Ok?).Ok?)
      ensures res.Pass? ==> listings == old(listings)[mint := BuyAttempt(old(listings)[mint], true).value]
      ensures res.Pass? ==> listings == old(listings)[mint := old(listings)[mint].(isSold := true)]
      ensures res.Pass? ==> lamports == Move(Open(old(lamports), seller), buyer, seller, old(listings)[mint].price).value
      ensures res.Pass? ==> tokens == Move(Open(old(tokens), Wallet(buyer, mint)), EscrowVault(mint), Wallet(buyer, mint), 1).value
      ensures res.Fail? ==> tokens == old(tokens) && lamports == old(lamports) && listings == old(listings)
      ensures Total(tokens) == Total(old(tokens)) && Total(lamports) == Total(old(lamports))
    {
      if mint !in listings {
        return Fail(AccountNotInitialized);
      }
      var listing := listings[mint];
      // The `is_sold == false` constraint runs before any transfer.
      var admitted := BuyAttempt(listing, true);
      if admitted.Err? {
        return Fail(admitted.error);
      }
      // The listing's `has_one` links to the mint, the escrow vault and the
      // escrow authority hold by `MarketInv`.
      var buyerAccount := Wallet(buyer, mint);
      var staged := Open(tokens, buyerAccount);
      OpenKeepsTotal(tokens, buyerAccount);
      var payee := Open(lamports, seller);
      OpenKeepsTotal(lamports, seller);
      var paid := Move(payee, buyer, seller, listing.price);
      if paid.Err? {
        return Fail(paid.error);
      }
      MoveKeepsTotal(payee, buyer, seller, listing.price);
      var delivered := Move(staged, EscrowVault(mint), buyerAccount, 1);
      if delivered.Err? {
        return Fail(delivered.error);
      }
      MoveKeepsTotal(staged, EscrowVault(mint), buyerAccount, 1);
      BuyKeepsMarketInv(listings, escrowAuthorities, tokens, buyer, mint);
      OpenKeepsStakingInv(stakeEntries, stakeAuthorities, tokens, buyerAccount);
      MoveKeepsStakingInv(stakeEntries, stakeAuthorities, staged, EscrowVault(mint), buyerAccount, 1);
      lamports := paid.value;
      tokens := delivered.value;
      listings := listings[mint := admitted.value];
      res := Pass;
    }

    /** `stake`: creates the staker's stake authority (so it succeeds at most
        once per staker), opens the stake vault if needed, moves `amount`
        from the staker's wallet into it, and writes the entry. */
    method Stake(staker: Pubkey, cfishMint: Pubkey, amount: U64, durationDays: U64, now: int) returns (res: Outcome)
      requires Valid()
      modifies this`tokens, this`stakeEntries, this`stakeAuthorities
      ensures Valid()
      ensures Wallet(staker, cfishMint) !in old(tokens) ==> res == Fail(AccountNotInitialized)
      ensures Wallet(staker, cfishMint) in old(tokens) && staker in old(stakeAuthorities) ==> res == Fail(AccountAlreadyInUse)
      ensures res.Pass? <==> Wallet(staker, cfishMint) in old(tokens) && staker !in old(stakeAuthorities)
                             && old(tokens)[Wallet(staker, cfishMint)] >= amount
      ensures res.Pass? ==> stakeEntries == old(stakeEntries)[staker := Staked(FreshStakeEntry, staker, amount, durationDays, now).value]
      ensures res.Pass? ==> stakeEntries[staker] == StakeEntry(staker, amount, now, durationDays, 0)
      ensures res.Pass? ==> stakeAuthorities == old(stakeAuthorities) + {staker}
      ensures staker !in old(stakeAuthorities) ==> staker !in old(stakeEntries) && StakeVault(staker) !in old(tokens)
      ensures res.Pass? ==> tokens == Move(Open(old(tokens), StakeVault(staker)), Wallet(staker, cfishMint), StakeVault(staker), amount).value
      ensures res.Fail? ==> tokens == old(tokens) && stakeEntries == old(stakeEntries)
                            && stakeAuthorities == old(stakeAuthorities)
      ensures Total(tokens) == Total(old(tokens))
    {
      var wallet := Wallet(staker, cfishMint);
      if wallet !in tokens {
        return Fail(AccountNotInitialized);
      }
      if staker in stakeAuthorities {
        return Fail(AccountAlreadyInUse);
      }
      // `init_if_needed` on the vault and on the entry: both exist only
      // beside the stake authority just found absent (`StakingInv`), so the
      // vault is opened empty and the entry is zero-filled.
      assert StakeSound(stakeEntries, tokens, staker);
      var staged := Open(tokens, StakeVault(staker));
      var moved := Move(staged, wallet, StakeVault(staker), amount);
      if moved.Err? {
        return Fail(moved.error);
      }
      // The checked addition to a zero principal cannot overflow.
      var entry := Staked(FreshStakeEntry, staker, amount, durationDays, now);
      assert entry == Ok(StakeEntry(staker, amount, now, durationDays, 0));
      OpenKeepsTotal(tokens, StakeVault(staker));
      MoveKeepsTotal(staged, wallet, StakeVault(staker), amount);
      StakeKeepsStakingInv(stakeEntries, stakeAuthorities, tokens, staker, wallet, entry.value);
      OpenKeepsMarketInv(listings, escrowAuthorities, tokens, StakeVault(staker));
      MoveKeepsMarketInv(listings, escrowAuthorities, staged, wallet, StakeVault(staker), amount);
      tokens := moved.value;
      stakeEntries := stakeEntries[staker := entry.value];
      stakeAuthorities := stakeAuthorities + {staker};
      res := Pass;
    }

    /** `unstake`: pays principal plus reward from the stake vault to the
        staker's wallet, then zeroes the principal and adds the reward to the
        claimed total. */
    method Unstake(staker: Pubkey, cfishMint: Pubkey, now: int) returns (res: Outcome)
      requires Valid()
      modifies this`tokens, this`stakeEntries
      ensures Valid()
      ensures Wallet(staker, cfishMint) !in old(tokens) || staker !in old(stakeEntries) ==> res == Fail(AccountNotInitialized)
      ensures res.Pass? <==> Wallet(staker, cfishMint) in old(tokens) && staker in old(stakeEntries)
                             && UnstakePayout(old(stakeEntries)[staker], now).Ok?
                             && Move(old(tokens), StakeVault(staker), Wallet(staker, cfishMint),
                                     UnstakePayout(old(stakeEntries)[staker], now).value).Ok?
                             && ClaimRewards(old(stakeEntries)[staker], now).Ok?
      ensures res.Pass? ==> tokens == Move(old(tokens), StakeVault(staker), Wallet(staker, cfishMint),
                                           UnstakePayout(old(stakeEntries)[staker], now).value).value
      ensures res.Pass? ==> stakeEntries == old(stakeEntries)[staker := ClaimRewards(old(stakeEntries)[staker], now).value]
      ensures res.Fail? ==> tokens == old(tokens) && stakeEntries == old(stakeEntries)
      ensures Total(tokens) == Total(old(tokens))
    {
      var wallet := Wallet(staker, cfishMint);
      // The stake vault, the stake authority and the entry exist together
      // (`StakingInv`), so one missing means all are.
      if wallet !in tokens || staker !in stakeEntries {
        return Fail(AccountNotInitialized);
      }
      var entry := stakeEntries[staker];
      // The `stake_entry.staker == staker` constraint holds by `StakingInv`.
      assert StakeSound(stakeEntries, tokens, staker);
      var payout := UnstakePayout(entry, now);
      if payout.Err? {
        return Fail(payout.error);
      }
      var moved := Move(tokens, StakeVault(staker), wallet, payout.value);
      if moved.Err? {
        return Fail(moved.error);
      }
      var claimed := ClaimRewards(entry, now);
      if claimed.Err? {
        return Fail(claimed.error);
      }
      MoveKeepsTotal(tokens, StakeVault(staker), wallet, payout.value);
      UnstakeKeepsStakingInv(stakeEntries, stakeAuthorities, tokens, staker, wallet, payout.value, claimed.value);
      MoveKeepsMarketInv(listings, escrowAuthorities, tokens, StakeVault(staker), wallet, payout.value);
      tokens := moved.value;
      stakeEntries := stakeEntries[staker := claimed.value];
      res := Pass;
    }

    /** `distribute_reward`: creates the user's vesting entry for
        `cfishMint` (at most once per user and mint) after the daily-limit
        step on the user's tracker (created if needed). No tokens move. */
    method DistributeReward(user: Pubkey, cfishMint: Pubkey, rewardAmount: U64, now: int) returns (res: Outcome)
      requires Valid()
      modifies this`rewardTrackers, this`vestingEntries
      ensures Valid()
      ensures Wallet(user, cfishMint) !in tokens ==> res == Fail(AccountNotInitialized)
      ensures Wallet(user, cfishMint) in tokens && (user, cfishMint) in old(vestingEntries) ==> res == Fail(AccountAlreadyInUse)
      ensures var tracker := if user in old(rewardTrackers) then old(rewardTrackers)[user] else FreshRewardTracker;
              && (res.Pass? <==> Wallet(user, cfishMint) in tokens && (user, cfishMint) !in old(vestingEntries)
                                 && RecordGrant(tracker, now).Ok?)
              && (res.Pass? ==> rewardTrackers == old(rewardTrackers)[user := RecordGrant(tracker, now).value])
              && ((Wallet(user, cfishMint) in tokens && (user, cfishMint) !in old(vestingEntries)
                   && RecordGrant(tracker, now).Err?) ==> res == Fail(DailyLimitExceeded))
      ensures res.Pass? ==> vestingEntries == old(vestingEntries)[(user, cfishMint) := NewVestingEntry(user, rewardAmount, now)]
      ensures res.Fail? ==> rewardTrackers == old(rewardTrackers) && vestingEntries == old(vestingEntries)
    {
      if Wallet(user, cfishMint) !in tokens {
        return Fail(AccountNotInitialized);
      }
      var tracker := if user in rewardTrackers then rewardTrackers[user] else FreshRewardTracker;
      if (user, cfishMint) in vestingEntries {
        return Fail(AccountAlreadyInUse);
      }
      var granted := RecordGrant(tracker, now);
      if granted.Err? {
        return Fail(granted.error);
      }
      GrantKeepsRewardsInv(rewardTrackers, vestingEntries, user, cfishMint, tracker, rewardAmount, now);
      rewardTrackers := rewardTrackers[user := granted.value];
      vestingEntries := vestingEntries[(user, cfishMint) := NewVestingEntry(user, rewardAmount, now)];
      res := Pass;
    }

    /** `release_vested_reward`: pays the newly vested part of the
        beneficiary's entry for `cfishMint` from the reward vault of that mint
        and raises the released amount to the vested amount. */
    method ReleaseVestedReward(beneficiary: Pubkey, cfishMint: Pubkey, now: int) returns (res: Outcome)
      requires Valid()
      modifies this`tokens, this`vestingEntries
      ensures Valid()
      ensures (beneficiary, cfishMint) in old(vestingEntries) ==>
                old(vestingEntries)[(beneficiary, cfishMint)].beneficiary == beneficiary
                && old(vestingEntries)[(beneficiary, cfishMint)].duration == VESTING_DURATION
      ensures var key := (beneficiary, cfishMint);
              && (Wallet(beneficiary, cfishMint) !in old(tokens) || key !in old(vestingEntries) ==> res == Fail(AccountNotInitialized))
              && (res.Pass? <==> Wallet(beneficiary, cfishMint) in old(tokens) && key in old(vestingEntries)
                                 && rewardAuthority && RewardVault(cfishMint) in old(tokens)
                                 && ReleaseStep(old(vestingEntries)[key], now).Ok?
                                 && Move(old(tokens), RewardVault(cfishMint), Wallet(beneficiary, cfishMint),
                                         ReleaseStep(old(vestingEntries)[key], now).value.amount).Ok?)
              && (res.Pass? ==> vestingEntries == old(vestingEntries)[key := ReleaseStep(old(vestingEntries)[key], now).value.entry])
              && (res.Pass? ==> tokens == Move(old(tokens), RewardVault(cfishMint), Wallet(beneficiary, cfishMint),
                                               ReleaseStep(old(vestingEntries)[key], now).value.amount).value)
              && (key in old(vestingEntries) && Wallet(beneficiary, cfishMint) in old(tokens) && rewardAuthority
                  && RewardVault(cfishMint) in old(tokens) && now < old(vestingEntries)[key].startTime
                  ==> res == Fail(VestingNotStarted))
              && (key in old(vestingEntries) && Wallet(beneficiary, cfishMint) in old(tokens) && rewardAuthority
                  && RewardVault(cfishMint) in old(tokens) && now >= old(vestingEntries)[key].startTime
                  && Vested(old(vestingEntries)[key].totalAmount, now - old(vestingEntries)[key].startTime,
                            VESTING_DURATION) <= old(vestingEntries)[key].releasedAmount
                  ==> res == Fail(if Vested(old(vestingEntries)[key].totalAmount, now - old(vestingEntries)[key].startTime,
                                            VESTING_DURATION) < old(vestingEntries)[key].releasedAmount
                                  then Overflow else NoRewardsToRelease))
              && (key in old(vestingEntries) && Wallet(beneficiary, cfishMint) in old(tokens) && rewardAuthority
                  && RewardVault(cfishMint) in old(tokens) && ReleaseStep(old(vestingEntries)[key], now).Ok?
                  && Move(old(tokens), RewardVault(cfishMint), Wallet(beneficiary, cfishMint),
                          ReleaseStep(old(vestingEntries)[key], now).value.amount).Err?
                  ==> res == Fail(Move(old(tokens), RewardVault(cfishMint), Wallet(beneficiary, cfishMint),
                                       ReleaseStep(old(vestingEntries)[key], now).value.amount).error))
      ensures res.Fail? ==> tokens == old(tokens) && vestingEntries == old(vestingEntries)
      ensures Total(tokens) == Total(old(tokens))
    {
      var beneficiaryAccount := Wallet(beneficiary, cfishMint);
      var key := (beneficiary, cfishMint);
      assert VestingSound(vestingEntries, key);
      if beneficiaryAccount !in tokens || key !in vestingEntries {
        return Fail(AccountNotInitialized);
      }
      var entry := vestingEntries[key];
      // The `has_one = beneficiary` link holds by `RewardsInv`.
      assert entry.beneficiary == beneficiary;
      if !rewardAuthority || RewardVault(cfishMint) !in tokens {
        return Fail(AccountNotInitialized);
      }
      var step := ReleaseStep(entry, now);
      if step.Err? {
        return Fail(step.error);
      }
      var moved := Move(tokens, RewardVault(cfishMint), beneficiaryAccount, step.value.amount);
      if moved.Err? {
        return Fail(moved.error);
      }
      MoveKeepsTotal(tokens, RewardVault(cfishMint), beneficiaryAccount, step.value.amount);
      MoveKeepsMarketInv(listings, escrowAuthorities, tokens, RewardVault(cfishMint), beneficiaryAccount, step.value.amount);
      MoveKeepsStakingInv(stakeEntries, stakeAuthorities, tokens, RewardVault(cfishMint), beneficiaryAccount, step.value.amount);
      ReleaseKeepsRewardsInv(rewardTrackers, vestingEntries, key, step.value.entry.releasedAmount);
      tokens := moved.value;
      vestingEntries := vestingEntries[key := step.value.entry];
      res := Pass;
    }

    /** `create_proposal`: stores the proposal of `proposer` titled `title`
        (at most one per proposer and title), open for `votingPeriod`
        seconds from `now`. */
    method CreateProposal(proposer: Pubkey, title: string, description: string, votingPeriod: int, now: int)
      returns (res: Outcome)
      requires Valid()
      modifies this`proposals
      ensures Valid()
      ensures res == if ProposalKey(proposer, title) in old(proposals) then Fail(AccountAlreadyInUse) else Pass
      ensures proposals == if res.Pass? then old(proposals)[ProposalKey(proposer, title) :=
                                                NewProposal(proposer, title, description, now, votingPeriod)]
                           else old(proposals)
    {
      var key := ProposalKey(proposer, title);
      if key in proposals {
        return Fail(AccountAlreadyInUse);
      }
      var proposal := Proposal(0, "", "", 0, 0, 0, 0, false);
      proposal := proposal.(proposer := proposer);
      proposal := proposal.(title := title);
      proposal := proposal.(description := description);
      proposal := proposal.(startTime := now);
      proposal := proposal.(endTime := now + votingPeriod);
      proposal := proposal.(yesVotes := 0);
      proposal := proposal.(noVotes := 0);
      proposal := proposal.(executed := false);
      assert proposal == NewProposal(proposer, title, description, now, votingPeriod);
      CreateKeepsGovernance(proposals, voteRecords, key, proposal);
      proposals := proposals[key := proposal];
      res := Pass;
    }

    /** `vote`: while the proposal is open, adds the voter's current staked
        amount to the chosen total and records the vote (at most one per
        proposal and voter). */
    method Vote(voter: Pubkey, proposal: ProposalKey, voteYes: bool, now: int) returns (res: Outcome)
      requires Valid()
      modifies this`proposals, this`voteRecords
      ensures Valid()
      ensures proposal !in old(proposals) || voter !in stakeEntries ==> res == Fail(AccountNotInitialized)
      ensures (proposal in old(proposals) && voter in stakeEntries && (proposal, voter) in old(voteRecords))
                ==> res == Fail(AccountAlreadyInUse)
      ensures (proposal in old(proposals) && voter in stakeEntries && (proposal, voter) !in old(voteRecords)
               && old(proposals)[proposal].endTime <= now) ==> res == Fail(ConstraintRaw)
      ensures res.Pass? <==> proposal in old(proposals) && old(proposals)[proposal].endTime > now
                             && voter in stakeEntries && (proposal, voter) !in old(voteRecords)
                             && Tallied(old(proposals)[proposal], voteYes, stakeEntries[voter].amount).Ok?
      ensures res.Pass? ==> proposals == old(proposals)[proposal :=
                                 Tallied(old(proposals)[proposal], voteYes, stakeEntries[voter].amount).value]
      ensures res.Pass? ==> voteRecords == old(voteRecords)[(proposal, voter) :=
                                 VoteRecord(voter, proposal, voteYes, stakeEntries[voter].amount)]
      ensures res.Fail? ==> proposals == old(proposals) && voteRecords == old(voteRecords)
    {
      // The framework first loads the existing accounts, then creates the
      // `init` vote record, and only then evaluates the `constraint`s.
      if proposal !in proposals || voter !in stakeEntries {
        return Fail(AccountNotInitialized);
      }
      if (proposal, voter) in voteRecords {
        return Fail(AccountAlreadyInUse);
      }
      var p := proposals[proposal];
      if !(p.endTime > now) {
        return Fail(ConstraintRaw);
      }
      var stake := stakeEntries[voter];
      // The `stake_entry.staker == voter` constraint holds by `StakingInv`.
      assert StakeSound(stakeEntries, tokens, voter);
      assert stake.staker == voter;
      var votingPower := stake.amount;
      var tallied := Tallied(p, voteYes, votingPower);
      if tallied.Err? {
        return Fail(tallied.error);
      }
      var record := VoteRecord(voter, proposal, voteYes, votingPower);
      VoteKeepsGovernance(proposals, voteRecords, record, tallied.value);
      proposals := proposals[proposal := tallied.value];
      voteRecords := voteRecords[(proposal, voter) := record];
      res := Pass;
    }
  }
}
