# CFISH programs in Dafny

A model of the CFISH Solana/Anchor programs. It covers two files.

- `cfish_full_contract.rs` has nine instruction handlers:
  - an NFT marketplace with escrow: `mint_nft`, `list_nft`, `buy_nft`;
  - staking: `stake`, `unstake`;
  - rate-limited rewards with linear vesting: `distribute_reward`, `release_vested_reward`;
  - stake-weighted governance: `create_proposal`, `vote`.
- `cfish_staking_program.rs` is a separate variant of `stake` and `unstake`.

The model treats the runtime as a keyed record store:
- **Derived addresses.** Each record sits at a derived address. The store keys it by the owner keys in its seeds.
- **`init`.** The record must be absent. Otherwise the handler fails with `AccountAlreadyInUse`.
- **`Account<T>`.** The record must exist. Otherwise the handler fails with `AccountNotInitialized`.
- **`init_if_needed`.** The handler works on a zero-filled record when none exists.
- **`constraint` and `has_one`.** These become checks with the framework's error.

SPL token balances are a map from token accounts to `u64` balances. A CPI `transfer` is `Custody.Move`: an all-or-nothing move that fails on a missing account, insufficient funds or overflow. Native lamports are a second balance map.

Each handler is a method of a class whose fields are the record maps. The store is written only when a handler returns `Pass`. Any failure leaves every record and balance as it was, which is the transaction's all-or-nothing rule.

The arithmetic is pure functions in their own modules:
- the checked `u64` operations that `unwrap()` aborts on;
- the `i64` day division, which truncates toward zero;
- the 1%-per-day reward;
- the daily grant counter;
- the vesting formula;
- the vote tally.

Each of these has lemmas about series of calls.

## Module layout

| module | file | what it holds |
|---|---|---|
| `Common` | common.dfy | `u64` range, errors, checked arithmetic, `i64` day division, saturating `f64` cast, multiplication/division lemmas |
| `Custody` | custody.dfy | token accounts, `Move`, `Open`, and conservation of the total balance |
| `Marketplace` | marketplace.dfy | `NftMetadata`, `Listing`, the sale transition and its series |
| `Staking` | staking.dfy | `StakeEntry`, the reward formula, the stake and unstake updates, series of stakes |
| `Vesting` | vesting.dfy | `RewardTracker` and the daily cap, `VestingEntry`, vesting and release |
| `Governance` | governance.dfy | `Proposal`, `VoteRecord`, the tally update, series of votes, totals over stored records |
| `CfishInvariants` | cfish_invariants.dfy | the store invariants and their preservation by each update |
| `CfishContract` | cfish_contract.dfy | class `Cfish`: the nine handlers of the full program |
| `StakingProgram` | staking_program.dfy | class `CfishStaking`: the variant `stake`/`unstake` and repeated unstakes |

## Behaviour worth knowing

The model follows the code, including where it does less than the names and comments in it suggest.

- **A second `stake` fails.** In the full program the stake authority is an `init` record (cfish_full_contract.rs:407-414). A second `stake` by the same staker therefore fails with `AccountAlreadyInUse`, and stakes never accumulate there, although the handler adds to the entry with `checked_add` (cfish_full_contract.rs:119). Only the variant (cfish_staking_program.rs:86-99) accumulates repeated stakes.
- **A second `distribute_reward` fails.** The vesting entry is an `init` record keyed by user and mint (cfish_full_contract.rs:487-494). A second grant for the same user and mint fails with `AccountAlreadyInUse`; it does not create another entry, so the daily cap of 5 (cfish_full_contract.rs:171-173) is reached only across different mints.
- **The vested amount is not clamped to the total.** The formula is unclamped (cfish_full_contract.rs:244), although the entry is described as a 180-day schedule (cfish_full_contract.rs:183). `Vesting.VestedOvershoots` shows that it keeps growing past the end of the schedule.
- **Voting after the window gives `ConstraintRaw`.** The window is an account `constraint` (cfish_full_contract.rs:523), so a late vote fails with that, not with a dedicated error. The framework checks it only after loading the stake entry and creating the vote record, so a late vote without a stake entry fails with `AccountNotInitialized`, and a late repeated vote with `AccountAlreadyInUse`.
- **Each unstake is paid from the stake vault alone.** The program itself only ever moves the principal into that vault; the 1% daily reward (cfish_full_contract.rs:135) is never funded by any instruction. Unless someone else tops the vault up, a positive reward makes the transfer fail: `Staking.UnfundedReward` states this for a vault holding exactly the principal.
- **`buy_nft` pays a `seller` account chosen by the caller.** The account is annotated as validated by the listing (cfish_full_contract.rs:347), but nothing ties it to `listing.seller` (cfish_full_contract.rs:346-348). The model pays the account given.
- **The reward vault's authority record is never created.** `release_vested_reward` requires it (cfish_full_contract.rs:564-568), but no instruction creates it. `Cfish` takes its existence as a deployment constant.
- **`Proposal.executed` is never set.** It is written once, as `false`, at creation. The governance invariant records that it stays `false`.
- **The variant's `unstake` never resets the entry.** The reset is commented out (cfish_staking_program.rs:57-59), so the entry keeps its principal. Every further call owes the principal again out of the same vault. `StakingProgram.UnstakeAllDrains` and `StakingProgram.SecondUnstakeFails` state the consequence.

## Model

| member | source | states |
|---|---|---|
| CfishContract.Cfish.constructor | cfish_full_contract.rs:583-670 | a deployment with wallets and reward vaults and no records satisfies every store invariant |
| CfishContract.Cfish.MintNft | cfish_full_contract.rs:15-33 | the metadata record is created once per mint; a second mint of the same mint fails with `AccountAlreadyInUse` and changes nothing |
| CfishContract.Cfish.ListNft | cfish_full_contract.rs:36-60 | fails `AccountNotInitialized` without the seller's wallet and `AccountAlreadyInUse` when the mint is already listed; otherwise succeeds exactly when the wallet holds a unit, moves exactly one unit into the new escrow vault, records an unsold listing with the seller, mint, price and escrow keys, keeps the store invariants and the token total |
| CfishContract.Cfish.BuyNft | cfish_full_contract.rs:63-99 | succeeds exactly when `Marketplace.BuyAttempt` admits the listing with both transfers going through, so never on a sold listing; moves exactly the price from buyer to the given seller (credited from zero if it held no lamports) and exactly one unit from escrow to the buyer's wallet (opened if needed), stores `BuyAttempt`'s sold listing and changes nothing else; on any failure no balance or listing changes |
| CfishContract.Cfish.Stake | cfish_full_contract.rs:102-126 | succeeds at most once per staker (the stake authority is created); moves exactly `amount` into the stake vault and writes the entry with principal `amount`, clock `now`, the duration and no claimed rewards; fails without change when the wallet is short |
| CfishContract.Cfish.Unstake | cfish_full_contract.rs:129-162 | pays principal plus the 1%-per-day reward from the stake vault, then zeroes the principal and adds the reward to the claimed total; aborts without change on any overflow or short vault |
| CfishContract.Cfish.DistributeReward | cfish_full_contract.rs:165-188 | on the tracker's day increments then checks the cap of 5, on a new day restarts at 1; on success creates the vesting entry (zero released, starting a day later, 180 days long); a failed call leaves tracker and entries unchanged |
| CfishContract.Cfish.ReleaseVestedReward | cfish_full_contract.rs:233-271 | fails `VestingNotStarted` before the start, `Overflow` when less has vested than was released, `NoRewardsToRelease` when nothing new has vested, and with the transfer's error when the vault cannot pay; otherwise pays exactly the newly vested amount from the reward vault and raises the released amount to the vested amount; any failure changes nothing |
| CfishContract.Cfish.CreateProposal | cfish_full_contract.rs:191-208 | creates the proposal once per (proposer, title) with zero totals, not executed, ending `votingPeriod` after `now` |
| CfishContract.Cfish.Vote | cfish_full_contract.rs:211-230 | fails `AccountNotInitialized` without the proposal or a stake entry, then `AccountAlreadyInUse` when the voter already voted on it, then `ConstraintRaw` when the window has closed; otherwise adds the staked amount to exactly one total (checked) and stores the vote record; the totals keep equalling the recorded power per side |
| CfishInvariants.MoveKeepsMarketInv | cfish_full_contract.rs:297-339 | a transfer that touches no escrow vault keeps every listing sound |
| CfishInvariants.OpenKeepsMarketInv | cfish_full_contract.rs:359-365 | opening a buyer's wallet or a stake vault keeps every listing sound |
| CfishInvariants.ListKeepsMarketInv | cfish_full_contract.rs:310-338 | a new listing with its unit escrowed keeps the marketplace invariant: vault exists exactly with the listing, and an unsold listing's vault holds its unit |
| CfishInvariants.BuyKeepsMarketInv | cfish_full_contract.rs:349-356 | delivering the escrowed unit and marking the listing sold keeps the marketplace invariant |
| CfishInvariants.MoveKeepsStakingInv | cfish_full_contract.rs:385-426 | a transfer that touches no stake vault keeps every stake entry backed by its vault |
| CfishInvariants.OpenKeepsStakingInv | cfish_full_contract.rs:359-365 | opening an escrow vault or a wallet keeps every stake entry backed by its vault |
| CfishInvariants.StakeKeepsStakingInv | cfish_full_contract.rs:398-422 | a first stake with its principal moved into the new vault keeps the staking invariant |
| CfishInvariants.UnstakeKeepsStakingInv | cfish_full_contract.rs:454-460 | paying out of a stake vault and zeroing the principal keeps the staking invariant, so the entry's staker always matches its seeds |
| CfishInvariants.GrantKeepsRewardsInv | cfish_full_contract.rs:479-494 | a grant that passes the daily check keeps every daily count within the cap and every vesting entry owned by its key's user with the 180-day duration |
| CfishInvariants.ReleaseKeepsRewardsInv | cfish_full_contract.rs:557-563 | raising an entry's released amount keeps the rewards invariant, so the `has_one = beneficiary` link keeps holding |
| CfishInvariants.CreateKeepsGovernance | cfish_full_contract.rs:506-513 | a new proposal with zero totals is consistent with the stored vote records, none of which is on it |
| CfishInvariants.VoteKeepsGovernance | cfish_full_contract.rs:533-540 | storing one new vote record and adding its power to its side keeps each proposal's totals equal to the power recorded per side |
| Common.WholeDays | cfish_full_contract.rs:134 | the `i64` division by 86400 truncates toward zero, bracketing the seconds for both signs |
| Custody.Move | cfish_full_contract.rs:48 | a transfer succeeds exactly when both accounts exist, the source holds the amount and the target does not overflow; it moves exactly the amount and changes no other account |
| Custody.Open | cfish_full_contract.rs:359-365 | `init_if_needed` on a token account keeps an existing balance and opens a missing one at zero |
| Custody.MoveIntoOpened | cfish_full_contract.rs:310-318 | moving into a freshly opened vault leaves it holding exactly the amount moved |
| Custody.OpenKeepsTotal | cfish_full_contract.rs:359-365 | opening an account creates no funds |
| Custody.MoveKeepsTotal | cfish_full_contract.rs:92 | a transfer neither creates nor destroys funds |
| Marketplace.NewListing | cfish_full_contract.rs:51-56 | the stored listing is unsold and holds the seller, mint, price and escrow keys |
| Marketplace.BuyAttempt | cfish_full_contract.rs:349-356 | a purchase is admissible only while `is_sold` is false and on success only sets it |
| Marketplace.SoldAtMostOnce | cfish_full_contract.rs:95 | over any series of purchase attempts at most one succeeds, none on a sold listing, and a sold listing stays sold |
| Staking.Staked | cfish_full_contract.rs:118-122 | the stake update succeeds exactly when principal plus amount fits a `u64`, failing with `Overflow`; it writes the staker, the summed principal, the clock reading `now`, the new duration and zero claimed rewards |
| Staking.StakeReward | cfish_full_contract.rs:135 | the reward is 1% of the principal per whole day, rounded down; zero for zero or negative days; saturates at `u64::MAX` |
| Staking.UnstakePayout | cfish_full_contract.rs:146 | the payout is principal plus reward, failing with `Overflow` exactly when it passes `u64::MAX`; with no whole day elapsed it is the principal |
| Staking.ClaimRewards | cfish_full_contract.rs:157-158 | the principal becomes zero and the claimed total grows by exactly the reward, failing on overflow; nothing else changes |
| Staking.StakeAllAccumulates | cfish_staking_program.rs:28-32 | a series of stakes succeeds exactly when the sum fits a `u64`, and leaves the summed principal, the last call's time and duration, and no claimed rewards |
| Staking.StakeThenUnstake | cfish_staking_program.rs:42-55 | after any series of stakes, the unstake payout is the summed principal plus 1% of it per day since the last stake |
| Staking.StakeRewardMonotone | cfish_full_contract.rs:134-135 | the reward never decreases with the days staked |
| Staking.UnfundedReward | cfish_full_contract.rs:146-154 | when the stake vault holds exactly the principal and a reward is due, the payout fails for insufficient funds |
| StakingProgram.CfishStaking.constructor | cfish_staking_program.rs:139-146 | a deployment without stake vaults or entries satisfies the entry invariant |
| StakingProgram.CfishStaking.Stake | cfish_staking_program.rs:12-35 | opens vault and entry if needed, moves exactly `amount` in, adds it to the existing principal (checked), restarts the clock, overwrites the duration, clears claimed rewards; the transfer's error wins over the addition's; any failure changes nothing |
| StakingProgram.CfishStaking.Unstake | cfish_staking_program.rs:37-62 | pays principal plus reward from the vault, failing on overflow or a short vault, and never changes any stake entry |
| StakingProgram.UnstakeAllDrains | cfish_staking_program.rs:55-59 | repeated unstakes succeed exactly while the vault holds the principal once per call plus every reward, and then that much has moved to the wallet |
| StakingProgram.SecondUnstakeFails | cfish_staking_program.rs:57-59 | after a single stake of a positive amount, two unstakes in a row always fail |
| Vesting.RecordGrant | cfish_full_contract.rs:170-177 | on the same day the count is incremented then checked against 5 and fails `DailyLimitExceeded` exactly when already at 5; a new day restarts at 1 |
| Vesting.GrantsWithinDay | cfish_full_contract.rs:170-177 | within one day exactly the first calls up to the remaining quota pass and every later one fails |
| Vesting.FiveGrantsPerDay | cfish_full_contract.rs:171-176 | from a tracker of an earlier day, calls one to five of a day pass and the sixth and later fail |
| Vesting.NewVestingEntry | cfish_full_contract.rs:180-184 | the entry has the user, the amount, nothing released, a start one day after `now` and a 180-day duration |
| Vesting.Vested | cfish_full_contract.rs:244 | the vested amount is zero before the start, at most the total within the schedule and the total at its end |
| Vesting.VestedMonotone | cfish_full_contract.rs:242-244 | the vested amount never decreases with time |
| Vesting.VestedOvershoots | cfish_full_contract.rs:244 | the unclamped formula reaches twice the total at twice the duration |
| Vesting.ReleaseStep | cfish_full_contract.rs:239-267 | fails `VestingNotStarted` before the start; after it, fails exactly when nothing new has vested: with `Overflow` (the unwrapped `checked_sub`) when less has vested than was released, with `NoRewardsToRelease` when exactly that much has; on success pays exactly the increase and raises the released amount to the vested amount |
| Vesting.ReleaseAll | cfish_full_contract.rs:239-267 | a series of releases changes nothing in the entry but the released amount |
| Vesting.ReleaseAllPaysIncrease | cfish_full_contract.rs:245-267 | over any series of releases the released amount never decreases, the payouts sum to its increase, and within the schedule it never passes the total |
| Governance.NewProposal | cfish_full_contract.rs:197-204 | a new proposal has zero totals, is not executed and ends `votingPeriod` after it starts at `now` |
| Governance.Tallied | cfish_full_contract.rs:215-221 | a vote adds its power to exactly one total with a checked addition, failing with `Overflow`; the other total and every other field are unchanged |
| Governance.TallyAllCounts | cfish_full_contract.rs:217-221 | counting a series of votes succeeds exactly when both totals fit a `u64`, and each total grows by its own side's power |
| Governance.PowerSplits | cfish_full_contract.rs:215-226 | all cast power lands in exactly one of the two totals |
| Governance.TallyMatchesRecords | cfish_full_contract.rs:200-226 | after a series of votes on a new proposal the two totals add up to the power recorded in the vote records |
| Governance.StoredFresh | cfish_full_contract.rs:533-540 | a (proposal, voter) key that no ballot carries holds no stored vote record |
| Governance.StoredTally | cfish_full_contract.rs:215-226 | when every ballot is on one proposal and no voter casts two, the stored records' per-side tallies are the yes and no power of the ballots |
| Governance.TallyAllMatchesStore | cfish_full_contract.rs:200-226 | counting ballots into a new proposal one vote at a time gives per side exactly the tally of the vote records those votes store |
| Governance.TallyOfUnvoted | cfish_full_contract.rs:202-203 | a proposal no record votes on has zero recorded power |
| Governance.TallyAdd | cfish_full_contract.rs:533-540 | storing a new vote record adds its power to its own side of its own proposal and nothing else |

## Left out

- Derived-address hashing and bump search: seeds are an opaque composite key, and an address either holds a record or not.
- The vesting authority's signer-seed mismatch (cfish_full_contract.rs:251-254 against 565) is not modelled: it is a runtime signing detail, and the transfer is treated as authorised.
- The stake authority's bump in the variant's `unstake` (cfish_staking_program.rs:52) is not modelled: the authority is a plain `AccountInfo`, which has no `bump` field, so this is a signing detail of code the model treats as authorised.
- The authority bumps of the full program are not modelled: `list_nft` never writes `escrow_authority.bump` (cfish_full_contract.rs:36-60) and `stake` never writes `stake_authority.bump` (cfish_full_contract.rs:102-126), so the signer seeds of the escrow release (cfish_full_contract.rs:78-82) and of the `unstake` payout (cfish_full_contract.rs:139-143) carry bump 0. Like the other derived-address details, the model treats both transfers as authorised.
- SPL token, associated-token and system-program internals are not modelled. A transfer is the abstract `Custody.Move`.
- The mint bindings of token accounts are not modelled: a stake vault is keyed by its staker alone, and `Mint` accounts are assumed to exist.
- Floating point is left out: the reward and vesting formulas use exact integer floor division, keeping the cast's saturation at 0 and `u64::MAX`.
- Staking.StakeReward: can be one unit above the source's `f64` reward at ordinary values, because `0.01` is not exact in binary; for 29 units staked 100 days the `f64` product is just below 29 and the source pays 28 where the model pays 29.
- Vesting.Vested: can differ by one unit from the source's `f64` formula at ordinary values, because `elapsed / duration` is rounded before the multiplication; for a total of 301895898422089 after 12968520 seconds the `f64` result is one above the exact floor.
- Timestamps are unbounded integers, so `i64` overflow of `now + voting_period` or `now + 86400` is not modelled.
- `daily_count += 1` is not modelled with `u64` wrap-around. The rewards invariant keeps the count at most 5.
- Rent, `space` sizing, payer lamports for account creation, and string length limits are left out.
- `msg!` logging is left out.
- The clock is an input: `now` is a parameter of each handler.
- `mint_nft`'s CPI calls are not modelled. The handler records the metadata only, and `nftMetadata` is not read by any other handler.
- Vesting.Vested: requires a positive duration, which every stored entry has (180 days, kept by the rewards invariant).
- CfishContract.Cfish.Vote: the voter must have a stake entry, as `Account<StakeEntry>` demands. The `stake_entry.staker == voter` constraint holds by the staking invariant and appears as a proved assertion, not as a failure branch.
- CfishContract.Cfish.Unstake: the `stake_entry.staker == staker` constraint likewise holds by the staking invariant and appears as a proved assertion.
- StakingProgram.CfishStaking.Unstake: the `has_one = staker` check holds by the entry invariant and appears as a proved assertion.
- CfishContract.Cfish.ReleaseVestedReward: the `has_one = beneficiary` check holds by the rewards invariant and appears as a proved assertion.
