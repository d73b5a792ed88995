/** The staking ledger's record and its arithmetic: what `stake` and
    `unstake` do to one `StakeEntry`, and the 1%-per-whole-day reward. */
module Staking {
  import opened Common
  import opened Custody

  /** The `StakeEntry` record at `[b"stake_entry", staker]`. */
  datatype StakeEntry = StakeEntry(
    staker: Pubkey,
    amount: U64,
    stakeStartTime: int,
    durationDays: U64,
    claimedRewards: U64)

  /** The zero-filled record `init_if_needed` creates before the first stake. */
  const FreshStakeEntry := StakeEntry(0, 0, 0, 0, 0)

  /** Whole days elapsed since the entry's stake time, as the `i64` division
      `(now - stake_start_time) / (24 * 60 * 60)` gives them. */
  function ElapsedDays(e: StakeEntry, now: int): int
  {
    WholeDays(now - e.stakeStartTime)
  }

  /** `(amount as f64 * 0.01 * elapsed_days as f64) as u64`, in exact integer
      arithmetic: 1% of the principal per whole day, rounded down, with the
      cast's saturation at 0 and at `u64::MAX`. */
  function StakeReward(amount: U64, elapsedDays: int): (r: U64)
    ensures elapsedDays <= 0 ==> r == 0
    ensures 0 <= elapsedDays && amount * elapsedDays / 100 <= U64_MAX ==>
              100 * r <= amount * elapsedDays < 100 * r + 100
    ensures 0 <= elapsedDays && amount * elapsedDays / 100 > U64_MAX ==> r == U64_MAX
  {
    SaturatingCast(amount * elapsedDays / 100)
  }

  /** The stake handler's update of the entry: the staker key, the checked
      accumulation of the principal, the reward clock restarted at `now`, the
      duration overwritten and the claimed rewards cleared. */
  function Staked(e: StakeEntry, staker: Pubkey, amount: U64, durationDays: U64, now: int): (r: Result<StakeEntry>)
    ensures r.Ok? <==> e.amount + amount <= U64_MAX
    ensures r.Err? ==> r.error == Overflow
    ensures r.Ok? ==> r.value.amount == e.amount + amount && r.value.staker == staker
    ensures r.Ok? ==> r.value.stakeStartTime == now && r.value.durationDays == durationDays
    ensures r.Ok? ==> r.value.claimedRewards == 0
  {
    match CheckedAdd(e.amount, amount)
    case Err(err) => Err(err)
    case Ok(sum) => Ok(StakeEntry(staker, sum, now, durationDays, 0))
  }

  /** What `unstake` transfers out of the stake vault: the principal plus
      the reward, with a checked addition. */
  function UnstakePayout(e: StakeEntry, now: int): (r: Result<U64>)
    ensures r.Err? <==> e.amount + StakeReward(e.amount, ElapsedDays(e, now)) > U64_MAX
    ensures r.Err? ==> r.error == Overflow
    ensures r.Ok? ==> e.amount <= r.value
    ensures ElapsedDays(e, now) <= 0 ==> r == Ok(e.amount)
  {
    CheckedAdd(e.amount, StakeReward(e.amount, ElapsedDays(e, now)))
  }

  /** The full contract's reset after the payout: the principal drops to
      zero and the reward is added (checked) to the claimed total. */
  function ClaimRewards(e: StakeEntry, now: int): (r: Result<StakeEntry>)
    ensures r.Ok? ==> r.value.amount == 0
    ensures r.Ok? ==> r.value.claimedRewards == e.claimedRewards + StakeReward(e.amount, ElapsedDays(e, now))
    ensures r.Ok? ==> r.value.(amount := e.amount, claimedRewards := e.claimedRewards) == e
    ensures r.Err? <==> e.claimedRewards + StakeReward(e.amount, ElapsedDays(e, now)) > U64_MAX
  {
    match CheckedAdd(e.claimedRewards, StakeReward(e.amount, ElapsedDays(e, now)))
    case Err(err) => Err(err)
    case Ok(c) => Ok(e.(amount := 0, claimedRewards := c))
  }

  /** One `stake` call: its arguments and the clock reading it sees. */
  datatype StakeCall = StakeCall(amount: U64, durationDays: U64, time: int)

  /** The sum of the amounts of `calls`. */
  function TotalStaked(calls: seq<StakeCall>): nat
  {
    if calls == [] then 0 else TotalStaked(calls[..|calls| - 1]) + calls[|calls| - 1].amount
  }

  /** A staker's successive `stake` calls applied to the entry, the first
      failing one aborting the series. */
  function StakeAll(e: StakeEntry, staker: Pubkey, calls: seq<StakeCall>): Result<StakeEntry>
  {
    if calls == [] then Ok(e)
    else
      var last := calls[|calls| - 1];
      match StakeAll(e, staker, calls[..|calls| - 1])
      case Err(err) => Err(err)
      case Ok(before) => Staked(before, staker, last.amount, last.durationDays, last.time)
  }

  /** Repeated stakes accumulate: the series succeeds exactly when the
      principal plus all staked amounts fits in a `u64`, and then the entry
      holds that sum, the last call's time and duration, and no claimed
      rewards. */
  lemma {:induction false} StakeAllAccumulates(e: StakeEntry, staker: Pubkey, calls: seq<StakeCall>)
    requires calls != []
    ensures StakeAll(e, staker, calls).Ok? <==> e.amount + TotalStaked(calls) <= U64_MAX
    ensures StakeAll(e, staker, calls).Ok? ==>
              StakeAll(e, staker, calls).value ==
                StakeEntry(staker, e.amount + TotalStaked(calls), calls[|calls| - 1].time,
                           calls[|calls| - 1].durationDays, 0)
    decreases |calls|
  {
    var init := calls[..|calls| - 1];
    if init != [] {
      StakeAllAccumulates(e, staker, init);
    }
  }

  /** The reward-clock reset: after any series of stakes, `unstake` pays
      the summed principal plus 1% of that sum per whole day elapsed since
      the LAST stake, however long the earlier amounts were staked. */
  lemma StakeThenUnstake(staker: Pubkey, calls: seq<StakeCall>, now: int)
    requires calls != []
    requires TotalStaked(calls) <= U64_MAX
    ensures StakeAll(FreshStakeEntry, staker, calls).Ok?
    ensures UnstakePayout(StakeAll(FreshStakeEntry, staker, calls).value, now)
              == CheckedAdd(TotalStaked(calls),
                            StakeReward(TotalStaked(calls), WholeDays(now - calls[|calls| - 1].time)))
  {
    StakeAllAccumulates(FreshStakeEntry, staker, calls);
  }

  /** The reward grows with the time staked. */
  lemma {:induction false} StakeRewardMonotone(amount: U64, d1: int, d2: int)
    requires d1 <= d2
    ensures StakeReward(amount, d1) <= StakeReward(amount, d2)
  {
    if 0 <= d1 {
      assert amount * d1 <= amount * d2 by {
        assert amount * d2 - amount * d1 == amount * (d2 - d1);
      }
    } else {
      assert StakeReward(amount, d1) == 0;
    }
  }

  /** A reward is paid from the stake vault, which the staker funds only
      with the principal: when the vault holds exactly the principal and a
      reward is due, the payout transfer fails for insufficient funds. */
  lemma UnfundedReward(e: StakeEntry, now: int, tokens: map<TokenAccount, U64>, to: TokenAccount)
    requires StakeVault(e.staker) in tokens && to in tokens
    requires tokens[StakeVault(e.staker)] == e.amount
    requires UnstakePayout(e, now).Ok?
    requires StakeReward(e.amount, ElapsedDays(e, now)) > 0
    ensures Move(tokens, StakeVault(e.staker), to, UnstakePayout(e, now).value) == Err(InsufficientFunds)
  {
  }
}
