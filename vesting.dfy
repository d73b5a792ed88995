/** Reward distribution and vesting: the per-user daily grant counter and
    the linear release of one `VestingEntry`. */
module Vesting {
  import opened Common

  /** Grants a user may receive on one calendar day. */
  const DAILY_REWARD_CAP: nat := 5

  /** A vesting schedule starts one day after the grant ... */
  const VESTING_DELAY: nat := 24 * 60 * 60

  /** ... and runs for 180 days. */
  const VESTING_DURATION: nat := 180 * 24 * 60 * 60

  /** The `RewardTracker` record at `[b"reward_tracker", user]`. */
  datatype RewardTracker = RewardTracker(lastRewardDay: int, dailyCount: U64)

  /** The zero-filled record `init_if_needed` creates before the first grant. */
  const FreshRewardTracker := RewardTracker(0, 0)

  /** The daily-limit step of `distribute_reward` at clock reading `now`. On
      the tracker's day the count is incremented first and then checked
      against the cap; on any other day the tracker moves to today with a
      count of one. */
  function RecordGrant(t: RewardTracker, now: int): (r: Result<RewardTracker>)
    ensures r.Ok? ==> r.value.lastRewardDay == WholeDays(now) && 1 <= r.value.dailyCount <= DAILY_REWARD_CAP
    ensures r.Err? <==> t.lastRewardDay == WholeDays(now) && t.dailyCount >= DAILY_REWARD_CAP
    ensures r.Err? ==> r.error == DailyLimitExceeded
    ensures r.Ok? && t.lastRewardDay == WholeDays(now) ==> r.value.dailyCount == t.dailyCount + 1
    ensures t.lastRewardDay != WholeDays(now) ==> r == Ok(RewardTracker(WholeDays(now), 1))
  {
    var today := WholeDays(now);
    if t.lastRewardDay == today then
      var count := t.dailyCount + 1;
      if count <= DAILY_REWARD_CAP then Ok(t.(dailyCount := count)) else Err(DailyLimitExceeded)
    else
      Ok(RewardTracker(today, 1))
  }

  /** Which of a series of `distribute_reward` calls pass the daily check.
      A call that fails leaves the tracker as it was. */
  function GrantOutcomes(t: RewardTracker, times: seq<int>): (passed: seq<bool>)
    ensures |passed| == |times|
    decreases |times|
  {
    if times == [] then []
    else
      match RecordGrant(t, times[0])
      case Ok(next) => [true] + GrantOutcomes(next, times[1..])
      case Err(_) => [false] + GrantOutcomes(t, times[1..])
  }

  /** Grants still available to a tracker on `day`. */
  function Quota(t: RewardTracker, day: int): nat
  {
    if t.lastRewardDay != day then DAILY_REWARD_CAP
    else if t.dailyCount >= DAILY_REWARD_CAP then 0
    else DAILY_REWARD_CAP - t.dailyCount
  }

  /** Within one day, exactly the first `Quota` calls pass and every later
      one fails. */
  lemma {:induction false} GrantsWithinDay(t: RewardTracker, day: int, times: seq<int>)
    requires forall i :: 0 <= i < |times| ==> WholeDays(times[i]) == day
    ensures forall i :: 0 <= i < |times| ==> (GrantOutcomes(t, times)[i] <==> i < Quota(t, day))
    decreases |times|
  {
    if times != [] {
      var rest := times[1..];
      assert forall i :: 0 <= i < |rest| ==> WholeDays(rest[i]) == day by {
        forall i | 0 <= i < |rest| ensures WholeDays(rest[i]) == day {
          assert rest[i] == times[i + 1];
        }
      }
      match RecordGrant(t, times[0])
      case Ok(next) =>
        GrantsWithinDay(next, day, rest);
        assert Quota(next, day) + 1 == Quota(t, day);
      case Err(_) =>
        GrantsWithinDay(t, day, rest);
    }
  }

  /** The daily cap: for a tracker last used on an earlier day (a fresh one
      included), calls one to five on the same day pass and the sixth and
      later fail. */
  lemma FiveGrantsPerDay(t: RewardTracker, day: int, times: seq<int>)
    requires t.lastRewardDay != day
    requires forall i :: 0 <= i < |times| ==> WholeDays(times[i]) == day
    ensures forall i :: 0 <= i < |times| ==> (GrantOutcomes(t, times)[i] <==> i < 5)
  {
    GrantsWithinDay(t, day, times);
  }

  /** The `VestingEntry` record at `[b"vesting_entry", user, mint]`. */
  datatype VestingEntry = VestingEntry(
    beneficiary: Pubkey,
    totalAmount: U64,
    releasedAmount: U64,
    startTime: int,
    duration: int)

  /** The entry `distribute_reward` creates for a grant of `amount` to `user`
      at clock reading `now`. */
  function NewVestingEntry(user: Pubkey, amount: U64, now: int): (v: VestingEntry)
    ensures v.beneficiary == user && v.totalAmount == amount && v.releasedAmount == 0
    ensures v.startTime == now + SECONDS_PER_DAY && v.duration == 180 * SECONDS_PER_DAY
  {
    VestingEntry(user, amount, 0, now + VESTING_DELAY, VESTING_DURATION)
  }

  /** `(total as f64 * (elapsed as f64 / duration as f64)) as u64`, in exact
      integer arithmetic: the linear share of `total` after `elapsed` of
      `duration` seconds, rounded down. Nothing clamps `elapsed` to
      `duration`; only the cast's saturation bounds the result. */
  function Vested(total: U64, elapsed: int, duration: int): (r: U64)
    requires duration > 0
    ensures elapsed <= 0 ==> r == 0
    ensures 0 <= elapsed <= duration ==> r <= total
    ensures elapsed == duration ==> r == total
  {
    if elapsed <= 0 then
      MulLe(elapsed, 0, total);
      DivMonotone(total * elapsed, 0, duration);
      SaturatingCast(total * elapsed / duration)
    else
      ScaleBound(total, elapsed, duration);
      SaturatingCast(total * elapsed / duration)
  }

  /** Helper for `Vested`: a fraction of at most one scales `total` down. */
  lemma ScaleBound(total: nat, elapsed: nat, duration: nat)
    requires 0 < elapsed && 0 < duration
    ensures elapsed <= duration ==> total * elapsed / duration <= total
    ensures elapsed == duration ==> total * elapsed / duration == total
  {
    if elapsed <= duration {
      MulLe(elapsed, duration, total);
      DivMonotone(total * elapsed, total * duration, duration);
      MulDiv(total, duration);
    }
  }

  /** Vesting only grows with time. */
  lemma VestedMonotone(total: U64, e1: int, e2: int, duration: int)
    requires duration > 0 && e1 <= e2
    ensures Vested(total, e1, duration) <= Vested(total, e2, duration)
  {
    MulLe(e1, e2, total);
    DivMonotone(total * e1, total * e2, duration);
  }

  /** Past the end of the schedule the unclamped formula keeps growing: at
      twice the duration it reaches twice the total. */
  lemma VestedOvershoots(total: U64, duration: int)
    requires duration > 0 && 0 < total && 2 * total <= U64_MAX
    ensures Vested(total, 2 * duration, duration) == 2 * total > total
  {
    assert total * (2 * duration) == (2 * total) * duration;
    MulDiv(2 * total, duration);
  }

  /** The release step of `release_vested_reward` at clock reading `now`:
      the entry with its new released amount and the amount to transfer. */
  datatype Release = Release(entry: VestingEntry, amount: U64)

  /** `release_vested_reward`'s computation on the entry. It fails before the
      start time, aborts when less is vested than already released (the
      unwrapped `checked_sub`), and fails when nothing new has vested; on
      success the released amount rises to the vested amount and exactly the
      increase is paid out. */
  function ReleaseStep(v: VestingEntry, now: int): (r: Result<Release>)
    requires v.duration > 0
    ensures now < v.startTime ==> r == Err(VestingNotStarted)
    ensures now >= v.startTime ==>
              (r.Err? <==> Vested(v.totalAmount, now - v.startTime, v.duration) <= v.releasedAmount)
    ensures now >= v.startTime && r.Err? ==>
              r.error == (if Vested(v.totalAmount, now - v.startTime, v.duration) < v.releasedAmount
                          then Overflow else NoRewardsToRelease)
    ensures r.Ok? ==> r.value.amount > 0
    ensures r.Ok? ==> r.value.entry.releasedAmount == v.releasedAmount + r.value.amount
    ensures r.Ok? ==> r.value.entry.releasedAmount == Vested(v.totalAmount, now - v.startTime, v.duration)
    ensures r.Ok? ==> r.value.entry == v.(releasedAmount := r.value.entry.releasedAmount)
    ensures r.Ok? && now <= v.startTime + v.duration ==> r.value.entry.releasedAmount <= v.totalAmount
  {
    if now < v.startTime then Err(VestingNotStarted)
    else
      var vested := Vested(v.totalAmount, now - v.startTime, v.duration);
      match CheckedSub(vested, v.releasedAmount)
      case Err(err) => Err(err)
      case Ok(amount) =>
        if amount == 0 then Err(NoRewardsToRelease)
        else
          // `released_amount.checked_add(amount)` is `vested` and cannot overflow.
          Ok(Release(v.(releasedAmount := v.releasedAmount + amount), amount))
  }

  /** A series of release attempts: the final entry and the total paid.
      An attempt that fails changes nothing, and no attempt changes anything
      but the released amount. */
  function ReleaseAll(v: VestingEntry, times: seq<int>): (r: (VestingEntry, nat))
    requires v.duration > 0
    ensures r.0 == v.(releasedAmount := r.0.releasedAmount)
    decreases |times|
  {
    if times == [] then (v, 0)
    else
      var before := ReleaseAll(v, times[..|times| - 1]);
      match ReleaseStep(before.0, times[|times| - 1])
      case Err(_) => before
      case Ok(step) => (step.entry, before.1 + step.amount)
  }

  /** Vesting is monotone and convergent: over any series of release
      attempts the released amount never decreases, the sum of all payouts
      is exactly its increase, and if every attempt is made no later than the
      end of the schedule it never passes the total. */
  lemma {:induction false} ReleaseAllPaysIncrease(v: VestingEntry, times: seq<int>)
    requires v.duration > 0
    requires v.releasedAmount <= v.totalAmount
    ensures ReleaseAll(v, times).0.releasedAmount >= v.releasedAmount
    ensures ReleaseAll(v, times).0.releasedAmount == v.releasedAmount + ReleaseAll(v, times).1
    ensures (forall i :: 0 <= i < |times| ==> times[i] <= v.startTime + v.duration) ==>
              ReleaseAll(v, times).0.releasedAmount <= v.totalAmount
    decreases |times|
  {
    if times != [] {
      var init := times[..|times| - 1];
      ReleaseAllPaysIncrease(v, init);
      if forall i :: 0 <= i < |times| ==> times[i] <= v.startTime + v.duration {
        assert forall i :: 0 <= i < |init| ==> init[i] <= v.startTime + v.duration by {
          forall i | 0 <= i < |init| ensures init[i] <= v.startTime + v.duration {
            assert init[i] == times[i];
          }
        }
      }
    }
  }
}
