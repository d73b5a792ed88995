/** The stand-alone staking program: a `stake` and an `unstake` over the
    same `StakeEntry` record as the full program, with two differences.
    `stake` never creates the stake authority (it is an unchecked derived
    address) and opens both the stake vault and the entry only if needed,
    so a staker may stake again and the principal accumulates. `unstake`
    pays principal plus reward out of the vault and leaves the entry as it
    was, so the same principal is owed again on the next call.

    As in the full program, the store is written only when a handler
    succeeds. */
module StakingProgram {
  import opened Common
  import opened Custody
  import opened Staking

  /** The stake entry of `s`, if any, belongs to `s`, and the stake vault of
      `s` exists exactly when the entry does (both are opened by the first
      successful `stake`). */
  ghost predicate EntrySound(stakeEntries: map<Pubkey, StakeEntry>, tokens: map<TokenAccount, U64>, s: Pubkey)
  {
    (StakeVault(s) in tokens <==> s in stakeEntries) && (s in stakeEntries ==> stakeEntries[s].staker == s)
  }

  /** The variant's `unstake` repeated at the clock readings `times`, on
      the token balances alone: the entry never changes, so every call
      pays `UnstakePayout(e, t)` from the same vault into the same wallet,
      the first failing call aborting the series. */
  function UnstakeAll(bal: map<TokenAccount, U64>, e: StakeEntry, wallet: TokenAccount, times: seq<int>)
    : Result<map<TokenAccount, U64>>
  {
    if times == [] then Ok(bal)
    else
      match UnstakeAll(bal, e, wallet, times[..|times| - 1])
      case Err(err) => Err(err)
      case Ok(before) =>
        match UnstakePayout(e, times[|times| - 1])
        case Err(err) => Err(err)
        case Ok(payout) => Move(before, StakeVault(e.staker), wallet, payout)
  }

  /** What the calls at `times` owe in all: the principal each time, plus
      each call's reward. */
  function Owed(e: StakeEntry, times: seq<int>): nat
  {
    if times == [] then 0
    else Owed(e, times[..|times| - 1]) + e.amount + StakeReward(e.amount, ElapsedDays(e, times[|times| - 1]))
  }

  /** Repeated unstakes drain the vault: as long as the wallet can absorb
      everything owed, the series succeeds exactly when the vault holds the
      principal once per call plus all rewards, and then exactly that much
      has left the vault for the wallet. */
  lemma {:induction false} UnstakeAllDrains(bal: map<TokenAccount, U64>, e: StakeEntry, wallet: TokenAccount,
                                            times: seq<int>)
    requires StakeVault(e.staker) in bal && wallet in bal && !wallet.StakeVault?
    requires bal[wallet] + Owed(e, times) <= U64_MAX
    ensures UnstakeAll(bal, e, wallet, times).Ok? <==> Owed(e, times) <= bal[StakeVault(e.staker)]
    ensures UnstakeAll(bal, e, wallet, times).Ok? ==>
              var after := UnstakeAll(bal, e, wallet, times).value;
              && after.Keys == bal.Keys
              && after[StakeVault(e.staker)] == bal[StakeVault(e.staker)] - Owed(e, times)
              && after[wallet] == bal[wallet] + Owed(e, times)
    decreases |times|
  {
    if times != [] {
      var init := times[..|times| - 1];
      UnstakeAllDrains(bal, e, wallet, init);
    }
  }

  /** After a single first stake the vault holds exactly the principal, so
      a second unstake always fails when anything was staked: the first
      call already took the whole principal (or failed itself). */
  lemma SecondUnstakeFails(bal: map<TokenAccount, U64>, e: StakeEntry, wallet: TokenAccount, t1: int, t2: int)
    requires StakeVault(e.staker) in bal && bal[StakeVault(e.staker)] == e.amount && e.amount > 0
    requires !wallet.StakeVault?
    ensures UnstakeAll(bal, e, wallet, [t1, t2]).Err?
  {
    var vault := StakeVault(e.staker);
    assert [t1, t2][..1] == [t1];
    assert [t1][..0] == [];
    assert UnstakeAll(bal, e, wallet, []) == Ok(bal);
    var first := UnstakeAll(bal, e, wallet, [t1]);
    if first.Ok? {
      var p1 := UnstakePayout(e, t1).value;
      assert first == Move(bal, vault, wallet, p1);
      assert first.value[vault] == 0;
      var p2 := UnstakePayout(e, t2);
      if p2.Ok? {
        assert UnstakeAll(bal, e, wallet, [t1, t2]) == Move(first.value, vault, wallet, p2.value);
      }
    }
  }

  class CfishStaking {
    /** SPL token balances, by existing token account. */
    var tokens: map<TokenAccount, U64>
    /** `StakeEntry` records, by staker. */
    var stakeEntries: map<Pubkey, StakeEntry>

    ghost predicate Valid()
      reads this
    {
      forall s :: EntrySound(stakeEntries, tokens, s)
    }

    /** A deployment with the given token accounts, none of them a stake
        vault, and no stake entries. */
    constructor(tokens: map<TokenAccount, U64>)
      requires forall a :: a in tokens ==> !a.StakeVault?
      ensures Valid()
      ensures this.tokens == tokens && stakeEntries == map[]
    {
      this.tokens := tokens;
      stakeEntries := map[];
      new;
      forall s ensures EntrySound(stakeEntries, this.tokens, s) {
        assert StakeVault(s) !in tokens;
      }
    }

    /** `stake`: opens the stake vault and the zero-filled entry if they do
        not exist, moves `amount` from the staker's wallet into the vault,
        and adds `amount` to the principal (checked) while restarting the
        reward clock, overwriting the duration and clearing the claimed
        rewards. The transfer happens before the addition, so its error is
        the one reported when both would fail. */
    method Stake(staker: Pubkey, cfishMint: Pubkey, amount: U64, durationDays: U64, now: int) returns (res: Outcome)
      requires Valid()
      modifies this
      ensures Valid()
      ensures var prior := if staker in old(stakeEntries) then old(stakeEntries)[staker] else FreshStakeEntry;
              var moved := Move(Open(old(tokens), StakeVault(staker)), Wallet(staker, cfishMint), StakeVault(staker), amount);
              && (Wallet(staker, cfishMint) !in old(tokens) ==> res == Fail(AccountNotInitialized))
              && (Wallet(staker, cfishMint) in old(tokens) && moved.Err? ==> res == Fail(moved.error))
              && (res.Pass? <==> Wallet(staker, cfishMint) in old(tokens) && moved.Ok?
                                 && Staked(prior, staker, amount, durationDays, now).Ok?)
              && (res.Pass? ==> tokens == moved.value)
              && (res.Pass? ==> stakeEntries == old(stakeEntries)[staker := Staked(prior, staker, amount, durationDays, now).value])
      ensures res.Pass? ==> stakeEntries[staker].amount == (if staker in old(stakeEntries) then old(stakeEntries)[staker].amount else 0) + amount
      ensures res.Fail? ==> tokens == old(tokens) && stakeEntries == old(stakeEntries)
      ensures Total(tokens) == Total(old(tokens))
    {
      var wallet := Wallet(staker, cfishMint);
      if wallet !in tokens {
        return Fail(AccountNotInitialized);
      }
      var prior := if staker in stakeEntries then stakeEntries[staker] else FreshStakeEntry;
      var staged := Open(tokens, StakeVault(staker));
      var moved := Move(staged, wallet, StakeVault(staker), amount);
      if moved.Err? {
        return Fail(moved.error);
      }
      var entry := Staked(prior, staker, amount, durationDays, now);
      if entry.Err? {
        return Fail(entry.error);
      }
      OpenKeepsTotal(tokens, StakeVault(staker));
      MoveKeepsTotal(staged, wallet, StakeVault(staker), amount);
      var entries' := stakeEntries[staker := entry.value];
      forall s ensures EntrySound(entries', moved.value, s) {
        assert EntrySound(stakeEntries, tokens, s);
      }
      tokens := moved.value;
      stakeEntries := entries';
      res := Pass;
    }

    /** `unstake`: pays principal plus reward from the stake vault to the
        staker's wallet and leaves the entry unchanged. */
    method Unstake(staker: Pubkey, cfishMint: Pubkey, now: int) returns (res: Outcome)
      requires Valid()
      modifies this`tokens
      ensures Valid()
      ensures Wallet(staker, cfishMint) !in old(tokens) || staker !in stakeEntries ==> res == Fail(AccountNotInitialized)
      ensures res.Pass? <==> Wallet(staker, cfishMint) in old(tokens) && staker in stakeEntries
                             && UnstakeAll(old(tokens), stakeEntries[staker], Wallet(staker, cfishMint), [now]).Ok?
      ensures res.Pass? ==> tokens == UnstakeAll(old(tokens), stakeEntries[staker], Wallet(staker, cfishMint), [now]).value
      ensures res.Pass? ==> tokens[Wallet(staker, cfishMint)] == old(tokens)[Wallet(staker, cfishMint)] + Owed(stakeEntries[staker], [now])
      ensures res.Fail? ==> tokens == old(tokens)
      ensures Total(tokens) == Total(old(tokens))
    {
      var wallet := Wallet(staker, cfishMint);
      // The stake vault exists exactly when the entry does (`EntrySound`).
      assert EntrySound(stakeEntries, tokens, staker);
      if wallet !in tokens || staker !in stakeEntries {
        return Fail(AccountNotInitialized);
      }
      var entry := stakeEntries[staker];
      // The `has_one = staker` constraint holds by `EntrySound`.
      assert entry.staker == staker;
      var payout := UnstakePayout(entry, now);
      if payout.Err? {
        return Fail(payout.error);
      }
      var moved := Move(tokens, StakeVault(staker), wallet, payout.value);
      assert [now][..0] == [];
      if moved.Err? {
        return Fail(moved.error);
      }
      MoveKeepsTotal(tokens, StakeVault(staker), wallet, payout.value);
      forall s ensures EntrySound(stakeEntries, moved.value, s) {
        assert EntrySound(stakeEntries, tokens, s);
      }
      tokens := moved.value;
      res := Pass;
    }
  }
}
