/** Custody of balances. The token program (SPL token accounts) and the
    system program (lamports) are external to the CFISH programs; both are
    modelled as a map from an existing account to its balance, and a
    transfer as one all-or-nothing move between two entries of that map. */
module Custody {
  import opened Common

  /** The token accounts the programs touch. `Wallet(owner, mint)` is the
      associated token account of `owner` for `mint`; the other three are
      the program-controlled vaults at the derived addresses
      `[b"escrow", mint]`, `[b"stake_account", staker]` and
      `[b"authority_token_account", mint]`. */
  datatype TokenAccount =
    | Wallet(owner: Pubkey, mint: Pubkey)
    | EscrowVault(nftMint: Pubkey)
    | StakeVault(staker: Pubkey)
    | RewardVault(rewardMint: Pubkey)

  /** A transfer of `amount` from `from` to `to`: both accounts must exist,
      the source must hold `amount`, a transfer to the same account changes
      nothing, and the destination may not pass `u64::MAX`. Either the whole
      move happens or the balances are left as they were. */
  function Move<K(==)>(bal: map<K, U64>, from: K, to: K, amount: U64): (r: Result<map<K, U64>>)
    ensures r.Ok? <==> from in bal && to in bal && amount <= bal[from]
                       && (from == to || bal[to] + amount <= U64_MAX)
    ensures r.Err? && from in bal && to in bal ==>
              r.error == (if bal[from] < amount then InsufficientFunds else Overflow)
    ensures r.Ok? ==> r.value.Keys == bal.Keys
    ensures r.Ok? && from != to ==> r.value[from] == bal[from] - amount && r.value[to] == bal[to] + amount
    ensures r.Ok? ==> forall k :: k in bal && k != from && k != to ==> r.value[k] == bal[k]
    ensures r.Ok? && from == to ==> r.value == bal
  {
    if from !in bal || to !in bal then Err(AccountNotInitialized)
    else if bal[from] < amount then Err(InsufficientFunds)
    else if from == to then Ok(bal)
    else if bal[to] + amount > U64_MAX then Err(Overflow)
    else Ok(bal[from := bal[from] - amount][to := bal[to] + amount])
  }

  /** Creates `account` with a zero balance if it does not exist yet: what
      `init_if_needed` does to a token account. */
  function Open<K(==)>(bal: map<K, U64>, account: K): (r: map<K, U64>)
    ensures account in r && r.Keys == bal.Keys + {account}
    ensures forall k :: k in bal ==> r[k] == bal[k]
    ensures account !in bal ==> r[account] == 0
  {
    if account in bal then bal else bal[account := 0]
  }

  /** Moving into a freshly opened account leaves it holding exactly the
      amount moved. */
  lemma MoveIntoOpened<K>(bal: map<K, U64>, from: K, to: K, amount: U64)
    requires from in bal && to !in bal && amount <= bal[from]
    ensures Move(Open(bal, to), from, to, amount) == Ok(bal[from := bal[from] - amount][to := amount])
  {
    var zeroed := bal[to := 0];
    assert Open(bal, to) == zeroed;
    assert zeroed[from := bal[from] - amount][to := amount] == bal[from := bal[from] - amount][to := amount];
  }

  /** The sum of all balances in `bal`. */
  ghost function Total<K>(bal: map<K, U64>): nat
    decreases |bal|
  {
    if bal == map[] then 0
    else
      var k :| k in bal;
      bal[k] + Total(bal - {k})
  }

  /** The total can be split at any account, not only at the one `Total`
      happens to pick. */
  lemma {:induction false} TotalSplit<K>(bal: map<K, U64>, k: K)
    requires k in bal
    ensures Total(bal) == bal[k] + Total(bal - {k})
    decreases |bal|
  {
    var j :| j in bal && Total(bal) == bal[j] + Total(bal - {j});
    if j != k {
      assert bal - {j} - {k} == bal - {k} - {j};
      TotalSplit(bal - {j}, k);
      TotalSplit(bal - {k}, j);
    }
  }

  /** Opening an account with a zero balance adds nothing to the total. */
  lemma OpenKeepsTotal<K>(bal: map<K, U64>, account: K)
    ensures Total(Open(bal, account)) == Total(bal)
  {
    if account !in bal {
      var r := Open(bal, account);
      TotalSplit(r, account);
      assert r - {account} == bal;
    }
  }

  /** A successful move neither creates nor destroys funds. */
  lemma MoveKeepsTotal<K>(bal: map<K, U64>, from: K, to: K, amount: U64)
    requires Move(bal, from, to, amount).Ok?
    ensures Total(Move(bal, from, to, amount).value) == Total(bal)
  {
    var r := Move(bal, from, to, amount).value;
    if from != to {
      TotalSplit(bal, from);
      TotalSplit(bal - {from}, to);
      TotalSplit(r, from);
      TotalSplit(r - {from}, to);
      assert r - {from} - {to} == bal - {from} - {to};
    }
  }
}
