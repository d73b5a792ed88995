/** The NFT records and the marketplace listing's life cycle. */
module Marketplace {
  import opened Common
  import opened Custody

  /** The `NftMetadata` record at `[b"nft_metadata", mint]`. */
  datatype NftMetadata = NftMetadata(mint: Pubkey, creator: Pubkey, name: string, symbol: string, uri: string)

  /** The `Listing` record at `[b"listing", mint]`. The escrow authority is
      the derived record `[b"escrow_authority", mint]`, named by its mint. */
  datatype Listing = Listing(
    seller: Pubkey,
    nftMint: Pubkey,
    price: U64,
    escrowTokenAccount: TokenAccount,
    escrowAuthority: Pubkey,
    isSold: bool)

  /** The listing `list_nft` stores for `seller` offering `mint` at `price`:
      unsold, with the escrow vault and authority derived from the mint. */
  function NewListing(seller: Pubkey, mint: Pubkey, price: U64): (l: Listing)
    ensures !l.isSold && l.seller == seller && l.nftMint == mint && l.price == price
    ensures l.escrowTokenAccount == EscrowVault(mint) && l.escrowAuthority == mint
  {
    Listing(seller, mint, price, EscrowVault(mint), mint, false)
  }

  /** The listing side of one `buy_nft` attempt whose transfers succeed
      (`transfersOk`) or not: the `is_sold == false` constraint is checked
      first, and the listing is marked sold only when the whole purchase
      goes through. */
  function BuyAttempt(l: Listing, transfersOk: bool): (r: Result<Listing>)
    ensures r.Ok? <==> !l.isSold && transfersOk
    ensures l.isSold ==> r == Err(ConstraintRaw)
    ensures r.Ok? ==> r.value == l.(isSold := true)
  {
    if l.isSold then Err(ConstraintRaw)
    else if !transfersOk then Err(InsufficientFunds)
    else Ok(l.(isSold := true))
  }

  /** A series of purchase attempts on one listing: the final listing and
      the number of attempts that succeeded. */
  function BuyAll(l: Listing, attempts: seq<bool>): (Listing, nat)
  {
    if attempts == [] then (l, 0)
    else
      var before := BuyAll(l, attempts[..|attempts| - 1]);
      match BuyAttempt(before.0, attempts[|attempts| - 1])
      case Err(_) => before
      case Ok(after) => (after, before.1 + 1)
  }

  /** A listing is sold at most once and stays sold: over any series of
      purchase attempts at most one succeeds, none does on a listing that was
      already sold, the listing ends sold exactly when it was sold before or
      one attempt succeeded, and nothing but the sold flag changes. */
  lemma {:induction false} SoldAtMostOnce(l: Listing, attempts: seq<bool>)
    ensures BuyAll(l, attempts).1 <= 1
    ensures l.isSold ==> BuyAll(l, attempts).1 == 0
    ensures BuyAll(l, attempts).0.isSold <==> l.isSold || BuyAll(l, attempts).1 == 1
    ensures BuyAll(l, attempts).0 == l.(isSold := BuyAll(l, attempts).0.isSold)
    decreases |attempts|
  {
    if attempts != [] {
      SoldAtMostOnce(l, attempts[..|attempts| - 1]);
    }
  }
}
