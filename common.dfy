/** Machine integers, errors and the arithmetic helpers shared by every
    instruction handler of the CFISH programs. */
module Common {

  /** Largest value of Rust's `u64`. */
  const U64_MAX: nat := 0xFFFF_FFFF_FFFF_FFFF

  /** `24 * 60 * 60`: the day length every handler divides timestamps by. */
  const SECONDS_PER_DAY: nat := 24 * 60 * 60

  /** A Rust `u64` field or argument. */
  type U64 = x: int | 0 <= x <= U64_MAX

  /** An account address. Derived (program) addresses are not hashed here:
      a derived record is identified by the owner key(s) in its seeds. */
  type Pubkey = nat

  /** Why an instruction aborts. The first group is raised by the account
      validation the framework runs before a handler body; `Overflow` is the
      panic of `unwrap()` on a failed `checked_add`/`checked_sub`; the last
      three are the program's own `CustomError`. */
  datatype Error =
    | AccountAlreadyInUse     // `init` on an address that already holds a record
    | AccountNotInitialized   // an `Account<T>` whose record does not exist
    | ConstraintRaw           // a `constraint = ...` that evaluated to false
    | ConstraintHasOne        // a `has_one = ...` mismatch
    | InsufficientFunds       // a token or lamport transfer the source cannot cover
    | Overflow                // checked arithmetic returned `None` and was unwrapped
    | DailyLimitExceeded
    | VestingNotStarted
    | NoRewardsToRelease

  /** The result of an instruction: it either applies completely or aborts. */
  datatype Outcome = Pass | Fail(error: Error)

  /** The result of a computation that can abort the instruction. */
  datatype Result<T> = Ok(value: T) | Err(error: Error)

  /** `a.checked_add(b)` on `u64`, with the `unwrap()` failure as `Overflow`. */
  function CheckedAdd(a: U64, b: U64): Result<U64>
  {
    if a + b <= U64_MAX then Ok(a + b) else Err(Overflow)
  }

  /** `a.checked_sub(b)` on `u64`, with the `unwrap()` failure as `Overflow`. */
  function CheckedSub(a: U64, b: U64): Result<U64>
  {
    if b <= a then Ok(a - b) else Err(Overflow)
  }

  /** `seconds / (24 * 60 * 60)` on `i64`: Rust's division truncates toward
      zero, so a negative number of seconds gives a day count rounded up. */
  function WholeDays(seconds: int): (days: int)
    ensures 0 <= seconds ==> 0 <= days * SECONDS_PER_DAY <= seconds < days * SECONDS_PER_DAY + SECONDS_PER_DAY
    ensures seconds < 0 ==> seconds <= days * SECONDS_PER_DAY <= 0 && days * SECONDS_PER_DAY < seconds + SECONDS_PER_DAY
  {
    if seconds >= 0 then seconds / SECONDS_PER_DAY else -((-seconds) / SECONDS_PER_DAY)
  }

  /** An `f64 as u64` cast: values below zero become 0 and values above the
      range become `u64::MAX` (Rust's casts saturate). */
  function SaturatingCast(x: int): U64
  {
    if x < 0 then 0 else if x > U64_MAX then U64_MAX else x
  }

  /** Multiplying by a natural number keeps order. */
  lemma {:induction false} MulLe(x: int, y: int, k: nat)
    requires x <= y
    ensures x * k <= y * k
  {
    if k > 0 {
      MulLe(x, y, k - 1);
      assert x * k == x * (k - 1) + x;
      assert y * k == y * (k - 1) + y;
    }
  }

  /** Multiplication by a positive number can be cancelled from `<`. */
  lemma MulLt(x: int, y: int, d: int)
    requires 0 < d && x * d < y * d
    ensures x < y
  {
  }

  /** Division by a positive divisor undoes multiplication by it. */
  lemma MulDiv(x: int, d: int)
    requires 0 < d
    ensures x * d / d == x
  {
    var q := x * d / d;
    assert q * d <= x * d < q * d + d;
    assert (x + 1) * d == x * d + d && (q + 1) * d == q * d + d;
    MulLt(q, x + 1, d);
    MulLt(x, q + 1, d);
  }

  /** Integer division by a positive divisor is monotone. */
  lemma DivMonotone(a: int, b: int, d: int)
    requires a <= b && 0 < d
    ensures a / d <= b / d
  {
    var qa, qb := a / d, b / d;
    assert qa * d <= a;
    assert b < qb * d + d;
    assert qa * d < (qb + 1) * d;
    MulLt(qa, qb + 1, d);
  }
}
