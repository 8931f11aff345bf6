/**
 * The arithmetic of the balance engine.
 *
 * A balance between two persons in one currency stores a non-negative magnitude; who owes
 * whom is recorded only in each person's `credited` flag (true: that person is owed the
 * magnitude). A confirmed transfer of `amount` from a provider (who pays) to a receiver
 * either grows the debt, when the provider is already the debtor, or pays it down; when
 * paying down goes below zero the magnitude becomes its absolute value and both flags
 * are inverted.
 */
module BalanceEngine {

  /** The new magnitude of a balance, and whether the credited flags are inverted. */
  datatype Update = Update(value: int, flipped: bool)

  function Abs(x: int): (r: nat)
    ensures r == x || r == -x
  {
    if x < 0 then -x else x
  }

  /** The signed position of a person on a balance: what that person is owed, negative
      when the person owes. */
  function Position(credited: bool, value: int): int {
    if credited then value else -value
  }

  /** Applies a transfer of `amount` to a balance of magnitude `value`. The receiver is
      credited exactly when the provider is the debtor, so the receiver's position rises by
      the amount and the provider's falls by it, whichever branch is taken; the flags are
      inverted only when the amount exceeds what the provider was owed (a result of
      exactly zero is not a flip), and a non-negative magnitude stays non-negative. */
  function Apply(value: int, providerIsDebtor: bool, amount: int): (u: Update)
    ensures value >= 0 && amount >= 0 ==> u.value >= 0
    ensures u.flipped <==> !providerIsDebtor && value - amount < 0
    ensures Position(providerIsDebtor != u.flipped, u.value) == Position(providerIsDebtor, value) + amount
    ensures Position(!providerIsDebtor != u.flipped, u.value) == Position(!providerIsDebtor, value) - amount
  {
    if providerIsDebtor then Update(value + amount, false)
    else
      var paid := value - amount;
      if paid < 0 then Update(Abs(paid), true) else Update(paid, false)
  }

  // ---------------------------------------------------------------------------
  // A sequence of transfers between the same two persons A and B
  // ---------------------------------------------------------------------------

  /** A confirmed transfer between A and B; `toA` when A is the receiver. */
  datatype Transfer = Transfer(toA: bool, amount: int)

  /** One balance between A and B: its magnitude and A's credited flag (B's is the opposite). */
  datatype PairBalance = PairBalance(value: int, aCredited: bool)

  function PositionOfA(b: PairBalance): int {
    Position(b.aCredited, b.value)
  }

  /** The update `update_balance` makes for one transfer, seen from A. */
  function Step(b: PairBalance, t: Transfer): PairBalance {
    // The provider is B when A receives, and B is the debtor exactly when A is credited.
    var providerIsDebtor := if t.toA then b.aCredited else !b.aCredited;
    var u := Apply(b.value, providerIsDebtor, t.amount);
    PairBalance(u.value, b.aCredited != u.flipped)
  }

  function Replay(b: PairBalance, ts: seq<Transfer>): PairBalance
    decreases |ts|
  {
    if ts == [] then b else Replay(Step(b, ts[0]), ts[1..])
  }

  /** What the transfers move to A: amounts A receives minus amounts A pays. */
  function NetToA(ts: seq<Transfer>): int {
    if ts == [] then 0
    else (if ts[0].toA then ts[0].amount else -ts[0].amount) + NetToA(ts[1..])
  }

  predicate NonNegativeAmounts(ts: seq<Transfer>) {
    forall i :: 0 <= i < |ts| ==> ts[i].amount >= 0
  }

  /** One step moves A's position by exactly the signed amount. */
  lemma StepPosition(b: PairBalance, t: Transfer)
    ensures PositionOfA(Step(b, t)) == PositionOfA(b) + (if t.toA then t.amount else -t.amount)
  {
  }

  /** After any sequence of transfers, A's position is the starting position plus what the
      transfers moved to A: the balance is a running net sum, whatever flips happened. */
  lemma {:induction false} ReplayPosition(b: PairBalance, ts: seq<Transfer>)
    ensures PositionOfA(Replay(b, ts)) == PositionOfA(b) + NetToA(ts)
    decreases |ts|
  {
    if ts != [] {
      StepPosition(b, ts[0]);
      ReplayPosition(Step(b, ts[0]), ts[1..]);
    }
  }

  /** With non-negative amounts a non-negative magnitude is never stored negative. */
  lemma {:induction false} ReplayNonNegative(b: PairBalance, ts: seq<Transfer>)
    requires b.value >= 0 && NonNegativeAmounts(ts)
    ensures Replay(b, ts).value >= 0
    decreases |ts|
  {
    if ts != [] {
      assert ts[0].amount >= 0;
      ReplayNonNegative(Step(b, ts[0]), ts[1..]);
    }
  }

  /** The stored magnitude is the size of the net debt between A and B. */
  lemma ReplayMagnitude(b: PairBalance, ts: seq<Transfer>)
    requires b.value >= 0 && NonNegativeAmounts(ts)
    ensures Replay(b, ts).value == Abs(PositionOfA(b) + NetToA(ts))
  {
    ReplayPosition(b, ts);
    ReplayNonNegative(b, ts);
  }
}
