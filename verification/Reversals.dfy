/** Refunds and disputes of one payment: how much is taken back, from whom, and
    what the payment row then says. */
module Reversals {
  import opened Common
  import opened CreditLedger

  const TWO64: nat := 0x1_0000_0000_0000_0000
  const MAX_CREDITS: nat := 1_000_000

  datatype Status = Settled | RefundPending | PartiallyRefunded | Refunded | Disputed | Chargeback | ReversalReview

  /** A row of portal_payment_transactions. */
  datatype Payment = Payment(intent: string, recipient: Account, credits: nat, refunded: nat, amountTotal: nat,
      status: Status)

  datatype Ruling = Won | Lost | OtherRuling

  /** charge.refunded, charge.dispute.created and charge.dispute.closed. */
  datatype Reversal = Refund(amountRefunded: nat) | DisputeCreated | DisputeClosed(ruling: Ruling)

  // ------------------------------------------------------------ how much

  /** The share of the credits that a refund of part of the total takes back,
      rounded up in unsigned 64-bit arithmetic and cut to 32 bits. */
  function PartialReversal(credits: nat, refunded: nat, total: nat): nat
    requires total > 0
  {
    (credits * refunded + total - 1) % TWO64 / total % TWO32
  }

  function Desired(p: Payment, r: Reversal): nat {
    match r
    case Refund(amount) =>
      if 0 < amount < p.amountTotal then PartialReversal(p.credits, amount, p.amountTotal) else p.credits
    case DisputeCreated => p.credits
    case DisputeClosed(ruling) => if ruling == Lost then p.credits else 0
  }

  /** `q` is `a / b` rounded up. */
  predicate IsCeiling(q: nat, a: nat, b: nat) {
    q * b >= a && (q == 0 || (q - 1) * b < a)
  }

  lemma QuotientBounds(a: nat, b: nat)
    requires b > 0
    ensures (a / b) * b <= a < (a / b + 1) * b
  {
  }

  lemma QuotientBelow(a: nat, b: nat, k: nat)
    requires b > 0 && a < k * b
    ensures a / b < k
  {
    QuotientBounds(a, b);
    if a / b >= k { Monotone(b, k, a / b); }
  }

  /** A partial reversal never asks for more than was credited, wrap or not. */
  lemma PartialReversalBounded(credits: nat, refunded: nat, total: nat)
    requires credits < TWO32 && refunded < total
    ensures PartialReversal(credits, refunded, total) <= credits
    ensures PartialReversal(credits, refunded, total) == (credits * refunded + total - 1) % TWO64 / total
  {
    hide PartialReversal;
    var x := credits * refunded + total - 1;
    NumeratorBelow(credits, refunded, total);
    WrapShrinks(x);
    QuotientBelow(x % TWO64, total, credits + 1);
    FitsUint32(credits, refunded, total, x % TWO64);
  }

  lemma NumeratorBelow(credits: nat, refunded: nat, total: nat)
    requires refunded < total
    ensures credits * refunded + total - 1 < (credits + 1) * total
  {
    Monotone(credits, refunded, total);
  }

  lemma FitsUint32(credits: nat, refunded: nat, total: nat, w: nat)
    requires total > 0 && w == (credits * refunded + total - 1) % TWO64 && w / total < TWO32
    ensures PartialReversal(credits, refunded, total) == w / total
  {
    Unwrapped(w / total);
  }

  lemma Unwrapped(q: nat)
    requires q < TWO32
    ensures q % TWO32 == q
  {
  }

  lemma WrapShrinks(x: nat)
    ensures x % TWO64 <= x
  {
  }

  lemma Monotone(k: nat, a: nat, b: nat)
    requires a <= b
    ensures k * a <= k * b && a * k <= b * k
  {
  }

  /** A partial reversal is the exact ceiling of credits * refunded / total
      exactly when the 64-bit intermediate does not wrap. */
  lemma PartialReversalExactIff(credits: nat, refunded: nat, total: nat)
    requires credits < TWO32 && 0 < refunded < total < TWO64
    ensures IsCeiling(PartialReversal(credits, refunded, total), credits * refunded, total)
       <==> credits * refunded + total - 1 < TWO64
  {
    hide PartialReversal;
    var a := credits * refunded;
    var x := a + total - 1;
    PartialReversalBounded(credits, refunded, total);
    var q := PartialReversal(credits, refunded, total);
    assert q == x % TWO64 / total;
    QuotientBounds(x % TWO64, total);
    if x < TWO64 {
      assert x % TWO64 == x;
      assert (q + 1) * total == q * total + total;
      if q > 0 { assert (q - 1) * total == q * total - total; }
    } else {
      assert x % TWO64 <= x - TWO64 by { WrapLoses(x); }
      assert q * total <= x - TWO64 < a;
    }
  }

  lemma WrapLoses(x: nat)
    requires x >= TWO64
    ensures x % TWO64 <= x - TWO64
  {
    assert x == x / TWO64 * TWO64 + x % TWO64;
    assert x / TWO64 >= 1;
  }

  /** Credits up to a million and amounts below 2^43 never wrap, and then what is
      kept is never worth more than what was left paid. */
  lemma ReversalCoversTheRefund(credits: nat, refunded: nat, total: nat)
    requires credits <= MAX_CREDITS && 0 < refunded < total < 0x800_0000_0000
    ensures var q := PartialReversal(credits, refunded, total);
            && IsCeiling(q, credits * refunded, total) && q <= credits
            && (credits - q) * total <= credits * (total - refunded)
  {
    hide PartialReversal;
    Monotone(refunded, credits, MAX_CREDITS);
    assert MAX_CREDITS * refunded <= MAX_CREDITS * 0x800_0000_0000;
    PartialReversalExactIff(credits, refunded, total);
    PartialReversalBounded(credits, refunded, total);
    var q := PartialReversal(credits, refunded, total);
    assert (credits - q) * total == credits * total - q * total;
    assert credits * (total - refunded) == credits * total - credits * refunded;
  }

  lemma DesiredBounded(p: Payment, r: Reversal)
    requires p.credits < TWO32
    ensures Desired(p, r) <= p.credits
  {
    match r {
      case Refund(amount) =>
        if 0 < amount < p.amountTotal { PartialReversalBounded(p.credits, amount, p.amountTotal); }
      case _ =>
    }
  }

  /** How many credits an event wants to have been taken back in all: of a partial
      refund the share of the credits, rounded up (in 64 bits, where it wraps), of
      a full refund, an opened and a lost dispute everything, of any other closed
      dispute nothing. */
  ghost predicate AsksFor(p: Payment, r: Reversal, q: nat) {
    match r
    case Refund(amount) =>
      if 0 < amount < p.amountTotal then
        && q == (p.credits * amount + p.amountTotal - 1) % 0x1_0000_0000_0000_0000 / p.amountTotal
        && (p.credits * amount + p.amountTotal - 1 < 0x1_0000_0000_0000_0000 ==>
              IsCeiling(q, p.credits * amount, p.amountTotal))
      else q == p.credits
    case DisputeCreated => q == p.credits
    case DisputeClosed(Lost) => q == p.credits
    case DisputeClosed(_) => q == 0
  }

  /** An event asks for one number, no more than was credited. */
  lemma AsksForOne(p: Payment, r: Reversal) returns (q: nat)
    requires p.credits <= MAX_CREDITS
    ensures AsksFor(p, r, q) && (forall other :: AsksFor(p, r, other) ==> other == q)
    ensures q <= p.credits && q == Desired(p, r)
  {
    q := Desired(p, r);
    DesiredBounded(p, r);
    if r.Refund? && 0 < r.amountRefunded < p.amountTotal {
      PartialReversalBounded(p.credits, r.amountRefunded, p.amountTotal);
      if p.credits * r.amountRefunded + p.amountTotal - 1 < TWO64 {
        ExactUnlessWrapped(p.credits, r.amountRefunded, p.amountTotal);
      }
    }
  }

  lemma ExactUnlessWrapped(credits: nat, refunded: nat, total: nat)
    requires credits <= MAX_CREDITS && 0 < refunded < total && credits * refunded + total - 1 < TWO64
    ensures IsCeiling(PartialReversal(credits, refunded, total), credits * refunded, total)
  {
    hide PartialReversal;
    if total < TWO64 {
      PartialReversalExactIff(credits, refunded, total);
    } else {
      PartialReversalBounded(credits, refunded, total);
      assert credits * refunded == 0 && total - 1 == TWO64 - 1;
    }
  }

  // ------------------------------------------------------------ the transaction

  function NextStatus(p: Payment, r: Reversal): Status {
    match r
    case Refund(_) => if Desired(p, r) == p.credits then Refunded else PartiallyRefunded
    case DisputeCreated => Disputed
    case DisputeClosed(ruling) => if ruling == Won then Settled else Chargeback
  }

  function ToInt32(n: nat): int {
    if n < TWO31 then n else n - TWO32
  }

  /** The reversal's transaction on one payment row; None when a statement fails
      and everything is rolled back. */
  function Reverse(c: Core, checkout: string, p: Payment, r: Reversal): Option<(Core, Payment)> {
    var next := p.(status := NextStatus(p, r));
    if r == DisputeClosed(Won) && p.refunded > 0 && p.status == Disputed then
      match AddTo(c, p.recipient, p.refunded)
      case None => None
      case Some(credited) =>
        match Append(credited, Entry(p.recipient, p.refunded, Reversed(checkout)))
        case None => None
        case Some(done) => Some((done, next.(refunded := 0)))
    else if Desired(p, r) > p.refunded then
      var delta := Desired(p, r) - p.refunded;
      match TakeFrom(c, p.recipient, delta)
      case None => Some((c, next.(status := ReversalReview)))
      case Some(debited) =>
        match Append(debited, Entry(p.recipient, -ToInt32(delta), Reversed(checkout)))
        case None => None
        case Some(done) => Some((done, next.(refunded := Desired(p, r))))
    else Some((c, next))
  }

  /** What a reversal did to wallet, ledger and row, `q` being what it asked for. */
  ghost predicate Outcome(c: Core, checkout: string, p: Payment, r: Reversal, q: nat, d: Core, row: Payment) {
    var due := match r
      case Refund(_) => if q == p.credits then Refunded else PartiallyRefunded
      case DisputeCreated => Disputed
      case DisputeClosed(Won) => Settled
      case DisputeClosed(_) => Chargeback;
    if r == DisputeClosed(Won) && p.status == Disputed && p.refunded > 0 then
      // Everything ever taken is given back.
      row == p.(refunded := 0, status := Settled) && Posted(c, d, p.recipient, p.refunded, Reversed(checkout))
    else if q <= p.refunded then
      row == p.(status := due) && d == c
    else if q - p.refunded <= Balance(c, p.recipient) then
      row == p.(refunded := q, status := due) && Posted(c, d, p.recipient, p.refunded - q, Reversed(checkout))
    else
      row == p.(status := ReversalReview) && d == c
  }

  /** A won dispute gives back more than the balance column can hold. */
  predicate GivesBackTooMuch(c: Core, p: Payment, r: Reversal) {
    r == DisputeClosed(Won) && p.status == Disputed && p.refunded > 0 && Balance(c, p.recipient) + p.refunded >= TWO32
  }

  /** A reversal is rolled back only where giving back overflows the column, and
      otherwise does what its event asks for. */
  lemma ReversalDoes(c: Core, checkout: string, p: Payment, r: Reversal) returns (q: nat)
    requires Typed(c) && p.refunded <= p.credits <= MAX_CREDITS && p.recipient in c.wallets
    ensures AsksFor(p, r, q)
    ensures var done := Reverse(c, checkout, p, r);
            && (done == None <==> GivesBackTooMuch(c, p, r))
            && (done.Some? ==> Outcome(c, checkout, p, r, q, done.value.0, done.value.1))
  {
    hide AsksFor, PartialReversal;
    q := AsksForOne(p, r);
    DesiredBounded(p, r);
  }

  // ------------------------------------------------------------ what every reversal keeps

  /** The row agrees with the ledger: what it says was credited and taken back is
      what the ledger moved, all of it to or from the recipient. */
  ghost predicate Sound(c: Core, checkout: string, p: Payment) {
    && p.refunded <= p.credits <= MAX_CREDITS && p.recipient in c.wallets
    && (p.status in {Refunded, Disputed} ==> p.refunded == p.credits)
    && Paid(c, p.recipient, Credited(checkout)) == p.credits == Total(c, Credited(checkout))
    && Paid(c, p.recipient, Reversed(checkout)) == -(p.refunded as int) == Total(c, Reversed(checkout))
  }

  /** A reversal leaves the wallet alone or posts exactly the change of what was
      taken back. */
  lemma ReversePosts(c: Core, checkout: string, p: Payment, r: Reversal)
    requires Typed(c) && p.refunded <= p.credits <= MAX_CREDITS && p.recipient in c.wallets
    requires Reverse(c, checkout, p, r).Some?
    ensures var (d, q) := Reverse(c, checkout, p, r).value;
            && q.refunded <= q.credits && q == p.(refunded := q.refunded, status := q.status)
            && ((c == d && q.refunded == p.refunded)
                || Posted(c, d, p.recipient, p.refunded - q.refunded, Reversed(checkout)))
  {
    hide PartialReversal;
    DesiredBounded(p, r);
  }

  lemma ReverseStatus(c: Core, checkout: string, p: Payment, r: Reversal)
    requires p.refunded <= p.credits <= MAX_CREDITS && Reverse(c, checkout, p, r).Some?
    ensures var q := Reverse(c, checkout, p, r).value.1;
            q.status in {Refunded, Disputed} ==> q.refunded == q.credits
  {
    hide PartialReversal;
    DesiredBounded(p, r);
  }

  lemma ReverseKeepsSound(c: Core, checkout: string, p: Payment, r: Reversal)
    requires Typed(c) && Sound(c, checkout, p) && Reverse(c, checkout, p, r).Some?
    ensures var (d, q) := Reverse(c, checkout, p, r).value; Typed(d) && Sound(d, checkout, q)
  {
    hide Reverse, Typed;
    ReversePosts(c, checkout, p, r);
    ReverseStatus(c, checkout, p, r);
    var (d, q) := Reverse(c, checkout, p, r).value;
    if c != d || q.refunded != p.refunded {
      PostedConserves(c, d, p.recipient, p.refunded - q.refunded, Reversed(checkout));
      PostedSums(c, d, p.recipient, p.refunded - q.refunded, Reversed(checkout), p.recipient, Reversed(checkout));
      PostedSums(c, d, p.recipient, p.refunded - q.refunded, Reversed(checkout), p.recipient, Credited(checkout));
    }
  }

  /** The tables after a reversal: unchanged when it is rolled back. */
  function After(c: Core, checkout: string, p: Payment, r: Reversal): (Core, Payment) {
    match Reverse(c, checkout, p, r)
    case None => (c, p)
    case Some(done) => done
  }

  /** A won dispute gives back everything ever taken, an earlier refund included.
      So opening and winning a dispute restores the balance exactly when nothing
      had been refunded before, or the dispute could take nothing because the
      credits were spent, or everything had been refunded and giving it back
      does not fit the balance column. */
  lemma WonDisputeRestoresIff(c: Core, checkout: string, p: Payment)
    requires Typed(c) && p.refunded <= p.credits <= MAX_CREDITS && p.recipient in c.wallets
    ensures var (d, q) := After(c, checkout, p, DisputeCreated);
            var e := After(d, checkout, q, DisputeClosed(Won)).0;
            var balance := Balance(c, p.recipient);
            Balance(e, p.recipient) == balance
            <==> p.refunded == 0 || balance < p.credits - p.refunded
                 || (p.refunded == p.credits && balance + p.refunded >= TWO32)
  {
    DisputeTakes(c, checkout, p);
    var (d, q) := After(c, checkout, p, DisputeCreated);
    WinGives(d, checkout, q);
  }

  /** What opening a dispute takes: the rest of the credits or nothing. */
  lemma DisputeTakes(c: Core, checkout: string, p: Payment)
    requires Typed(c) && p.refunded <= p.credits <= MAX_CREDITS && p.recipient in c.wallets
    ensures var (d, q) := After(c, checkout, p, DisputeCreated);
            && Typed(d) && q.recipient == p.recipient && p.recipient in d.wallets && q.credits == p.credits
            && if Balance(c, p.recipient) < p.credits - p.refunded then
                 d == c && q == p.(status := ReversalReview)
               else
                 && q == p.(status := Disputed, refunded := p.credits)
                 && Balance(d, p.recipient) == Balance(c, p.recipient) - (p.credits - p.refunded)
  {
  }

  /** What winning it gives back: everything taken, if it is disputed and fits. */
  lemma WinGives(c: Core, checkout: string, p: Payment)
    requires Typed(c) && p.refunded <= p.credits <= MAX_CREDITS && p.recipient in c.wallets
    ensures var d := After(c, checkout, p, DisputeClosed(Won)).0;
            Balance(d, p.recipient) == Balance(c, p.recipient)
              + (if p.status == Disputed && Balance(c, p.recipient) + p.refunded < TWO32 then p.refunded else 0)
  {
  }

  // ------------------------------------------------------------ refunds commute

  function RefundAll(c: Core, checkout: string, p: Payment, amounts: seq<nat>): (Core, Payment)
    decreases amounts
  {
    if amounts == [] then (c, p)
    else
      match Reverse(c, checkout, p, Refund(amounts[0]))
      case None => RefundAll(c, checkout, p, amounts[1..])
      case Some((d, q)) => RefundAll(d, checkout, q, amounts[1..])
  }

  /** The most that was taken back or is asked for. */
  function Highest(p: Payment, amounts: seq<nat>): nat {
    if amounts == [] then p.refunded
    else
      var rest := Highest(p, amounts[1..]);
      if Desired(p, Refund(amounts[0])) > rest then Desired(p, Refund(amounts[0])) else rest
  }

  lemma {:induction false} HighestIsTheMaximum(p: Payment, amounts: seq<nat>)
    ensures Highest(p, amounts) >= p.refunded
    ensures forall a :: a in amounts ==> Desired(p, Refund(a)) <= Highest(p, amounts)
    ensures || Highest(p, amounts) == p.refunded
            || exists a :: a in amounts && Highest(p, amounts) == Desired(p, Refund(a))
  {
    hide Desired;
    if amounts != [] {
      HighestIsTheMaximum(p, amounts[1..]);
      assert forall a :: a in amounts ==> a == amounts[0] || a in amounts[1..];
    }
  }

  /** Starting from more already taken back only matters where it is the maximum. */
  lemma {:induction false} HighestFrom(p: Payment, q: Payment, amounts: seq<nat>)
    requires p.credits == q.credits && p.amountTotal == q.amountTotal && p.refunded <= q.refunded
    ensures Highest(q, amounts) == if Highest(p, amounts) > q.refunded then Highest(p, amounts) else q.refunded
  {
    hide PartialReversal;
    if amounts != [] { HighestFrom(p, q, amounts[1..]); }
  }

  /** One refund event. */
  lemma RefundStep(c: Core, checkout: string, p: Payment, amount: nat)
    requires Typed(c) && p.refunded <= p.credits <= MAX_CREDITS && p.recipient in c.wallets
    ensures var r := Reverse(c, checkout, p, Refund(amount));
            var desired := Desired(p, Refund(amount));
            var delta := desired - p.refunded;
            && r.Some? && Typed(r.value.0) && p.recipient in r.value.0.wallets && desired <= p.credits
            && r.value.1 == p.(refunded := r.value.1.refunded, status := r.value.1.status)
            && Balance(r.value.0, p.recipient) + r.value.1.refunded == Balance(c, p.recipient) + p.refunded
            && (delta <= 0 ==> r.value.1.refunded == p.refunded)
            && (0 < delta <= Balance(c, p.recipient) ==> r.value.1.refunded == desired)
            && (delta > Balance(c, p.recipient) ==> r.value.1.refunded == p.refunded)
            && (delta <= Balance(c, p.recipient) ==>
                  r.value.1.status == if desired == p.credits then Refunded else PartiallyRefunded)
  {
    hide PartialReversal, Typed;
    DesiredBounded(p, Refund(amount));
    ReverseConserves(c, checkout, p, Refund(amount));
  }

  lemma ReverseConserves(c: Core, checkout: string, p: Payment, r: Reversal)
    requires Typed(c) && p.refunded <= p.credits <= MAX_CREDITS && p.recipient in c.wallets
    ensures Reverse(c, checkout, p, r).Some? ==> Typed(Reverse(c, checkout, p, r).value.0)
  {
    hide Reverse, Typed;
    if Reverse(c, checkout, p, r).Some? {
      ReversePosts(c, checkout, p, r);
      var (d, q) := Reverse(c, checkout, p, r).value;
      if !(c == d && q.refunded == p.refunded) {
        PostedConserves(c, d, p.recipient, p.refunded - q.refunded, Reversed(checkout));
      }
    }
  }

  /** `m` is the most of what had been taken back and what the refund events ask
      for, each by itself. */
  ghost predicate IsMost(p: Payment, amounts: seq<nat>, m: nat) {
    && m >= p.refunded
    && (forall a, q: nat :: a in amounts && AsksFor(p, Refund(a), q) ==> q <= m)
    && (m == p.refunded || exists a :: a in amounts && AsksFor(p, Refund(a), m))
  }

  lemma HighestIsMost(p: Payment, amounts: seq<nat>)
    requires p.refunded <= p.credits <= MAX_CREDITS
    ensures IsMost(p, amounts, Highest(p, amounts)) && forall m :: IsMost(p, amounts, m) ==> m == Highest(p, amounts)
    ensures Highest(p, amounts) <= p.credits
  {
    hide AsksFor, Desired;
    HighestIsTheMaximum(p, amounts);
    forall a ensures AsksFor(p, Refund(a), Desired(p, Refund(a))) && Desired(p, Refund(a)) <= p.credits
      ensures forall q :: AsksFor(p, Refund(a), q) ==> q == Desired(p, Refund(a))
    {
      var q := AsksForOne(p, Refund(a));
    }
  }

  lemma {:induction false} RefundsReachHighest(c: Core, checkout: string, p: Payment, amounts: seq<nat>)
    requires Typed(c) && p.refunded <= p.credits <= MAX_CREDITS && p.recipient in c.wallets
    ensures var (d, q) := RefundAll(c, checkout, p, amounts);
            && (q.refunded == Highest(p, amounts) <==> Balance(c, p.recipient) >= Highest(p, amounts) - p.refunded)
            && p.refunded <= q.refunded <= Highest(p, amounts) <= p.credits
            && Balance(d, p.recipient) + q.refunded == Balance(c, p.recipient) + p.refunded
    decreases amounts
  {
    hide Reverse, Typed, Desired;
    if amounts != [] {
      RefundStep(c, checkout, p, amounts[0]);
      var (d, q) := Reverse(c, checkout, p, Refund(amounts[0])).value;
      RefundsReachHighest(d, checkout, q, amounts[1..]);
      HighestFrom(p, q, amounts[1..]);
      HighestIsTheMaximum(p, amounts[1..]);
    }
  }

  /** Any sequence of refund events ends with the most any of them asks for taken
      back exactly when the wallet covers it; in every case the wallet has lost
      precisely what was taken back. */
  lemma RefundsTakeTheMaximum(c: Core, checkout: string, p: Payment, amounts: seq<nat>) returns (most: nat)
    requires Typed(c) && p.refunded <= p.credits <= MAX_CREDITS && p.recipient in c.wallets
    ensures IsMost(p, amounts, most)
    ensures var (d, q) := RefundAll(c, checkout, p, amounts);
            && (q.refunded == most <==> Balance(c, p.recipient) >= most - p.refunded)
            && p.refunded <= q.refunded <= most <= p.credits
            && Balance(d, p.recipient) + q.refunded == Balance(c, p.recipient) + p.refunded
  {
    hide RefundAll, Highest, Typed, AsksFor;
    most := Highest(p, amounts);
    HighestIsMost(p, amounts);
    RefundsReachHighest(c, checkout, p, amounts);
  }

  /** The wallet covers whatever any of the refund events asks for. */
  ghost predicate Covers(c: Core, p: Payment, amounts: seq<nat>) {
    forall a, q: nat :: a in amounts && AsksFor(p, Refund(a), q) ==> Balance(c, p.recipient) >= q - p.refunded
  }

  /** The order and the repetition of refund events do not matter for the
      credits, as long as the wallet covers them. */
  lemma RefundsAreConfluent(c: Core, checkout: string, p: Payment, one: seq<nat>, two: seq<nat>)
    requires Typed(c) && p.refunded <= p.credits <= MAX_CREDITS && p.recipient in c.wallets
    requires forall a :: a in one <==> a in two
    requires Covers(c, p, one)
    ensures var (d, q) := RefundAll(c, checkout, p, one);
            var (e, s) := RefundAll(c, checkout, p, two);
            q.refunded == s.refunded && Balance(d, p.recipient) == Balance(e, p.recipient)
  {
    hide RefundAll, Highest, Typed, AsksFor;
    HighestIsMost(p, one);
    HighestIsMost(p, two);
    RefundsReachHighest(c, checkout, p, one);
    RefundsReachHighest(c, checkout, p, two);
  }

  /** The status is that of the last event alone: refunded exactly when it asks for
      everything. */
  lemma StatusIsTheLastEvents(c: Core, checkout: string, p: Payment, amounts: seq<nat>)
    requires Typed(c) && p.refunded <= p.credits <= MAX_CREDITS && p.recipient in c.wallets
    requires amounts != [] && Covers(c, p, amounts)
    ensures var status := RefundAll(c, checkout, p, amounts).1.status;
            && (status == Refunded || status == PartiallyRefunded)
            && (status == Refunded <==> AsksFor(p, Refund(amounts[|amounts| - 1]), p.credits))
  {
    hide RefundAll, Highest, Typed, AsksFor;
    HighestIsMost(p, amounts);
    LastStatus(c, checkout, p, amounts);
    var q := AsksForOne(p, Refund(amounts[|amounts| - 1]));
  }

  lemma {:induction false} LastStatus(c: Core, checkout: string, p: Payment, amounts: seq<nat>)
    requires Typed(c) && p.refunded <= p.credits <= MAX_CREDITS && p.recipient in c.wallets
    requires amounts != [] && Balance(c, p.recipient) >= Highest(p, amounts) - p.refunded
    ensures RefundAll(c, checkout, p, amounts).1.status
         == if Desired(p, Refund(amounts[|amounts| - 1])) == p.credits then Refunded else PartiallyRefunded
    decreases amounts
  {
    hide Reverse, Typed;
    RefundStep(c, checkout, p, amounts[0]);
    var (d, q) := Reverse(c, checkout, p, Refund(amounts[0])).value;
    if |amounts| > 1 {
      HighestFrom(p, q, amounts[1..]);
      LastStatus(d, checkout, q, amounts[1..]);
    } else {
      assert amounts[1..] == [];
    }
  }

  /** The status is not confluent: a partial refund event arriving after the full
      one leaves the row partially refunded with everything taken back. */
  lemma StatusDependsOnTheOrder(checkout: string)
    ensures var p := Payment("pi", 1, 100, 0, 1000, Settled);
            var c := Core(map[1 := 100], map[1 := 100], []);
            && RefundAll(c, checkout, p, [250, 1000]).1 == p.(refunded := 100, status := Refunded)
            && RefundAll(c, checkout, p, [1000, 250]).1 == p.(refunded := 100, status := PartiallyRefunded)
  {
    var p := Payment("pi", 1, 100, 0, 1000, Settled);
    var c := Core(map[1 := 100], map[1 := 100], []);
    assert Desired(p, Refund(250)) == 25 && Desired(p, Refund(1000)) == 100;
    assert [250, 1000][1..] == [1000] && [1000, 250][1..] == [250];
    var (d, q) := Reverse(c, checkout, p, Refund(250)).value;
    assert Desired(q, Refund(1000)) == 100 && q.refunded == 25 && Balance(d, 1) == 75;
    assert RefundAll(c, checkout, p, [250, 1000]) == RefundAll(d, checkout, q, [1000]);
    var (e, s) := Reverse(c, checkout, p, Refund(1000)).value;
    assert Desired(s, Refund(250)) == 25;
    assert RefundAll(c, checkout, p, [1000, 250]) == RefundAll(e, checkout, s, [250]);
  }
}
