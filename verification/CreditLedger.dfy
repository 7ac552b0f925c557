/** Wallets and the credit ledger: the statements every credit transaction is
    made of, and what it means for the two tables to agree. */
module CreditLedger {
  import opened Common

  type Account = nat

  const TWO31: nat := 0x8000_0000
  const TWO32: nat := 0x1_0000_0000

  /** Which operation a ledger row belongs to. */
  datatype Cause =
    | Credited(checkout: string)
    | Reversed(checkout: string)
    | Purchased(order: nat)
    | OrderRefunded(order: nat)
    | GiftCode(code: nat)
    | EventReward(event: nat)
    | Daily(realm: string, date: nat)
    | Vote(vote: string)
    | Referral
    | StaffGrant

  datatype Entry = Entry(target: Account, amount: int, cause: Cause)

  /** `opening` remembers the balance each wallet row was created with; it is
      history, the database has no such column. */
  datatype Core = Core(wallets: map<Account, nat>, opening: map<Account, nat>, ledger: seq<Entry>)

  function Balance(c: Core, a: Account): nat {
    if a in c.wallets then c.wallets[a] else 0
  }

  function Opening(c: Core, a: Account): nat {
    if a in c.opening then c.opening[a] else 0
  }

  // ------------------------------------------------------------ statements
  // None is a statement that fails: a value out of the column's range.

  /** Adds to the balance, making the wallet row when there is none. */
  function Upsert(c: Core, a: Account, n: nat): Option<Core> {
    if Balance(c, a) + n >= TWO32 then None
    else
      Some(c.(wallets := c.wallets[a := Balance(c, a) + n],
              opening := if a in c.opening then c.opening else c.opening[a := 0]))
  }

  /** Adds to an existing balance; without a row nothing happens, and that is no
      failure. */
  function AddTo(c: Core, a: Account, n: nat): Option<Core> {
    if a !in c.wallets then Some(c)
    else if c.wallets[a] + n >= TWO32 then None
    else Some(c.(wallets := c.wallets[a := c.wallets[a] + n]))
  }

  /** Takes from a balance that covers it; None when no row was changed. */
  function TakeFrom(c: Core, a: Account, n: nat): Option<Core> {
    if a !in c.wallets || c.wallets[a] < n then None
    else Some(c.(wallets := c.wallets[a := c.wallets[a] - n]))
  }

  /** A new ledger row; its amount column is a signed 32-bit integer. */
  function Append(c: Core, entry: Entry): Option<Core> {
    if -(TWO31 as int) <= entry.amount < TWO31 then Some(c.(ledger := c.ledger + [entry])) else None
  }

  /** A new wallet row; fails when the account has one. */
  function Open(c: Core, a: Account, n: nat): Option<Core> {
    if a in c.wallets || n >= TWO32 then None
    else Some(c.(wallets := c.wallets[a := n], opening := c.opening[a := n]))
  }

  /** An empty wallet row unless the account has one. */
  function EnsureWallet(c: Core, a: Account): Core {
    match Open(c, a, 0)
    case None => c
    case Some(d) => d
  }

  /** The pair most transactions end with: upsert the wallet, append a row. */
  function Grant(c: Core, a: Account, n: nat, cause: Cause): Option<Core> {
    match Upsert(c, a, n)
    case None => None
    case Some(credited) => Append(credited, Entry(a, n, cause))
  }

  // ------------------------------------------------------------ sums

  predicate Matches(entry: Entry, target: Option<Account>, cause: Option<Cause>) {
    (target == None || target == Some(entry.target)) && (cause == None || cause == Some(entry.cause))
  }

  /** What the ledger says was moved, to one account or all, for one cause or all. */
  function Sum(ledger: seq<Entry>, target: Option<Account>, cause: Option<Cause>): int {
    if ledger == [] then 0
    else
      var last := ledger[|ledger| - 1];
      Sum(ledger[..|ledger| - 1], target, cause) + (if Matches(last, target, cause) then last.amount else 0)
  }

  lemma SumAppend(ledger: seq<Entry>, entry: Entry, target: Option<Account>, cause: Option<Cause>)
    ensures Sum(ledger + [entry], target, cause)
         == Sum(ledger, target, cause) + (if Matches(entry, target, cause) then entry.amount else 0)
  {
    assert (ledger + [entry])[..|ledger|] == ledger;
  }

  function Total(c: Core, cause: Cause): int { Sum(c.ledger, None, Some(cause)) }

  function Paid(c: Core, a: Account, cause: Cause): int { Sum(c.ledger, Some(a), Some(cause)) }

  function Moved(c: Core, a: Account): int { Sum(c.ledger, Some(a), None) }

  /** How many rows a cause has. */
  function Rows(ledger: seq<Entry>, cause: Cause): nat {
    if ledger == [] then 0
    else Rows(ledger[..|ledger| - 1], cause) + (if ledger[|ledger| - 1].cause == cause then 1 else 0)
  }

  lemma RowsAppend(ledger: seq<Entry>, entry: Entry, cause: Cause)
    ensures Rows(ledger + [entry], cause) == Rows(ledger, cause) + (if entry.cause == cause then 1 else 0)
  {
    assert (ledger + [entry])[..|ledger|] == ledger;
  }

  // ------------------------------------------------------------ agreement

  /** Every wallet row has an opening balance and fits its column. */
  ghost predicate Typed(c: Core) {
    && c.wallets.Keys == c.opening.Keys
    && (forall a :: a in c.wallets ==> c.wallets[a] < TWO32)
  }

  /** How far a balance is from its opening balance plus what the ledger moved. */
  function Drift(c: Core, a: Account): int { Balance(c, a) - Opening(c, a) - Moved(c, a) }

  ghost predicate SameDrift(c: Core, d: Core) {
    forall a :: Drift(d, a) == Drift(c, a)
  }

  /** Every balance is what its wallet started with plus what the ledger moved. */
  ghost predicate Conserved(c: Core) {
    Typed(c) && forall a :: Drift(c, a) == 0
  }

  /** A transaction that moved `amount` to `a` and wrote one row saying so. */
  ghost predicate Posted(c: Core, d: Core, a: Account, amount: int, cause: Cause) {
    && c.wallets.Keys <= d.wallets.Keys && d.wallets.Keys == d.opening.Keys && a in d.wallets
    && Balance(d, a) == Balance(c, a) + amount && Balance(d, a) < TWO32
    && (forall b :: b != a ==> Balance(d, b) == Balance(c, b))
    && (forall b :: Opening(d, b) == Opening(c, b))
    && d.ledger == c.ledger + [Entry(a, amount, cause)]
  }

  /** A posting moves balance and ledger alike. */
  lemma PostedConserves(c: Core, d: Core, a: Account, amount: int, cause: Cause)
    requires Typed(c) && Posted(c, d, a, amount, cause)
    ensures Typed(d) && SameDrift(c, d)
  {
    forall b ensures Drift(d, b) == Drift(c, b) {
      SumAppend(c.ledger, Entry(a, amount, cause), Some(b), None);
    }
    forall b | b in d.wallets ensures d.wallets[b] < TWO32 {
      if b != a { assert Balance(d, b) == Balance(c, b); }
    }
  }

  /** Only the sums of the row's own account and cause move. */
  lemma PostedSums(c: Core, d: Core, a: Account, amount: int, cause: Cause, b: Account, other: Cause)
    requires Posted(c, d, a, amount, cause)
    ensures Total(d, other) == Total(c, other) + (if other == cause then amount else 0)
    ensures Paid(d, b, other) == Paid(c, b, other) + (if b == a && other == cause then amount else 0)
    ensures Rows(d.ledger, other) == Rows(c.ledger, other) + (if other == cause then 1 else 0)
  {
    SumAppend(c.ledger, Entry(a, amount, cause), None, Some(other));
    SumAppend(c.ledger, Entry(a, amount, cause), Some(b), Some(other));
    RowsAppend(c.ledger, Entry(a, amount, cause), other);
  }

  /** Nothing moved for `cause` between two states of the ledger. */
  ghost predicate SameFor(c: Core, d: Core, cause: Cause) {
    && Total(d, cause) == Total(c, cause) && Rows(d.ledger, cause) == Rows(c.ledger, cause)
    && (forall a :: Paid(d, a, cause) == Paid(c, a, cause))
  }

  lemma PostedSameFor(c: Core, d: Core, a: Account, amount: int, cause: Cause, other: Cause)
    requires Posted(c, d, a, amount, cause) && other != cause
    ensures SameFor(c, d, other)
  {
    forall b ensures Paid(d, b, other) == Paid(c, b, other) { PostedSums(c, d, a, amount, cause, b, other); }
    PostedSums(c, d, a, amount, cause, a, other);
  }

  lemma GrantPosts(c: Core, a: Account, n: nat, cause: Cause)
    requires Typed(c) && Grant(c, a, n, cause).Some?
    ensures Posted(c, Grant(c, a, n, cause).value, a, n, cause)
  {
  }

  /** A credit the columns can hold. */
  predicate Fits(c: Core, a: Account, n: nat) {
    Balance(c, a) + n < 0x1_0000_0000 && n < 0x8000_0000
  }

  lemma GrantsWhatFits(c: Core, a: Account, n: nat, cause: Cause)
    ensures Grant(c, a, n, cause).Some? <==> Fits(c, a, n)
  {
  }

  lemma OpenConserves(c: Core, a: Account, n: nat)
    requires Typed(c) && Open(c, a, n).Some?
    ensures Typed(Open(c, a, n).value) && SameDrift(c, Open(c, a, n).value)
  {
  }

  /** Crediting with the plain UPDATE keeps the tables in agreement exactly when
      the wallet row exists (or nothing is credited). */
  lemma PlainUpdateNeedsARow(c: Core, d: Core, a: Account, n: nat, cause: Cause)
    requires Conserved(c) && AddTo(c, a, n).Some? && Append(AddTo(c, a, n).value, Entry(a, n, cause)) == Some(d)
    ensures Conserved(d) <==> a in c.wallets || n == 0
  {
    if a in c.wallets {
      assert Posted(c, d, a, n, cause);
      PostedConserves(c, d, a, n, cause);
    } else {
      forall b ensures Drift(d, b) == Drift(c, b) - (if b == a then n else 0) {
        SumAppend(c.ledger, Entry(a, n, cause), Some(b), None);
      }
      assert Drift(c, a) == 0;
    }
  }
}
