/** All credit transactions of the portal together: payments and reversals,
    purchases, order refunds driven by fulfilment, gift codes, event, daily and
    vote rewards, registration with referrals, and staff grants. */
module Books {
  import opened Common
  import opened CreditLedger
  import opened Reversals
  import Payments
  import Grants
  import F = Fulfilment
  import Bounds = FulfilmentBounds
  import DeliveryPlan

  /** `buyers` is the account column of portal_orders, `referrers` the accounts
      that have a referral code. */
  datatype Books = Books(
    core: Core,
    billing: Payments.Billing,
    grants: Grants.Grants,
    orders: F.State,
    buyers: map<nat, Account>,
    referrers: set<Account>)

  datatype Action =
    | Bill(billing: Payments.Action)
    | Give(grant: Grants.Action, commits: bool)
    | Buy(order: nat, account: Account, realm: string, total: nat, goods: DeliveryPlan.Goods)
    | Fulfil(step: F.Action, commits: bool)
    | SignIn(account: Account)
    | OpenDashboard(account: Account)
    | SignUp(account: Account, starting: nat, referrer: Option<Account>, logged: bool)
    | StaffCredit(account: Account, amount: nat)

  // ------------------------------------------------------------ transactions

  /** Debit, order row and ledger row; refused when the wallet is missing or does
      not cover the total. */
  function DoBuy(b: Books, order: nat, a: Account, realm: string, total: nat,
                 goods: DeliveryPlan.Goods): Option<Books> {
    if order in b.orders.orders || order in b.buyers then None
    else
      match TakeFrom(b.core, a, total)
      case None => None
      case Some(debited) =>
        match Append(debited, Entry(a, -(total as int), Purchased(order)))
        case None => None
        case Some(core) =>
          Some(b.(core := core, orders := F.Next(b.orders, F.Purchase(order, realm, total, goods)),
              buyers := b.buyers[order := a]))
  }

  /** The refund's wallet update is the plain one. */
  function DoRefund(b: Books, order: nat, realm: string): Option<Books> {
    if !F.Refundable(b.orders, order, realm) || order !in b.buyers then None
    else
      var a, total := b.buyers[order], b.orders.orders[order].total;
      match AddTo(b.core, a, total)
      case None => None
      case Some(credited) =>
        match Append(credited, Entry(a, total, OrderRefunded(order)))
        case None => None
        case Some(core) => Some(b.(core := core, orders := F.Next(b.orders, F.RefundOrder(order, realm))))
  }

  const REFERRAL_BONUS: nat := 25
  const REFERRED_BONUS: nat := 10

  /** Registration opens the new wallet and credits the referrer with the plain
      UPDATE; the result of writing the referrer's ledger row is ignored. */
  function DoSignUp(b: Books, a: Account, starting: nat, referrer: Option<Account>, logged: bool): Option<Books> {
    match referrer
    case None =>
      (match Open(b.core, a, starting)
       case None => None
       case Some(core) => Some(b.(core := core, referrers := b.referrers + {a})))
    case Some(patron) =>
      if patron !in b.referrers || patron == a then None
      else
        match Open(b.core, a, starting + REFERRED_BONUS)
        case None => None
        case Some(opening) =>
          match AddTo(opening, patron, REFERRAL_BONUS)
          case None => None
          case Some(credited) =>
            var core := if logged then Append(credited, Entry(patron, REFERRAL_BONUS, Referral)).value else credited;
            Some(b.(core := core, referrers := b.referrers + {a}))
  }

  function DoStaffCredit(b: Books, a: Account, amount: nat): Option<Books> {
    if amount == 0 || amount > 1_000_000 then None
    else
      match Grant(b.core, a, amount, StaffGrant)
      case None => None
      case Some(core) => Some(b.(core := core))
  }

  function DoFulfil(b: Books, step: F.Action, commits: bool): Books {
    match step
    case Purchase(_, _, _, _) => b
    case RefundOrder(order, realm) => if commits then Grants.Else(DoRefund(b, order, realm), b) else b
    case _ => b.(orders := F.Next(b.orders, step))
  }

  function Next(b: Books, action: Action): Books {
    match action
    case Bill(step) =>
      var r := Payments.Next(b.core, b.billing, step);
      b.(core := r.0, billing := r.1)
    case Give(step, commits) =>
      var r := Grants.Next(b.core, b.grants, step, commits);
      b.(core := r.0, grants := r.1)
    case Buy(order, a, realm, total, goods) => Grants.Else(DoBuy(b, order, a, realm, total, goods), b)
    case Fulfil(step, commits) => DoFulfil(b, step, commits)
    case SignIn(a) => b.(core := EnsureWallet(b.core, a))
    case OpenDashboard(a) => if a in b.core.wallets then b.(referrers := b.referrers + {a}) else b
    case SignUp(a, starting, referrer, logged) => Grants.Else(DoSignUp(b, a, starting, referrer, logged), b)
    case StaffCredit(a, amount) => Grants.Else(DoStaffCredit(b, a, amount), b)
  }

  const EMPTY := Books(Core(map[], map[], []), Payments.Start(), Grants.Start(), F.EMPTY, map[], {})

  function Play(b: Books, run: seq<Action>): Books {
    if run == [] then b else Next(Play(b, run[..|run| - 1]), run[|run| - 1])
  }

  // ------------------------------------------------------------ what a transaction does

  /** A purchase is all or nothing: debit, row of the ledger, pending order and
      buyer, exactly when the wallet covers the total. */
  ghost predicate BuyDone(b: Books, order: nat, a: Account, realm: string, total: nat, goods: DeliveryPlan.Goods,
                          d: Books) {
    if && order !in b.orders.orders && order !in b.buyers
       && a in b.core.wallets && b.core.wallets[a] >= total && total <= 0x8000_0000 then
      && Posted(b.core, d.core, a, -(total as int), Purchased(order))
      && d == b.(core := d.core,
                 orders := b.orders.(orders := b.orders.orders[order := F.Order(realm, total, goods, F.Pending)]),
                 buyers := b.buyers[order := a])
    else d == b
  }

  /** A refund gives the buyer the order's total back, exactly when the order waits
      or stands in review or failed, and no step of it is completed. */
  ghost predicate RefundDone(b: Books, order: nat, realm: string, d: Books) {
    if && order in b.buyers && order in b.orders.orders && b.orders.orders[order].realm == realm
       && b.orders.orders[order].status in {F.Pending, F.Review, F.Failed}
       && (forall id <- b.orders.steps :: id.order == order ==> b.orders.steps[id] != F.Completed)
       && Fits(b.core, b.buyers[order], b.orders.orders[order].total) then
      var row := b.orders.orders[order];
      && Posted(b.core, d.core, b.buyers[order], row.total, OrderRefunded(order))
      && d == b.(core := d.core,
                 orders := b.orders.(orders := b.orders.orders[order := row.(status := F.Refunded)],
                                     returned := b.orders.returned[order := F.Returned(b.orders, order) + row.total]))
    else d == b
  }

  /** Registration: the new wallet starts with the starting credits, and 10 more
      when a referrer other than the account itself is named, who gets 25. */
  ghost predicate SignUpDone(b: Books, a: Account, starting: nat, referrer: Option<Account>, logged: bool, d: Books) {
    match referrer
    case None =>
      if a !in b.core.wallets && starting < 0x1_0000_0000 then
        d == b.(core := Core(b.core.wallets[a := starting], b.core.opening[a := starting], b.core.ledger),
                referrers := b.referrers + {a})
      else d == b
    case Some(patron) =>
      if && a !in b.core.wallets && starting + 10 < 0x1_0000_0000
         && patron in b.referrers && patron != a && Balance(b.core, patron) + 25 < 0x1_0000_0000 then
        d == b.(core := Core(b.core.wallets[a := starting + 10][patron := Balance(b.core, patron) + 25],
                             b.core.opening[a := starting + 10],
                             b.core.ledger + if logged then [Entry(patron, 25, Referral)] else []),
                referrers := b.referrers + {a})
      else d == b
  }

  ghost predicate StaffCreditDone(b: Books, a: Account, amount: nat, d: Books) {
    if 1 <= amount <= 1_000_000 && Balance(b.core, a) + amount < 0x1_0000_0000 then
      Posted(b.core, d.core, a, amount, StaffGrant) && d == b.(core := d.core)
    else d == b
  }

  /** What each of the portal's own transactions does to the tables, and when. */
  ghost predicate TransactionDone(b: Books, action: Action, d: Books) {
    match action
    case Buy(order, a, realm, total, goods) => BuyDone(b, order, a, realm, total, goods, d)
    case Fulfil(step, commits) =>
      if step.RefundOrder? then
        if commits then RefundDone(b, step.order, step.realm, d) else d == b
      else d == b.(orders := d.orders)
    case SignIn(a) =>
      d == if a in b.core.wallets then b
           else b.(core := Core(b.core.wallets[a := 0], b.core.opening[a := 0], b.core.ledger))
    case OpenDashboard(a) => d == b.(referrers := if a in b.core.wallets then b.referrers + {a} else b.referrers)
    case SignUp(a, starting, referrer, logged) => SignUpDone(b, a, starting, referrer, logged, d)
    case StaffCredit(a, amount) => StaffCreditDone(b, a, amount, d)
    case Bill(_) => d == b.(core := d.core, billing := d.billing)
    case Give(_, _) => d == b.(core := d.core, grants := d.grants)
  }

  lemma BuyIsDone(b: Books, order: nat, a: Account, realm: string, total: nat, goods: DeliveryPlan.Goods)
    requires BooksInv(b)
    ensures BuyDone(b, order, a, realm, total, goods, Next(b, Buy(order, a, realm, total, goods)))
  {
    hide Payments.NetInv, Grants.GrantInv, OrdersInv;
    BooksAreTyped(b);
  }

  lemma RefundIsDone(b: Books, order: nat, realm: string)
    requires BooksInv(b)
    ensures RefundDone(b, order, realm, Next(b, Fulfil(F.RefundOrder(order, realm), true)))
  {
    hide Payments.NetInv, Grants.GrantInv;
    BooksAreTyped(b);
    assert OrderSettled(b, order);
    hide OrdersInv, OrderSettled;
  }

  lemma SignUpIsDone(b: Books, a: Account, starting: nat, referrer: Option<Account>, logged: bool)
    requires BooksInv(b)
    ensures SignUpDone(b, a, starting, referrer, logged, Next(b, SignUp(a, starting, referrer, logged)))
  {
    hide Payments.NetInv, Grants.GrantInv, OrdersInv;
  }

  lemma StaffCreditIsDone(b: Books, a: Account, amount: nat)
    requires BooksInv(b)
    ensures StaffCreditDone(b, a, amount, Next(b, StaffCredit(a, amount)))
  {
    hide Payments.NetInv, Grants.GrantInv, OrdersInv, Grant;
    BooksAreTyped(b);
    Grants.GrantedIff(b.core, a, amount, StaffGrant);
  }

  lemma TransactionIsDone(b: Books, action: Action)
    requires BooksInv(b)
    ensures TransactionDone(b, action, Next(b, action))
  {
    hide BooksInv, DoBuy, DoRefund, DoSignUp, DoStaffCredit, Payments.Next, Grants.Next, F.Next, Next,
      BuyDone, RefundDone, SignUpDone, StaffCreditDone;
    match action
    case Buy(order, a, realm, total, goods) => BuyIsDone(b, order, a, realm, total, goods);
    case SignUp(a, starting, referrer, logged) => SignUpIsDone(b, a, starting, referrer, logged);
    case StaffCredit(a, amount) => StaffCreditIsDone(b, a, amount);
    case Fulfil(step, commits) =>
      if step.RefundOrder? && commits { RefundIsDone(b, step.order, step.realm); } else { OtherIsDone(b, action); }
    case _ => OtherIsDone(b, action);
  }

  lemma OtherIsDone(b: Books, action: Action)
    requires action.Bill? || action.Give? || action.SignIn? || action.OpenDashboard? || action.Fulfil?
    requires action.Fulfil? && action.step.RefundOrder? ==> !action.commits
    ensures TransactionDone(b, action, Next(b, action))
  {
    hide DoRefund, Payments.Next, Grants.Next, F.Next;
  }

  // ------------------------------------------------------------ the invariant

  /** What an order cost its buyer: its total, or nothing once it is refunded. */
  ghost predicate OrderSettled(b: Books, order: nat) {
    && F.Returned(b.orders, order) == (if F.Has(b.orders, order, F.Refunded) then b.orders.orders[order].total else 0)
    && if order in b.buyers then
         var a := b.buyers[order];
         && order in b.orders.orders && a in b.core.wallets
         && Paid(b.core, a, Purchased(order)) == Total(b.core, Purchased(order))
             == -(b.orders.orders[order].total as int)
         && Paid(b.core, a, OrderRefunded(order)) == Total(b.core, OrderRefunded(order)) == F.Returned(b.orders, order)
       else
         && Total(b.core, Purchased(order)) == 0 && Total(b.core, OrderRefunded(order)) == 0
         && (forall a :: Paid(b.core, a, Purchased(order)) == 0 && Paid(b.core, a, OrderRefunded(order)) == 0)
  }

  ghost predicate OrdersInv(b: Books) {
    forall o :: OrderSettled(b, o)
  }

  ghost predicate BooksInv(b: Books) {
    && Payments.NetInv(b.core, b.billing)
    && Grants.GrantInv(b.core, b.grants)
    && OrdersInv(b)
    && b.referrers <= b.core.wallets.Keys
  }

  /** What a step credits to an account without a ledger row: the bonus of a
      registration whose referral row was not written. */
  function Lost(b: Books, action: Action, a: Account): nat {
    if && action.SignUp? && !action.logged && action.referrer == Some(a)
       && DoSignUp(b, action.account, action.starting, action.referrer, false).Some?
    then REFERRAL_BONUS else 0
  }

  /** The same over a run from `b`. */
  function LostBonus(b: Books, run: seq<Action>, a: Account): nat {
    if run == [] then 0
    else LostBonus(b, run[..|run| - 1], a) + Lost(Play(b, run[..|run| - 1]), run[|run| - 1], a)
  }

  /** A step that keeps the invariant and moves balances and ledger alike. */
  ghost predicate Kept(b: Books, d: Books) {
    BooksInv(d) && SameDrift(b.core, d.core)
  }

  // ------------------------------------------------------------ who owns which cause

  predicate IsPayment(k: Cause) { k.Credited? || k.Reversed? }

  predicate IsOrder(k: Cause) { k.Purchased? || k.OrderRefunded? }

  /** A step of one subsystem moves nothing for the causes of the others. */
  ghost predicate Spares(c: Core, d: Core, k: Cause) { SameFor(c, d, k) }

  lemma PostedSpares(c: Core, d: Core, a: Account, n: int, cause: Cause)
    requires Posted(c, d, a, n, cause)
    ensures forall k :: k != cause ==> Spares(c, d, k)
  {
    forall k | k != cause ensures Spares(c, d, k) { PostedSameFor(c, d, a, n, cause, k); }
  }

  lemma PaymentsIgnoreOthers(c: Core, d: Core, b: Payments.Billing)
    requires Payments.NetInv(c, b) && Typed(d) && c.wallets.Keys <= d.wallets.Keys
    requires forall k :: IsPayment(k) ==> Spares(c, d, k)
    ensures Payments.NetInv(d, b)
  {
    forall k ensures Payments.CheckoutSettled(d, b, k) {
      assert Payments.CheckoutSettled(c, b, k) && Spares(c, d, Credited(k)) && Spares(c, d, Reversed(k));
    }
  }

  lemma GrantsIgnoreOthers(c: Core, d: Core, g: Grants.Grants)
    requires Grants.GrantInv(c, g) && Typed(d) && forall k :: Grants.IsGrant(k) ==> Spares(c, d, k)
    ensures Grants.GrantInv(d, g)
  {
    forall k | Grants.IsGrant(k) ensures SameFor(c, d, k) { assert Spares(c, d, k); }
    Grants.GrantsIgnoreOthers(c, d, g);
  }

  lemma OrdersIgnoreOthers(b: Books, d: Books)
    requires OrdersInv(b) && d.orders == b.orders && d.buyers == b.buyers && b.core.wallets.Keys <= d.core.wallets.Keys
    requires forall k :: IsOrder(k) ==> Spares(b.core, d.core, k)
    ensures OrdersInv(d)
  {
    forall o ensures OrderSettled(d, o) {
      assert OrderSettled(b, o) && Spares(b.core, d.core, Purchased(o)) && Spares(b.core, d.core, OrderRefunded(o));
    }
  }

  // ------------------------------------------------------------ each kind of step

  /** What a billing step can do to the tables. */
  lemma BillingTouches(c: Core, b: Payments.Billing, action: Payments.Action)
    requires Payments.NetInv(c, b)
    ensures var d := Payments.Next(c, b, action).0;
            c.wallets.Keys <= d.wallets.Keys && SameDrift(c, d) && forall k :: !IsPayment(k) ==> Spares(c, d, k)
  {
    hide Payments.NetInv, Payments.Credit, Payments.ReverseFor, Typed, SameFor;
    var d := Payments.Next(c, b, action).0;
    if d == c {
      forall k ensures Spares(c, d, k) { Reflexive(c, k); }
    } else {
      var e := b.handlers[action.h].event;
      match e.payload {
        case CheckoutCompleted(s) => CreditTouches(c, b, e.id, s);
        case Reversing(intent, r) => ReversalTouches(c, b, e.id, intent, r);
        case Unrelated =>
      }
    }
  }

  lemma Reflexive(c: Core, k: Cause)
    ensures SameFor(c, c, k)
  {
  }

  lemma CreditTouches(c: Core, b: Payments.Billing, event: string, s: Payments.Session)
    requires Payments.NetInv(c, b) && Payments.ValidMetadata(s) && Payments.Credit(c, b, event, s).Some?
    ensures var d := Payments.Credit(c, b, event, s).value.0;
            c.wallets.Keys <= d.wallets.Keys && SameDrift(c, d) && forall k :: !IsPayment(k) ==> Spares(c, d, k)
  {
    hide Payments.SavePayment, Grant, Typed, SameFor;
    var d := Payments.Credit(c, b, event, s).value.0;
    if d == c {
      forall k ensures Spares(c, d, k) { Reflexive(c, k); }
    } else {
      GrantPosts(c, s.account.value, s.credits.value, Credited(s.checkout));
      PostedConserves(c, d, s.account.value, s.credits.value, Credited(s.checkout));
      PostedSpares(c, d, s.account.value, s.credits.value, Credited(s.checkout));
    }
  }

  lemma ReversalTouches(c: Core, b: Payments.Billing, event: string, intent: string, r: Reversal)
    requires Payments.NetInv(c, b) && Payments.ReverseFor(c, b, event, intent, r).Some?
    ensures var d := Payments.ReverseFor(c, b, event, intent, r).value.0;
            c.wallets.Keys <= d.wallets.Keys && SameDrift(c, d) && forall k :: !IsPayment(k) ==> Spares(c, d, k)
  {
    hide Reverse, Typed, SameFor;
    var d := Payments.ReverseFor(c, b, event, intent, r).value.0;
    var checkout := b.byIntent[intent];
    var p := b.payments[checkout];
    Payments.RowIsSound(c, b, checkout);
    ReversePosts(c, checkout, p, r);
    if d == c {
      forall k ensures Spares(c, d, k) { Reflexive(c, k); }
    } else {
      var taken := p.refunded - Reverse(c, checkout, p, r).value.1.refunded;
      PostedConserves(c, d, p.recipient, taken, Reversed(checkout));
      PostedSpares(c, d, p.recipient, taken, Reversed(checkout));
    }
  }

  lemma OneGrantSpares(c: Core, d: Core, a: Account, n: nat, cause: Cause)
    requires Typed(c) && Grant(c, a, n, cause) == Some(d)
    ensures c.wallets.Keys <= d.wallets.Keys && SameDrift(c, d) && forall k :: k != cause ==> Spares(c, d, k)
  {
    GrantPosts(c, a, n, cause);
    PostedConserves(c, d, a, n, cause);
    PostedSpares(c, d, a, n, cause);
  }

  lemma GrantTouches(c: Core, g: Grants.Grants, action: Grants.Action, commits: bool)
    requires Typed(c)
    ensures var d := Grants.Next(c, g, action, commits).0;
            c.wallets.Keys <= d.wallets.Keys && SameDrift(c, d) && forall k :: !Grants.IsGrant(k) ==> Spares(c, d, k)
  {
    hide Typed, SameFor, Grant;
    var d := Grants.Next(c, g, action, commits).0;
    if d == c {
      forall k ensures Spares(c, d, k) { Reflexive(c, k); }
    } else {
      match action {
        case Redeem(id, a, _) => OneGrantSpares(c, d, a, g.codes[id].credits, GiftCode(id));
        case Reward(id, a) => OneGrantSpares(c, d, a, g.events[id].reward, EventReward(id));
        case ClaimDaily(a, realm, date, n) => OneGrantSpares(c, d, a, n, Daily(realm, date));
        case RewardVote(vote, a, n) => OneGrantSpares(c, d, a, n, Vote(vote));
        case _ =>
      }
    }
  }

  lemma BillKeeps(b: Books, step: Payments.Action)
    requires BooksInv(b)
    ensures Kept(b, Next(b, Bill(step)))
  {
    hide Payments.NetInv, Grants.GrantInv, OrdersInv, Payments.Next, Typed, Spares;
    var d := Next(b, Bill(step));
    BillingTouches(b.core, b.billing, step);
    Payments.NetStep(b.core, b.billing, step);
    NetIsTyped(d.core, d.billing);
    GrantsIgnoreOthers(b.core, d.core, b.grants);
    OrdersIgnoreOthers(b, d);
  }

  lemma NetIsTyped(c: Core, b: Payments.Billing)
    requires Payments.NetInv(c, b)
    ensures Typed(c)
  {
  }

  lemma GiveKeeps(b: Books, step: Grants.Action, commits: bool)
    requires BooksInv(b)
    ensures Kept(b, Next(b, Give(step, commits)))
  {
    hide Payments.NetInv, Grants.GrantInv, OrdersInv, Grants.Next, Typed, Spares;
    var d := Next(b, Give(step, commits));
    NetIsTyped(b.core, b.billing);
    GrantTouches(b.core, b.grants, step, commits);
    Grants.GrantStep(b.core, b.grants, step, commits);
    GrantIsTyped(d.core, d.grants);
    PaymentsIgnoreOthers(b.core, d.core, b.billing);
    OrdersIgnoreOthers(b, d);
  }

  lemma GrantIsTyped(c: Core, g: Grants.Grants)
    requires Grants.GrantInv(c, g)
    ensures Typed(c)
  {
  }

  /** A change of the core that posts for no payment and no grant. */
  lemma OthersKeep(b: Books, d: Books)
    requires BooksInv(b) && Typed(d.core) && b.core.wallets.Keys <= d.core.wallets.Keys
    requires forall k :: IsPayment(k) || Grants.IsGrant(k) ==> Spares(b.core, d.core, k)
    requires d.billing == b.billing && d.grants == b.grants && d.referrers <= d.core.wallets.Keys && OrdersInv(d)
    ensures BooksInv(d)
  {
    hide Payments.NetInv, Grants.GrantInv, OrdersInv, Typed, Spares;
    PaymentsIgnoreOthers(b.core, d.core, b.billing);
    GrantsIgnoreOthers(b.core, d.core, b.grants);
  }

  lemma BuyKeeps(b: Books, order: nat, a: Account, realm: string, total: nat, goods: DeliveryPlan.Goods)
    requires BooksInv(b) && DoBuy(b, order, a, realm, total, goods).Some?
    ensures Kept(b, DoBuy(b, order, a, realm, total, goods).value)
  {
    hide Payments.NetInv, Grants.GrantInv, SameFor;
    var d := DoBuy(b, order, a, realm, total, goods).value;
    NetIsTyped(b.core, b.billing);
    assert Posted(b.core, d.core, a, -(total as int), Purchased(order));
    PostedConserves(b.core, d.core, a, -(total as int), Purchased(order));
    PostedSpares(b.core, d.core, a, -(total as int), Purchased(order));
    BoughtSettles(b, d, order, a, total);
    OthersKeep(b, d);
  }

  lemma BoughtSettles(b: Books, d: Books, order: nat, a: Account, total: nat)
    requires OrdersInv(b) && Posted(b.core, d.core, a, -(total as int), Purchased(order))
    requires order !in b.orders.orders && order !in b.buyers && d.buyers == b.buyers[order := a]
    requires order in d.orders.orders && d.orders.orders == b.orders.orders[order := d.orders.orders[order]]
    requires d.orders.orders[order].total == total && d.orders.orders[order].status == F.Pending
    requires d.orders.returned == b.orders.returned
    ensures OrdersInv(d)
  {
    forall o ensures OrderSettled(d, o) {
      assert OrderSettled(b, o);
      SumsAfter(b, d, a, -(total as int), Purchased(order), o);
    }
  }

  lemma SumsAfter(b: Books, d: Books, a: Account, n: int, cause: Cause, o: nat)
    requires Posted(b.core, d.core, a, n, cause)
    ensures Total(d.core, Purchased(o)) == Total(b.core, Purchased(o)) + (if cause == Purchased(o) then n else 0)
    ensures Total(d.core, OrderRefunded(o))
        == Total(b.core, OrderRefunded(o)) + (if cause == OrderRefunded(o) then n else 0)
    ensures forall x ::
        Paid(d.core, x, Purchased(o)) ==
          Paid(b.core, x, Purchased(o)) + (if x == a && cause == Purchased(o) then n else 0)
    ensures forall x :: Paid(d.core, x, OrderRefunded(o))
                     == Paid(b.core, x, OrderRefunded(o)) + (if x == a && cause == OrderRefunded(o) then n else 0)
  {
    hide Posted, Paid, Total;
    PostedSums(b.core, d.core, a, n, cause, a, Purchased(o));
    PostedSums(b.core, d.core, a, n, cause, a, OrderRefunded(o));
    forall x ensures Paid(d.core, x, Purchased(o))
        == Paid(b.core, x, Purchased(o)) + (if x == a && cause == Purchased(o) then n else 0) {
      PostedSums(b.core, d.core, a, n, cause, x, Purchased(o));
    }
    forall x ensures Paid(d.core, x, OrderRefunded(o))
                  == Paid(b.core, x, OrderRefunded(o)) + (if x == a && cause == OrderRefunded(o) then n else 0) {
      PostedSums(b.core, d.core, a, n, cause, x, OrderRefunded(o));
    }
  }

  lemma RefundKeeps(b: Books, order: nat, realm: string)
    requires BooksInv(b) && DoRefund(b, order, realm).Some?
    ensures Kept(b, DoRefund(b, order, realm).value)
  {
    hide Payments.NetInv, Grants.GrantInv, SameFor, F.Refundable;
    var d := DoRefund(b, order, realm).value;
    assert OrderSettled(b, order);
    var a, total := b.buyers[order], b.orders.orders[order].total;
    NetIsTyped(b.core, b.billing);
    assert Posted(b.core, d.core, a, total, OrderRefunded(order));
    PostedConserves(b.core, d.core, a, total, OrderRefunded(order));
    PostedSpares(b.core, d.core, a, total, OrderRefunded(order));
    RefundSettles(b, d, order, realm);
    OthersKeep(b, d);
  }

  lemma RefundSettles(b: Books, d: Books, order: nat, realm: string)
    requires OrdersInv(b) && F.Refundable(b.orders, order, realm) && order in b.buyers && d.buyers == b.buyers
    requires Posted(b.core, d.core, b.buyers[order], b.orders.orders[order].total, OrderRefunded(order))
    requires d.orders == F.Next(b.orders, F.RefundOrder(order, realm))
    ensures OrdersInv(d)
  {
    forall o ensures OrderSettled(d, o) {
      assert OrderSettled(b, o) && OrderSettled(b, order);
      SumsAfter(b, d, b.buyers[order], b.orders.orders[order].total, OrderRefunded(order), o);
      Bounds.OrderStep(b.orders, F.RefundOrder(order, realm), o);
    }
  }

  /** Fulfilment other than purchase and refund moves no credits. */
  lemma FulfilKeeps(b: Books, step: F.Action, commits: bool)
    requires BooksInv(b)
    ensures Kept(b, Next(b, Fulfil(step, commits)))
  {
    hide Payments.NetInv, Grants.GrantInv, DoRefund, F.Next;
    var d := Next(b, Fulfil(step, commits));
    if step.RefundOrder? {
      if commits && DoRefund(b, step.order, step.realm).Some? { RefundKeeps(b, step.order, step.realm); }
    } else if !step.Purchase? {
      forall o ensures OrderSettled(d, o) {
        assert OrderSettled(b, o);
        Bounds.OrderStep(b.orders, step, o);
        RefundsOnlyRefund(b.orders, step, o);
      }
    }
  }

  lemma RefundsOnlyRefund(s: F.State, step: F.Action, order: nat)
    requires !step.RefundOrder?
    ensures F.Has(F.Next(s, step), order, F.Refunded) ==> F.Has(s, order, F.Refunded)
  {
    Bounds.OrderStep(s, step, order);
    if order in s.orders && !F.Has(s, order, F.Refunded) { StaysUnrefunded(s, step, order); }
  }

  lemma StaysUnrefunded(s: F.State, step: F.Action, order: nat)
    requires !step.RefundOrder? && order in s.orders && !F.Has(s, order, F.Refunded)
    ensures !F.Has(F.Next(s, step), order, F.Refunded)
  {
  }

  lemma OpenSpares(c: Core, a: Account, n: nat)
    requires Typed(c) && Open(c, a, n).Some?
    ensures var d := Open(c, a, n).value;
            Typed(d) && c.wallets.Keys <= d.wallets.Keys && SameDrift(c, d) && forall k :: Spares(c, d, k)
  {
    OpenConserves(c, a, n);
  }

  /** A wallet is opened and nothing is posted. */
  lemma OpenKeeps(b: Books, d: Books, a: Account, n: nat)
    requires BooksInv(b) && Open(b.core, a, n).Some?
    requires d == b.(core := Open(b.core, a, n).value, referrers := d.referrers) && d.referrers <= d.core.wallets.Keys
    ensures Kept(b, d)
  {
    hide Payments.NetInv, Grants.GrantInv, OrdersInv, Open, Typed, Spares;
    NetIsTyped(b.core, b.billing);
    OpenSpares(b.core, a, n);
    OrdersIgnoreOthers(b, d);
    OthersKeep(b, d);
  }

  /** One posting that belongs to no payment, grant or order. */
  lemma PostKeeps(b: Books, d: Books, a: Account, n: int, cause: Cause)
    requires BooksInv(b) && Posted(b.core, d.core, a, n, cause) && cause in {Referral, StaffGrant}
    requires d == b.(core := d.core)
    ensures Kept(b, d)
  {
    hide Payments.NetInv, Grants.GrantInv, OrdersInv, Typed, Spares;
    NetIsTyped(b.core, b.billing);
    PostedConserves(b.core, d.core, a, n, cause);
    PostedSpares(b.core, d.core, a, n, cause);
    OrdersIgnoreOthers(b, d);
    OthersKeep(b, d);
  }

  /** A registration keeps the invariant whether or not its referral row is
      written, and parts a balance from the ledger by exactly what is lost. */
  lemma SignUpKeeps(b: Books, a: Account, starting: nat, referrer: Option<Account>, logged: bool)
    requires BooksInv(b) && DoSignUp(b, a, starting, referrer, logged).Some?
    ensures var d := DoSignUp(b, a, starting, referrer, logged).value;
            && BooksInv(d)
            && forall x :: Drift(d.core, x) == Drift(b.core, x) + Lost(b, SignUp(a, starting, referrer, logged), x)
  {
    hide Payments.NetInv, Grants.GrantInv, OrdersInv, Typed, BooksInv, Open;
    ReferrersHaveWallets(b);
    var d := DoSignUp(b, a, starting, referrer, logged).value;
    if referrer == None {
      OpenedHas(b.core, a, starting);
      OpenKeeps(b, d, a, starting);
    } else {
      var m := b.(core := Open(b.core, a, starting + REFERRED_BONUS).value, referrers := d.referrers);
      OpenedHas(b.core, a, starting + REFERRED_BONUS);
      OpenKeeps(b, m, a, starting + REFERRED_BONUS);
      BooksAreTyped(m);
      if logged {
        ReferralPosts(m.core, d.core, referrer.value);
        PostKeeps(m, d, referrer.value, REFERRAL_BONUS, Referral);
      } else {
        BonusKeeps(m, d, referrer.value);
      }
    }
  }

  lemma OpenedHas(c: Core, a: Account, n: nat)
    requires Open(c, a, n).Some?
    ensures Open(c, a, n).value.wallets.Keys == c.wallets.Keys + {a}
  {
  }

  /** The bonus alone, its ledger row not written. */
  lemma BonusKeeps(b: Books, d: Books, patron: Account)
    requires BooksInv(b) && patron in b.core.wallets
    requires AddTo(b.core, patron, REFERRAL_BONUS) == Some(d.core) && d == b.(core := d.core)
    ensures BooksInv(d)
    ensures forall x :: Drift(d.core, x) == Drift(b.core, x) + (if x == patron then REFERRAL_BONUS else 0)
  {
    hide Payments.NetInv, Grants.GrantInv, OrdersInv;
    BooksAreTyped(b);
    forall k ensures Spares(b.core, d.core, k) { }
    OrdersIgnoreOthers(b, d);
    OthersKeep(b, d);
  }

  lemma ReferralPosts(c: Core, d: Core, patron: Account)
    requires Typed(c) && patron in c.wallets && AddTo(c, patron, REFERRAL_BONUS).Some?
    requires Some(d) == Append(AddTo(c, patron, REFERRAL_BONUS).value, Entry(patron, REFERRAL_BONUS, Referral))
    ensures Posted(c, d, patron, REFERRAL_BONUS, Referral)
  {
  }

  lemma ReferrersHaveWallets(b: Books)
    requires BooksInv(b)
    ensures Typed(b.core) && b.referrers <= b.core.wallets.Keys
  {
  }

  lemma BooksAreTyped(b: Books)
    requires BooksInv(b)
    ensures Typed(b.core)
  {
  }

  /** The one place where wallets and ledger can part: a registration keeps them
      in agreement exactly when there is no referrer or the referrer's ledger
      row, whose failure the code ignores, was written. */
  lemma SignUpConservesIff(b: Books, a: Account, starting: nat, referrer: Option<Account>, logged: bool)
    requires BooksInv(b) && Conserved(b.core) && DoSignUp(b, a, starting, referrer, logged).Some?
    ensures Conserved(DoSignUp(b, a, starting, referrer, logged).value.core) <==> referrer == None || logged
  {
    hide Payments.NetInv, Grants.GrantInv, OrdersInv, BooksInv, DoSignUp;
    SignUpKeeps(b, a, starting, referrer, logged);
    var d := DoSignUp(b, a, starting, referrer, logged).value;
    BooksAreTyped(d);
    if referrer.Some? && !logged {
      assert Drift(d.core, referrer.value) == REFERRAL_BONUS;
    }
  }

  lemma StaffCreditKeeps(b: Books, a: Account, amount: nat)
    requires BooksInv(b) && DoStaffCredit(b, a, amount).Some?
    ensures Kept(b, DoStaffCredit(b, a, amount).value)
  {
    hide Payments.NetInv, Grants.GrantInv, OrdersInv, Typed, BooksInv, Grant;
    BooksAreTyped(b);
    GrantPosts(b.core, a, amount, StaffGrant);
    PostKeeps(b, DoStaffCredit(b, a, amount).value, a, amount, StaffGrant);
  }

  lemma BooksStep(b: Books, action: Action)
    requires BooksInv(b)
    ensures BooksInv(Next(b, action))
    ensures forall a :: Drift(Next(b, action).core, a) == Drift(b.core, a) + Lost(b, action, a)
  {
    hide BooksInv, Payments.Next, Grants.Next, DoBuy, DoFulfil, DoSignUp, DoStaffCredit, Typed, Drift;
    match action {
      case Bill(step) => BillKeeps(b, step);
      case Give(step, commits) => GiveKeeps(b, step, commits);
      case Buy(order, a, realm, total, goods) =>
        if DoBuy(b, order, a, realm, total, goods).Some? { BuyKeeps(b, order, a, realm, total, goods); }
      case Fulfil(step, commits) => FulfilKeeps(b, step, commits);
      case SignIn(a) =>
        if Open(b.core, a, 0).Some? {
          OpenedHas(b.core, a, 0);
          ReferrersHaveWallets(b);
          OpenKeeps(b, Next(b, action), a, 0);
        }
      case OpenDashboard(a) => DashboardKeeps(b, a);
      case SignUp(a, starting, referrer, logged) =>
        if DoSignUp(b, a, starting, referrer, logged).Some? { SignUpKeeps(b, a, starting, referrer, logged); }
        NoRowWrittenEither(b, a, starting, referrer);
      case StaffCredit(a, amount) => if DoStaffCredit(b, a, amount).Some? { StaffCreditKeeps(b, a, amount); }
    }
  }

  /** Whether a registration succeeds does not depend on the referral row. */
  lemma NoRowWrittenEither(b: Books, a: Account, starting: nat, referrer: Option<Account>)
    ensures DoSignUp(b, a, starting, referrer, false).Some? <==> DoSignUp(b, a, starting, referrer, true).Some?
  {
  }

  lemma DashboardKeeps(b: Books, a: Account)
    requires BooksInv(b)
    ensures Kept(b, Next(b, OpenDashboard(a)))
  {
    hide Payments.NetInv, Grants.GrantInv, OrdersInv;
    var d := Next(b, OpenDashboard(a));
    forall k ensures SameFor(b.core, d.core, k) { Reflexive(b.core, k); }
    OrdersIgnoreOthers(b, d);
  }

  // ------------------------------------------------------------ the theorems

  lemma Beginning()
    ensures BooksInv(EMPTY) && forall a :: Drift(EMPTY.core, a) == 0
  {
    forall o ensures OrderSettled(EMPTY, o) { }
  }

  lemma PartsOf(b: Books)
    requires BooksInv(b)
    ensures Payments.NetInv(b.core, b.billing) && Grants.GrantInv(b.core, b.grants)
  {
  }

  /** Every reachable state of the whole portal, whatever happens in whatever
      order. */
  lemma {:induction false} BooksRun(run: seq<Action>)
    ensures BooksInv(Play(EMPTY, run))
    ensures forall a :: Drift(Play(EMPTY, run).core, a) == LostBonus(EMPTY, run, a)
  {
    hide BooksInv, Next, Lost, Drift;
    if run == [] {
      Beginning();
    } else {
      var init := run[..|run| - 1];
      BooksRun(init);
      BooksStep(Play(EMPTY, init), run[|run| - 1]);
    }
  }

  /** Global conservation, for every run: a balance is the opening balance, plus
      everything the ledger moved for the account, plus the bonus of every
      referral whose row was lost. */
  lemma LedgerConservation(run: seq<Action>, a: Account)
    ensures var c := Play(EMPTY, run).core;
            Balance(c, a) == Opening(c, a) + Moved(c, a) + LostBonus(EMPTY, run, a)
  {
    hide BooksInv, Next, Lost;
    BooksRun(run);
  }

  /** So wallets and ledger agree for every account exactly when no referral row
      was lost. */
  lemma LedgerAgreesIffNothingLost(run: seq<Action>)
    ensures Conserved(Play(EMPTY, run).core) <==> forall a :: LostBonus(EMPTY, run, a) == 0
  {
    hide BooksInv, Next, Drift, Typed, LostBonus;
    BooksRun(run);
    BooksAreTyped(Play(EMPTY, run));
    var c := Play(EMPTY, run).core;
    if Conserved(c) {
      forall a ensures LostBonus(EMPTY, run, a) == 0 { assert Drift(c, a) == 0; }
    } else {
      var a :| Drift(c, a) != 0;
      assert LostBonus(EMPTY, run, a) != 0;
    }
  }

  /** Net payments: a checkout has at most one crediting row; all its rows
      together are what was credited less what was taken back, which is never
      more than was credited and all of it once the payment says refunded or
      disputed. */
  lemma NetPayments(run: seq<Action>, checkout: string)
    ensures var b := Play(EMPTY, run);
            var net := Total(b.core, Credited(checkout)) + Total(b.core, Reversed(checkout));
            && Rows(b.core.ledger, Credited(checkout)) == (if checkout in b.billing.checkouts then 1 else 0)
            && (checkout !in b.billing.checkouts ==> net == 0)
            && (checkout in b.billing.checkouts ==>
                  var credits, refunded := b.billing.checkouts[checkout].credits,
                      Payments.RefundedOf(b.billing, checkout);
                  0 <= refunded <= credits && net == credits - refunded)
            && (checkout in b.billing.payments && b.billing.payments[checkout].status in {Refunded, Disputed}
                ==> net == 0)
  {
    hide Typed, Grants.GrantInv, OrdersInv;
    BooksRun(run);
    var b := Play(EMPTY, run);
    assert Payments.CheckoutSettled(b.core, b.billing, checkout) && Payments.RowSound(b.billing, checkout);
  }

  /** An order costs its buyer its total until it is refunded, and then nothing. */
  lemma OrdersCostTheirTotalUnlessRefunded(run: seq<Action>, order: nat)
    requires order in Play(EMPTY, run).buyers
    ensures var b := Play(EMPTY, run);
            && order in b.orders.orders
            && Paid(b.core, b.buyers[order], Purchased(order)) + Paid(b.core, b.buyers[order], OrderRefunded(order))
               == if F.Has(b.orders, order, F.Refunded) then 0 else -(b.orders.orders[order].total as int)
  {
    hide Typed, Grants.GrantInv, Payments.NetInv;
    BooksRun(run);
    assert OrderSettled(Play(EMPTY, run), order);
  }

  /** The orders of the books evolve as a run of the fulfilment protocol, so what
      holds of its runs holds here. */
  lemma {:induction false} OrdersRunOnTheirOwn(run: seq<Action>) returns (steps: seq<F.Action>)
    ensures F.Play(F.EMPTY, steps) == Play(EMPTY, run).orders
  {
    hide F.Next, Payments.Next, Grants.Next, F.Refundable, Next;
    if run == [] {
      steps := [];
    } else {
      var init, last := run[..|run| - 1], run[|run| - 1];
      steps := OrdersRunOnTheirOwn(init);
      var b := Play(EMPTY, init);
      var step := OrdersStep(b, last);
      if Next(b, last).orders != b.orders {
        assert (steps + [step])[..|steps|] == steps;
        steps := steps + [step];
      }
    }
  }

  lemma OrdersStep(b: Books, action: Action) returns (step: F.Action)
    ensures Next(b, action).orders == b.orders || Next(b, action).orders == F.Next(b.orders, step)
  {
    hide F.Next, Payments.Next, Grants.Next, F.Refundable;
    step := match action
      case Buy(order, a, realm, total, goods) => F.Purchase(order, realm, total, goods)
      case Fulfil(s, _) => s
      case _ => F.Crash(0);
  }

  /** Exactly-once grants: a code's counter is its number of use rows and within
      its limit, the credits paid for it are that many times its value, and what
      an account was paid for a code, an event, a day or a vote is what its one
      row says. */
  lemma GrantsAreExactlyOnce(run: seq<Action>, id: nat, a: Account, realm: string, date: nat, vote: string)
    ensures var b := Play(EMPTY, run);
            && (id in b.grants.codes ==>
                  var code := b.grants.codes[id];
                  code.usedCount == |Grants.UsesOf(b.grants, id)| <= code.maxUses
                  && Total(b.core, GiftCode(id)) == code.usedCount * code.credits)
            && Paid(b.core, a, GiftCode(id)) == Grants.Get(b.grants.uses, (id, a), 0)
            && Paid(b.core, a, EventReward(id)) == Grants.Get(b.grants.rewards, (id, a), 0)
            && Paid(b.core, a, Daily(realm, date)) == Grants.Get(b.grants.daily, (a, realm, date), 0)
            && Paid(b.core, a, Vote(vote)) == Grants.VotedCredits(b.grants, vote, a)
  {
    hide Typed, OrdersInv, Payments.NetInv;
    BooksRun(run);
    var b := Play(EMPTY, run);
    assert Grants.CodeSound(b.core, b.grants, id) && Grants.PaidOnce(b.core, b.grants, a);
  }

  lemma {:induction false} RowsStayForever(b: Books, run: seq<Action>)
    ensures Grants.RowsStay(b.grants, Play(b, run).grants)
  {
    hide Payments.Next, Grants.Next, F.Next;
    if run != [] {
      var init, last := run[..|run| - 1], run[|run| - 1];
      RowsStayForever(b, init);
      var m := Play(b, init);
      if last.Give? {
        Grants.StepKeepsRows(m.core, m.grants, last.grant, last.commits);
      } else {
        GrantsUntouched(m, last);
      }
    }
  }

  /** A second redemption, reward, claim or vote is refused, whatever happened in
      between and however much later. */
  lemma SecondGrantIsRefused(b: Books, run: seq<Action>, id: nat, a: Account, realm: string, date: nat, vote: string)
    ensures var later := Play(b, run);
            && ((id, a) in b.grants.uses ==>
                  forall expired :: Grants.DoRedeem(later.core, later.grants, id, a, expired) == None)
            && ((id, a) in b.grants.rewards ==> Grants.DoReward(later.core, later.grants, id, a) == None)
            && ((a, realm, date) in b.grants.daily ==>
                  forall n :: Grants.DoDaily(later.core, later.grants, a, realm, date, n) == None)
            && (vote in b.grants.votes ==>
                  forall other, n :: Grants.DoVote(later.core, later.grants, vote, other, n) == None)
  {
    hide Play, Grant;
    RowsStayForever(b, run);
  }

  lemma {:induction false} AckRun(run: seq<Action>, payload: string -> Payments.Payload)
    requires forall i :: 0 <= i < |run| && run[i].Bill? ==> Payments.Genuine(run[i].billing, payload)
    ensures Payments.AckInv(Play(EMPTY, run).billing, payload)
  {
    hide Payments.Next, Grants.Next, F.Next, Payments.Genuine;
    if run != [] {
      var init, last := run[..|run| - 1], run[|run| - 1];
      AckRun(init, payload);
      var b := Play(EMPTY, init);
      if last.Bill? {
        Payments.AckStep(b.core, b.billing, last.billing, payload);
      } else {
        BillingUntouched(b, last);
      }
    }
  }

  /** No payment is lost: an acknowledged webhook of a paid checkout had valid
      metadata and its checkout is credited, by exactly one ledger row, through any
      crashes, redeliveries and concurrent deliveries. */
  lemma AcknowledgedPaymentsAreCredited(run: seq<Action>, payload: string -> Payments.Payload, id: string)
    requires forall i :: 0 <= i < |run| && run[i].Bill? ==> Payments.Genuine(run[i].billing, payload)
    requires var b := Play(EMPTY, run).billing; id in b.webhooks && b.webhooks[id]
    requires payload(id).CheckoutCompleted? && payload(id).session.paid
    ensures var b := Play(EMPTY, run);
            var s := payload(id).session;
            && Payments.Creditable(payload(id)) && s.checkout in b.billing.checkouts
            && Rows(b.core.ledger, Credited(s.checkout)) == 1
  {
    hide Payments.NetInv, Play;
    AckRun(run, payload);
    NetPayments(run, payload(id).session.checkout);
  }

  lemma {:induction false} PaidRun(run: seq<Action>, payload: string -> Payments.Payload)
    requires forall i :: 0 <= i < |run| && run[i].Bill? ==> Payments.Genuine(run[i].billing, payload)
    ensures Payments.PaidInv(Play(EMPTY, run).billing, payload)
  {
    hide Payments.Next, Grants.Next, F.Next, Payments.Genuine;
    if run != [] {
      var init, last := run[..|run| - 1], run[|run| - 1];
      PaidRun(init, payload);
      var b := Play(EMPTY, init);
      if last.Bill? {
        Payments.PaidStep(b.core, b.billing, last.billing, payload);
      } else {
        BillingUntouched(b, last);
      }
    }
  }

  /** No payment is made up: whatever was ever credited for a checkout was credited
      to the account a paid session of that checkout names, by as much as it names,
      which is 1 to 1000000 credits. */
  lemma CreditedCheckoutsWerePaid(run: seq<Action>, payload: string -> Payments.Payload, checkout: string)
    requires forall i :: 0 <= i < |run| && run[i].Bill? ==> Payments.Genuine(run[i].billing, payload)
    requires Rows(Play(EMPTY, run).core.ledger, Credited(checkout)) > 0
    ensures var b := Play(EMPTY, run);
            && checkout in b.billing.checkouts
            && var event := b.billing.checkouts[checkout].event;
               && payload(event).CheckoutCompleted?
               && var s := payload(event).session;
                  && s.paid && s.checkout == checkout
                  && s.account.Some? && s.credits.Some? && 0 < s.credits.value <= 1_000_000
                  && Paid(b.core, s.account.value, Credited(checkout)) == Total(b.core, Credited(checkout))
                      == s.credits.value
  {
    hide Typed, Grants.GrantInv, OrdersInv, Play;
    BooksRun(run);
    PaidRun(run, payload);
    var b := Play(EMPTY, run);
    assert Payments.CheckoutSettled(b.core, b.billing, checkout);
    assert Payments.WasPaid(payload, checkout, b.billing.checkouts[checkout]);
  }

  lemma BillingUntouched(b: Books, action: Action)
    requires !action.Bill?
    ensures Next(b, action).billing == b.billing
  {
    hide Grants.Next, F.Next;
  }

  /** Registration and cancellation alone never take an event past its capacity
      (or past what staff had already let in). */
  lemma {:induction false} CapacityHolds(b: Books, run: seq<Action>, event: nat)
    requires event in b.grants.events && b.grants.events[event].capacity > 0
    requires forall i :: 0 <= i < |run| && run[i].Give? ==> Grants.LeavesEventToPlayers(run[i].grant, event)
    ensures var g := Play(b, run).grants;
            && event in g.events && g.events[event] == b.grants.events[event]
            && (|Grants.ActivePlaces(g, event)| <= g.events[event].capacity
                || |Grants.ActivePlaces(g, event)| <= |Grants.ActivePlaces(b.grants, event)|)
  {
    hide Payments.Next, Grants.Next, F.Next, Grants.ActivePlaces, Grants.LeavesEventToPlayers;
    if run != [] {
      var init, last := run[..|run| - 1], run[|run| - 1];
      CapacityHolds(b, init, event);
      var m := Play(b, init);
      if last.Give? {
        Grants.PlayersRespectCapacity(m.core, m.grants, last.grant, last.commits, event);
      } else {
        GrantsUntouched(m, last);
      }
    }
  }

  lemma GrantsUntouched(b: Books, action: Action)
    requires !action.Give?
    ensures Next(b, action).grants == b.grants
  {
    hide Payments.Next, F.Next;
  }
}
