/** Payment webhooks: deliveries arrive late, twice and together, and a handler
    can stop after any statement. */
module Payments {
  import opened Common
  import opened CreditLedger
  import opened Reversals

  // ------------------------------------------------------------ events

  /** checkout.session.completed; account and credits are None when the metadata
      does not parse. */
  datatype Session = Session(checkout: string, paid: bool, account: Option<Account>, credits: Option<nat>,
      intent: string,
                             amountTotal: nat)

  datatype Payload =
    | CheckoutCompleted(session: Session)
    | Reversing(intent: string, reversal: Reversal)
    | Unrelated

  datatype Event = Event(id: string, payload: Payload)

  // ------------------------------------------------------------ state

  datatype CheckoutRow = CheckoutRow(event: string, account: Account, credits: nat)

  /** Where a handler stands: it found its event recorded before, it is about to
      run the transaction, or it is about to set the processed flag. */
  datatype Stage = Seen | Handling | Marking

  datatype Handler = Handler(event: Event, stage: Stage)

  /** `events` and `checkouts` are portal_payment_events under its two unique
      keys; `byIntent` is the unique key of portal_payment_transactions. */
  datatype Billing = Billing(
    webhooks: map<string, bool>,
    events: map<string, string>,
    checkouts: map<string, CheckoutRow>,
    payments: map<string, Payment>,
    byIntent: map<string, string>,
    handlers: map<nat, Handler>)

  datatype Action =
    | Deliver(h: nat, event: Event)
    | Check(h: nat, readOk: bool)
    | Handle(h: nat, commits: bool)
    | Mark(h: nat, writes: bool)
    | Crash(h: nat)
    | RequestRefund(checkout: string)

  // ------------------------------------------------------------ transactions

  predicate ValidMetadata(s: Session) {
    s.account.Some? && s.account.value < TWO32 && s.credits.Some? && 0 < s.credits.value <= MAX_CREDITS
  }

  /** Adds the payment, or overwrites the row it collides with: one with the same
      checkout or, failing that, the same intent takes the new intent, total and
      status; taking another row's intent fails. */
  function SavePayment(b: Billing, checkout: string, p: Payment): Option<Billing> {
    if checkout in b.payments then
      var row := b.payments[checkout];
      if p.intent in b.byIntent && b.byIntent[p.intent] != checkout then None
      else
        Some(b.(payments := b.payments[checkout :=
            row.(intent := p.intent, amountTotal := p.amountTotal, status := Settled)],
                byIntent := (b.byIntent - {row.intent})[p.intent := checkout]))
    else if p.intent in b.byIntent then
      var other := b.byIntent[p.intent];
      if other !in b.payments then None
      else Some(b.(payments :=
          b.payments[other := b.payments[other].(amountTotal := p.amountTotal, status := Settled)]))
    else Some(b.(payments := b.payments[checkout := p], byIntent := b.byIntent[p.intent := checkout]))
  }

  /** The crediting transaction; None when it rolls back. */
  function Credit(c: Core, b: Billing, event: string, s: Session): Option<(Core, Billing)>
    requires ValidMetadata(s)
  {
    if event in b.events || s.checkout in b.checkouts then Some((c, b))
    else
      var account, credits := s.account.value, s.credits.value;
      match Grant(c, account, credits, Credited(s.checkout))
      case None => None
      case Some(d) =>
        var row := CheckoutRow(event, account, credits);
        var inserted := b.(events := b.events[event := s.checkout], checkouts := b.checkouts[s.checkout := row]);
        match SavePayment(inserted, s.checkout, Payment(s.intent, account, credits, 0, s.amountTotal, Settled))
        case None => None
        case Some(saved) => Some((d, saved))
  }

  /** The processed flag of a recorded event. */
  function SetProcessed(webhooks: map<string, bool>, id: string): map<string, bool> {
    if id in webhooks then webhooks[id := true] else webhooks
  }

  /** The reversal transaction, which sets the processed flag itself. */
  function ReverseFor(c: Core, b: Billing, event: string, intent: string, r: Reversal): Option<(Core, Billing)> {
    if intent == "" || intent !in b.byIntent || b.byIntent[intent] !in b.payments then None
    else
      var checkout := b.byIntent[intent];
      match Reverse(c, checkout, b.payments[checkout], r)
      case None => None
      case Some((d, q)) =>
          Some((d, b.(payments := b.payments[checkout := q], webhooks := SetProcessed(b.webhooks, event))))
  }

  // ------------------------------------------------------------ handlers

  function Stop(b: Billing, h: nat): Billing { b.(handlers := b.handlers - {h}) }

  function Advance(b: Billing, h: nat, stage: Stage): Billing
    requires h in b.handlers
  {
    b.(handlers := b.handlers[h := b.handlers[h].(stage := stage)])
  }

  function Arrive(b: Billing, h: nat, e: Event): Billing {
    if e.id in b.webhooks then b.(handlers := b.handlers[h := Handler(e, Seen)])
    else b.(webhooks := b.webhooks[e.id := false], handlers := b.handlers[h := Handler(e, Handling)])
  }

  /** The transaction of a checkout handler. A rollback answers with an error, so
      the event will be delivered again. */
  function HandleCheckout(c: Core, b: Billing, h: nat, id: string, s: Session, commits: bool): (Core, Billing)
    requires h in b.handlers
  {
    if !s.paid then (c, Advance(b, h, Marking))
    else if !ValidMetadata(s) then (c, Stop(b, h))
    else
      match (if commits then Credit(c, b, id, s) else None)
      case None => (c, Stop(b, h))
      case Some(r) => (r.0, r.1.(handlers := b.handlers[h := b.handlers[h].(stage := Marking)]))
  }

  function HandleReversal(c: Core, b: Billing, h: nat, id: string, intent: string, r: Reversal,
                          commits: bool): (Core, Billing) {
    match (if commits then ReverseFor(c, b, id, intent, r) else None)
    case None => (c, Stop(b, h))
    case Some(done) => (done.0, Stop(done.1, h))
  }

  function HandleEvent(c: Core, b: Billing, h: nat, e: Event, commits: bool): (Core, Billing)
    requires h in b.handlers
  {
    match e.payload
    case CheckoutCompleted(s) => HandleCheckout(c, b, h, e.id, s, commits)
    case Reversing(intent, r) => HandleReversal(c, b, h, e.id, intent, r, commits)
    case Unrelated => (c, Advance(b, h, Marking))
  }

  predicate At(b: Billing, h: nat, stage: Stage) { h in b.handlers && b.handlers[h].stage == stage }

  /** One step of billing; a step that is not enabled changes nothing. */
  function Next(c: Core, b: Billing, action: Action): (Core, Billing) {
    match action
    case Deliver(h, e) => if h in b.handlers || e.id == "" then (c, b) else (c, Arrive(b, h, e))
    case Check(h, readOk) =>
      if !At(b, h, Seen) then (c, b)
      else
        var id := b.handlers[h].event.id;
        (c, if readOk && id in b.webhooks && b.webhooks[id] then Stop(b, h) else Advance(b, h, Handling))
    case Handle(h, commits) => if At(b, h, Handling) then HandleEvent(c, b, h, b.handlers[h].event, commits) else (c, b)
    case Mark(h, writes) =>
      if !At(b, h, Marking) then (c, b)
      else
        var id := b.handlers[h].event.id;
        (c, Stop(if writes then b.(webhooks := SetProcessed(b.webhooks, id)) else b, h))
    case Crash(h) => (c, Stop(b, h))
    case RequestRefund(checkout) =>
      if checkout in b.payments && b.payments[checkout].status == Settled && b.payments[checkout].intent != "" then
        (c, b.(payments := b.payments[checkout := b.payments[checkout].(status := RefundPending)]))
      else (c, b)
  }

  function Start(): Billing { Billing(map[], map[], map[], map[], map[], map[]) }

  // ------------------------------------------------------------ the invariant

  function RefundedOf(b: Billing, checkout: string): nat {
    if checkout in b.payments then b.payments[checkout].refunded else 0
  }

  /** A checkout is credited by exactly one ledger row or none, to its recipient;
      its rows sum to what was credited less what was taken back. */
  ghost predicate CheckoutSettled(c: Core, b: Billing, checkout: string) {
    if checkout !in b.checkouts then
      Rows(c.ledger, Credited(checkout)) == 0 && Total(c, Credited(checkout)) == 0 && Total(c, Reversed(checkout)) == 0
      && (forall a :: Paid(c, a, Credited(checkout)) == 0 && Paid(c, a, Reversed(checkout)) == 0)
      && checkout !in b.payments
    else
      var row := b.checkouts[checkout];
      && Rows(c.ledger, Credited(checkout)) == 1
      && Total(c, Credited(checkout)) == Paid(c, row.account, Credited(checkout)) == row.credits
      && Total(c, Reversed(checkout)) == Paid(c, row.account, Reversed(checkout)) == -(RefundedOf(b, checkout) as int)
      && RefundedOf(b, checkout) <= row.credits <= MAX_CREDITS && row.account in c.wallets
  }

  /** A payment row belongs to a credited checkout, agrees with it, and is the row
      its intent leads to. */
  ghost predicate RowSound(b: Billing, checkout: string) {
    checkout in b.payments ==>
      var p := b.payments[checkout];
      && checkout in b.checkouts && p.recipient == b.checkouts[checkout].account
          && p.credits == b.checkouts[checkout].credits
      && (p.status in {Refunded, Disputed} ==> p.refunded == p.credits)
      && p.intent in b.byIntent && b.byIntent[p.intent] == checkout
  }

  ghost predicate Indexed(b: Billing) {
    forall i :: i in b.byIntent ==> b.byIntent[i] in b.payments && b.payments[b.byIntent[i]].intent == i
  }

  ghost predicate NetInv(c: Core, b: Billing) {
    && Typed(c)
    && (forall k :: CheckoutSettled(c, b, k))
    && (forall k :: RowSound(b, k))
    && Indexed(b)
  }

  // ------------------------------------------------------------ each step keeps it

  lemma SameTables(c: Core, b: Billing, d: Billing)
    requires NetInv(c, b) && d.checkouts == b.checkouts && d.payments == b.payments && d.byIntent == b.byIntent
    ensures NetInv(c, d)
  {
    forall k ensures CheckoutSettled(c, d, k) { assert CheckoutSettled(c, b, k); }
    forall k ensures RowSound(d, k) { assert RowSound(b, k); }
  }

  /** Overwriting only status, total and intent-preserving fields of a row. */
  lemma RelabelKeepsNet(c: Core, b: Billing, checkout: string, p: Payment)
    requires NetInv(c, b) && checkout in b.payments
    requires p == b.payments[checkout].(status := p.status, amountTotal := p.amountTotal)
    requires p.status !in {Refunded, Disputed}
    ensures NetInv(c, b.(payments := b.payments[checkout := p]))
  {
    var d := b.(payments := b.payments[checkout := p]);
    forall k ensures CheckoutSettled(c, d, k) { assert CheckoutSettled(c, b, k); }
    forall k ensures RowSound(d, k) { assert RowSound(b, k); }
  }

  /** A new checkout is credited once; everybody else's rows stay. */
  lemma CreditedSettles(c: Core, d: Core, b: Billing, e: Billing, checkout: string, row: CheckoutRow, k: string)
    requires NetInv(c, b) && checkout !in b.checkouts && row.credits <= MAX_CREDITS
    requires Posted(c, d, row.account, row.credits, Credited(checkout))
    requires e.checkouts == b.checkouts[checkout := row]
    requires (forall j :: j != checkout ==> RefundedOf(e, j) == RefundedOf(b, j)) && RefundedOf(e, checkout) == 0
    requires forall j :: j in e.payments ==> j in b.payments || j == checkout
    ensures CheckoutSettled(d, e, k)
  {
    assert CheckoutSettled(c, b, k);
    PostedSums(c, d, row.account, row.credits, Credited(checkout), 0, Credited(k));
    PostedSums(c, d, row.account, row.credits, Credited(checkout), 0, Reversed(k));
    if k == checkout || k in b.checkouts {
      var a := e.checkouts[k].account;
      PostedSums(c, d, row.account, row.credits, Credited(checkout), a, Credited(k));
      PostedSums(c, d, row.account, row.credits, Credited(checkout), a, Reversed(k));
    } else {
      forall a ensures Paid(d, a, Credited(k)) == 0 && Paid(d, a, Reversed(k)) == 0 {
        PostedSums(c, d, row.account, row.credits, Credited(checkout), a, Credited(k));
        PostedSums(c, d, row.account, row.credits, Credited(checkout), a, Reversed(k));
      }
    }
  }

  /** What a save does once the checkout itself is known to have no row. */
  lemma FreshSave(c: Core, b: Billing, inserted: Billing, checkout: string, p: Payment)
    requires NetInv(c, b) && checkout !in b.checkouts
    requires inserted == b.(events := inserted.events, checkouts := inserted.checkouts)
    ensures checkout !in b.payments
    ensures var saved := SavePayment(inserted, checkout, p);
            && saved.Some?
            && saved.value.checkouts == inserted.checkouts && saved.value.events == inserted.events
            && saved.value.webhooks == b.webhooks && saved.value.handlers == b.handlers
            && if p.intent in b.byIntent then
                 var other := b.byIntent[p.intent];
                 && other in b.payments && saved.value.byIntent == b.byIntent
                 && saved.value.payments
                     == b.payments[other := b.payments[other].(amountTotal := p.amountTotal, status := Settled)]
               else
                 && saved.value.payments == b.payments[checkout := p]
                     && saved.value.byIntent == b.byIntent[p.intent := checkout]
  {
    assert CheckoutSettled(c, b, checkout);
  }

  lemma CreditKeepsNet(c: Core, b: Billing, event: string, s: Session)
    requires NetInv(c, b) && ValidMetadata(s) && Credit(c, b, event, s).Some?
    ensures var (d, e) := Credit(c, b, event, s).value; NetInv(d, e)
  {
    hide SavePayment, Grant, Typed, CheckoutSettled, RowSound, Indexed;
    if event in b.events || s.checkout in b.checkouts {
    } else {
      var account, credits := s.account.value, s.credits.value;
      var d := Grant(c, account, credits, Credited(s.checkout)).value;
      GrantPosts(c, account, credits, Credited(s.checkout));
      PostedConserves(c, d, account, credits, Credited(s.checkout));
      var row := CheckoutRow(event, account, credits);
      var p := Payment(s.intent, account, credits, 0, s.amountTotal, Settled);
      var inserted := b.(events := b.events[event := s.checkout], checkouts := b.checkouts[s.checkout := row]);
      FreshSave(c, b, inserted, s.checkout, p);
      var e := SavePayment(inserted, s.checkout, p).value;
      forall k ensures CheckoutSettled(d, e, k) { CreditedSettles(c, d, b, e, s.checkout, row, k); }
      CreditedRows(b, e, s.checkout, row, p);
    }
  }

  /** The payment rows after a fresh save are sound and indexed. */
  lemma CreditedRows(b: Billing, e: Billing, checkout: string, row: CheckoutRow, p: Payment)
    requires Indexed(b) && (forall k :: RowSound(b, k)) && checkout !in b.payments && checkout !in b.checkouts
    requires e.checkouts == b.checkouts[checkout := row]
    requires p == Payment(p.intent, row.account, row.credits, 0, p.amountTotal, Settled)
    requires if p.intent in b.byIntent then
               var other := b.byIntent[p.intent];
               && other in b.payments && e.byIntent == b.byIntent
               && e.payments == b.payments[other := b.payments[other].(amountTotal := p.amountTotal, status := Settled)]
             else
               e.payments == b.payments[checkout := p] && e.byIntent == b.byIntent[p.intent := checkout]
    ensures Indexed(e) && forall k :: RowSound(e, k)
  {
    forall k ensures RowSound(e, k) { assert RowSound(b, k); }
  }

  lemma RowIsSound(c: Core, b: Billing, checkout: string)
    requires NetInv(c, b) && checkout in b.payments
    ensures Sound(c, checkout, b.payments[checkout])
  {
    assert RowSound(b, checkout) && CheckoutSettled(c, b, checkout);
  }

  /** One reversal settles its own checkout anew and nobody else's. */
  lemma ReversedSettles(c: Core, d: Core, b: Billing, e: Billing, checkout: string, q: Payment, k: string)
    requires NetInv(c, b) && checkout in b.payments
    requires e == b.(payments := b.payments[checkout := q], webhooks := e.webhooks)
    requires var p := b.payments[checkout];
             && q == p.(refunded := q.refunded, status := q.status) && q.refunded <= q.credits
             && ((c == d && q.refunded == p.refunded)
                 || Posted(c, d, p.recipient, p.refunded - q.refunded, Reversed(checkout)))
    ensures CheckoutSettled(d, e, k)
  {
    assert CheckoutSettled(c, b, k) && RowSound(b, checkout);
    hide NetInv, Posted;
    if c != d || q.refunded != b.payments[checkout].refunded { PostedSettles(c, d, b, e, checkout, q, k); }
  }

  lemma PostedSettles(c: Core, d: Core, b: Billing, e: Billing, checkout: string, q: Payment, k: string)
    requires checkout in b.payments && CheckoutSettled(c, b, k) && RowSound(b, checkout)
    requires e == b.(payments := b.payments[checkout := q], webhooks := e.webhooks)
    requires var p := b.payments[checkout];
             && q == p.(refunded := q.refunded, status := q.status) && q.refunded <= q.credits
             && Posted(c, d, p.recipient, p.refunded - q.refunded, Reversed(checkout))
    ensures CheckoutSettled(d, e, k)
  {
    var p := b.payments[checkout];
    var delta := p.refunded - q.refunded;
    PostedSums(c, d, p.recipient, delta, Reversed(checkout), 0, Credited(k));
    PostedSums(c, d, p.recipient, delta, Reversed(checkout), 0, Reversed(k));
    if k in b.checkouts {
      PostedSums(c, d, p.recipient, delta, Reversed(checkout), b.checkouts[k].account, Credited(k));
      PostedSums(c, d, p.recipient, delta, Reversed(checkout), b.checkouts[k].account, Reversed(k));
    } else {
      forall a ensures Paid(d, a, Credited(k)) == 0 && Paid(d, a, Reversed(k)) == 0 {
        PostedSums(c, d, p.recipient, delta, Reversed(checkout), a, Credited(k));
        PostedSums(c, d, p.recipient, delta, Reversed(checkout), a, Reversed(k));
      }
    }
  }

  lemma ReversalKeepsNet(c: Core, b: Billing, event: string, intent: string, r: Reversal)
    requires NetInv(c, b) && ReverseFor(c, b, event, intent, r).Some?
    ensures var (d, e) := ReverseFor(c, b, event, intent, r).value; NetInv(d, e)
  {
    hide Reverse, Typed, CheckoutSettled, Posted;
    var checkout := b.byIntent[intent];
    var p := b.payments[checkout];
    var (d, q) := Reverse(c, checkout, p, r).value;
    var e := ReverseFor(c, b, event, intent, r).value.1;
    RowIsSound(c, b, checkout);
    ReversePosts(c, checkout, p, r);
    ReverseStatus(c, checkout, p, r);
    ReverseConserves(c, checkout, p, r);
    forall k ensures CheckoutSettled(d, e, k) { ReversedSettles(c, d, b, e, checkout, q, k); }
    forall k ensures RowSound(e, k) { assert RowSound(b, k) && RowSound(b, checkout); }
  }

  /** What a reversal did: the payment its intent leads to changed in refunded
      credits and status only, and the recipient's wallet by exactly the change of
      the refunded credits. */
  ghost predicate Undone(c: Core, d: Core, checkout: string, p: Payment, q: Payment) {
    && q == p.(refunded := q.refunded, status := q.status)
    && ((c == d && q.refunded == p.refunded) || Posted(c, d, p.recipient, p.refunded - q.refunded, Reversed(checkout)))
  }

  ghost predicate ReversalDone(c: Core, b: Billing, d: Core, e: Billing, intent: string) {
    && intent in b.byIntent
    && var checkout := b.byIntent[intent];
       && checkout in b.payments && checkout in e.payments && e.payments == b.payments[checkout := e.payments[checkout]]
       && Undone(c, d, checkout, b.payments[checkout], e.payments[checkout])
  }

  lemma ReversalMoves(c: Core, b: Billing, event: string, intent: string, r: Reversal)
    requires NetInv(c, b) && ReverseFor(c, b, event, intent, r).Some?
    ensures var (d, e) := ReverseFor(c, b, event, intent, r).value; ReversalDone(c, b, d, e, intent)
  {
    hide Reverse, Typed, CheckoutSettled, Posted;
    var checkout := b.byIntent[intent];
    RowIsSound(c, b, checkout);
    ReversePosts(c, checkout, b.payments[checkout], r);
  }

  lemma HandleKeepsNet(c: Core, b: Billing, h: nat, e: Event, commits: bool)
    requires NetInv(c, b) && h in b.handlers
    ensures var r := HandleEvent(c, b, h, e, commits); NetInv(r.0, r.1)
  {
    hide NetInv, Credit, ReverseFor;
    var r := HandleEvent(c, b, h, e, commits);
    match e.payload {
      case CheckoutCompleted(s) =>
        if commits && s.paid && ValidMetadata(s) && Credit(c, b, e.id, s).Some? {
          CreditKeepsNet(c, b, e.id, s);
          SameTables(r.0, Credit(c, b, e.id, s).value.1, r.1);
        } else {
          SameTables(c, b, r.1);
        }
      case Reversing(intent, reversal) =>
        if commits && ReverseFor(c, b, e.id, intent, reversal).Some? {
          ReversalKeepsNet(c, b, e.id, intent, reversal);
          SameTables(r.0, ReverseFor(c, b, e.id, intent, reversal).value.1, r.1);
        } else {
          SameTables(c, b, r.1);
        }
      case Unrelated => SameTables(c, b, r.1);
    }
  }

  lemma NetStep(c: Core, b: Billing, action: Action)
    requires NetInv(c, b)
    ensures var r := Next(c, b, action); NetInv(r.0, r.1)
  {
    hide NetInv, HandleEvent;
    var r := Next(c, b, action);
    match action {
      case Handle(h, commits) => if At(b, h, Handling) { HandleKeepsNet(c, b, h, b.handlers[h].event, commits); }
      case RequestRefund(checkout) =>
        if r.1 != b { RelabelKeepsNet(c, b, checkout, r.1.payments[checkout]); }
      case _ => SameTables(c, b, r.1);
    }
  }

  // ------------------------------------------------------------ no payment is lost

  /** A paid checkout has valid metadata and its checkout is credited; other
      events ask for nothing. */
  predicate Served(b: Billing, payload: Payload) {
    payload.CheckoutCompleted? && payload.session.paid ==>
        ValidMetadata(payload.session) && payload.session.checkout in b.checkouts
  }

  /** An event that is acknowledged, or about to be, has been served. The payload
      of an event is a function of its id. */
  ghost predicate AckInv(b: Billing, payload: string -> Payload) {
    && (forall h :: h in b.handlers ==> b.handlers[h].event.payload == payload(b.handlers[h].event.id))
    && (forall h :: h in b.handlers && b.handlers[h].stage == Marking ==> Served(b, b.handlers[h].event.payload))
    && (forall id :: id in b.webhooks && b.webhooks[id] ==> Served(b, payload(id)))
    && (forall id :: id in b.events ==>
          payload(id).CheckoutCompleted? && b.events[id] == payload(id).session.checkout && b.events[id] in b.checkouts)
  }

  predicate Genuine(action: Action, payload: string -> Payload) {
    action.Deliver? ==> action.event.payload == payload(action.event.id)
  }

  lemma SaveKeepsTables(b: Billing, checkout: string, p: Payment)
    requires SavePayment(b, checkout, p).Some?
    ensures var d := SavePayment(b, checkout, p).value;
            d.events == b.events && d.checkouts == b.checkouts && d.webhooks == b.webhooks && d.handlers == b.handlers
  {
  }

  lemma CreditKeepsHandlers(c: Core, b: Billing, event: string, s: Session)
    requires ValidMetadata(s)
    ensures Credit(c, b, event, s).Some? ==> Credit(c, b, event, s).value.1.handlers == b.handlers
  {
  }

  lemma CreditServes(c: Core, b: Billing, event: string, s: Session, payload: string -> Payload)
    requires AckInv(b, payload) && payload(event) == CheckoutCompleted(s) && s.paid && ValidMetadata(s)
    requires Credit(c, b, event, s).Some?
    ensures var d := Credit(c, b, event, s).value.1;
            d.webhooks == b.webhooks && d.handlers == b.handlers && Served(d, payload(event)) && AckInv(d, payload)
  {
    hide SavePayment, Grant;
    if !(event in b.events || s.checkout in b.checkouts) {
      var row := CheckoutRow(event, s.account.value, s.credits.value);
      var inserted := b.(events := b.events[event := s.checkout], checkouts := b.checkouts[s.checkout := row]);
      var p := Payment(s.intent, s.account.value, s.credits.value, 0, s.amountTotal, Settled);
      SaveKeepsTables(inserted, s.checkout, p);
    }
  }

  /** A handler stops, and flags may be set for served events. */
  lemma StopKeepsAck(b: Billing, d: Billing, h: nat, payload: string -> Payload)
    requires AckInv(b, payload) && d.events == b.events && d.checkouts == b.checkouts && d.handlers == b.handlers - {h}
    requires forall id :: id in d.webhooks && d.webhooks[id] ==>
        (id in b.webhooks && b.webhooks[id]) || Served(b, payload(id))
    ensures AckInv(d, payload)
  {
    hide ValidMetadata;
  }

  lemma AdvanceKeepsAck(b: Billing, h: nat, stage: Stage, payload: string -> Payload)
    requires AckInv(b, payload) && h in b.handlers && (stage == Marking ==> Served(b, b.handlers[h].event.payload))
    ensures AckInv(Advance(b, h, stage), payload)
  {
    hide ValidMetadata;
  }

  lemma ArriveKeepsAck(b: Billing, h: nat, e: Event, payload: string -> Payload)
    requires AckInv(b, payload) && h !in b.handlers && e.payload == payload(e.id)
    ensures AckInv(Arrive(b, h, e), payload)
  {
    hide AckInv;
    JoinKeepsAck(b, Arrive(b, h, e), h, payload);
  }

  /** A handler joins that marks nothing yet. */
  lemma JoinKeepsAck(b: Billing, d: Billing, h: nat, payload: string -> Payload)
    requires AckInv(b, payload) && d.events == b.events && d.checkouts == b.checkouts
    requires h in d.handlers && d.handlers == b.handlers[h := d.handlers[h]] && d.handlers[h].stage != Marking
    requires d.handlers[h].event.payload == payload(d.handlers[h].event.id)
    requires forall id :: id in d.webhooks && d.webhooks[id] ==> id in b.webhooks && b.webhooks[id]
    ensures AckInv(d, payload)
  {
    hide ValidMetadata;
  }

  lemma CheckoutServes(c: Core, b: Billing, h: nat, e: Event, commits: bool, payload: string -> Payload)
    requires AckInv(b, payload) && h in b.handlers && b.handlers[h].event == e && e.payload.CheckoutCompleted?
    ensures AckInv(HandleCheckout(c, b, h, e.id, e.payload.session, commits).1, payload)
  {
    hide Credit, ValidMetadata, AckInv;
    var s := e.payload.session;
    PayloadOf(b, h, payload);
    if !s.paid {
      AdvanceKeepsAck(b, h, Marking, payload);
    } else if ValidMetadata(s) && commits && Credit(c, b, e.id, s).Some? {
      CreditServes(c, b, e.id, s, payload);
      AdvanceKeepsAck(Credit(c, b, e.id, s).value.1, h, Marking, payload);
    } else {
      StopKeepsAck(b, Stop(b, h), h, payload);
    }
  }

  lemma PayloadOf(b: Billing, h: nat, payload: string -> Payload)
    requires AckInv(b, payload) && h in b.handlers
    ensures payload(b.handlers[h].event.id) == b.handlers[h].event.payload
    ensures b.handlers[h].stage == Marking ==> Served(b, b.handlers[h].event.payload)
  {
  }

  lemma ReversalServes(c: Core, b: Billing, h: nat, e: Event, commits: bool, payload: string -> Payload)
    requires AckInv(b, payload) && h in b.handlers && b.handlers[h].event == e && e.payload.Reversing?
    ensures AckInv(HandleReversal(c, b, h, e.id, e.payload.intent, e.payload.reversal, commits).1, payload)
  {
    hide AckInv, Reverse;
    PayloadOf(b, h, payload);
    StopKeepsAck(b, HandleReversal(c, b, h, e.id, e.payload.intent, e.payload.reversal, commits).1, h, payload);
  }

  lemma MarkServes(b: Billing, h: nat, writes: bool, payload: string -> Payload)
    requires AckInv(b, payload) && At(b, h, Marking)
    ensures AckInv(Next(Core(map[], map[], []), b, Mark(h, writes)).1, payload)
  {
    hide AckInv;
    PayloadOf(b, h, payload);
    StopKeepsAck(b, Next(Core(map[], map[], []), b, Mark(h, writes)).1, h, payload);
  }

  lemma AckStep(c: Core, b: Billing, action: Action, payload: string -> Payload)
    requires AckInv(b, payload) && Genuine(action, payload)
    ensures AckInv(Next(c, b, action).1, payload)
  {
    hide AckInv, HandleCheckout, HandleReversal;
    match action {
      case Deliver(h, e) => if !(h in b.handlers || e.id == "") { ArriveKeepsAck(b, h, e, payload); }
      case Check(h, readOk) =>
        if At(b, h, Seen) {
          StopKeepsAck(b, Stop(b, h), h, payload);
          AdvanceKeepsAck(b, h, Handling, payload);
        }
      case Handle(h, commits) =>
        if At(b, h, Handling) {
          var e := b.handlers[h].event;
          match e.payload {
            case CheckoutCompleted(_) => CheckoutServes(c, b, h, e, commits, payload);
            case Reversing(_, _) => ReversalServes(c, b, h, e, commits, payload);
            case Unrelated => AdvanceKeepsAck(b, h, Marking, payload);
          }
        }
      case Mark(h, writes) => if At(b, h, Marking) { MarkServes(b, h, writes, payload); }
      case Crash(h) => StopKeepsAck(b, Stop(b, h), h, payload);
      case RequestRefund(checkout) => RelabelKeepsAck(b, Next(c, b, action).1, payload);
    }
  }

  lemma RelabelKeepsAck(b: Billing, d: Billing, payload: string -> Payload)
    requires AckInv(b, payload) && d == b.(payments := d.payments)
    ensures AckInv(d, payload)
  {
  }

  // ------------------------------------------------------------ no payment is made up

  /** The row credits what the paid checkout session of its event says. */
  ghost predicate WasPaid(payload: string -> Payload, checkout: string, row: CheckoutRow) {
    var p := payload(row.event);
    && p.CheckoutCompleted? && p.session.paid && p.session.checkout == checkout
    && p.session.account == Some(row.account) && row.account < 0x1_0000_0000
    && p.session.credits == Some(row.credits) && 0 < row.credits <= 1_000_000
  }

  ghost predicate PaidInv(b: Billing, payload: string -> Payload) {
    && (forall h :: h in b.handlers ==> b.handlers[h].event.payload == payload(b.handlers[h].event.id))
    && (forall k :: k in b.checkouts ==> WasPaid(payload, k, b.checkouts[k]))
  }

  /** Handlers keep their events, and one may join with a genuine one. */
  ghost predicate HandlersFrom(b: Billing, d: Billing, payload: string -> Payload) {
    && d.checkouts == b.checkouts
    && forall h :: h in d.handlers ==>
         || (h in b.handlers && d.handlers[h].event == b.handlers[h].event)
         || d.handlers[h].event.payload == payload(d.handlers[h].event.id)
  }

  lemma SameCheckouts(b: Billing, d: Billing, payload: string -> Payload)
    requires PaidInv(b, payload) && HandlersFrom(b, d, payload)
    ensures PaidInv(d, payload)
  {
  }

  lemma Moves(b: Billing, h: nat, stage: Stage, payload: string -> Payload)
    ensures HandlersFrom(b, Stop(b, h), payload)
    ensures h in b.handlers ==> HandlersFrom(b, Advance(b, h, stage), payload)
  {
  }

  lemma CreditIsPaid(c: Core, b: Billing, event: string, s: Session, payload: string -> Payload)
    requires PaidInv(b, payload) && payload(event) == CheckoutCompleted(s) && s.paid && ValidMetadata(s)
    requires Credit(c, b, event, s).Some?
    ensures PaidInv(Credit(c, b, event, s).value.1, payload)
  {
    hide SavePayment, Grant;
    if !(event in b.events || s.checkout in b.checkouts) {
      var row := CheckoutRow(event, s.account.value, s.credits.value);
      var inserted := b.(events := b.events[event := s.checkout], checkouts := b.checkouts[s.checkout := row]);
      SaveKeepsTables(inserted, s.checkout, Payment(s.intent, row.account, row.credits, 0, s.amountTotal, Settled));
    }
  }

  lemma CheckoutIsPaid(c: Core, b: Billing, h: nat, id: string, s: Session, commits: bool, payload: string -> Payload)
    requires PaidInv(b, payload) && h in b.handlers && payload(id) == CheckoutCompleted(s)
    ensures PaidInv(HandleCheckout(c, b, h, id, s, commits).1, payload)
  {
    hide Credit, PaidInv, ValidMetadata, HandlersFrom;
    Moves(b, h, Marking, payload);
    if s.paid && ValidMetadata(s) && commits && Credit(c, b, id, s).Some? {
      var e := Credit(c, b, id, s).value.1;
      CreditIsPaid(c, b, id, s, payload);
      CreditKeepsHandlers(c, b, id, s);
      Moves(e, h, Marking, payload);
      SameCheckouts(e, Advance(e, h, Marking), payload);
    } else {
      SameCheckouts(b, HandleCheckout(c, b, h, id, s, commits).1, payload);
    }
  }

  lemma ReversalIsPaid(c: Core, b: Billing, h: nat, id: string, intent: string, r: Reversal, commits: bool,
                       payload: string -> Payload)
    requires PaidInv(b, payload)
    ensures PaidInv(HandleReversal(c, b, h, id, intent, r, commits).1, payload)
  {
    hide Reverse, PaidInv;
    SameCheckouts(b, HandleReversal(c, b, h, id, intent, r, commits).1, payload);
  }

  lemma HandleIsPaid(c: Core, b: Billing, h: nat, e: Event, commits: bool, payload: string -> Payload)
    requires PaidInv(b, payload) && h in b.handlers && b.handlers[h].event == e
    ensures PaidInv(HandleEvent(c, b, h, e, commits).1, payload)
  {
    hide PaidInv, HandleCheckout, HandleReversal, HandlersFrom;
    GenuineHandler(b, h, payload);
    match e.payload {
      case CheckoutCompleted(s) => CheckoutIsPaid(c, b, h, e.id, s, commits, payload);
      case Reversing(intent, r) => ReversalIsPaid(c, b, h, e.id, intent, r, commits, payload);
      case Unrelated =>
        Moves(b, h, Marking, payload);
        SameCheckouts(b, Advance(b, h, Marking), payload);
    }
  }

  lemma GenuineHandler(b: Billing, h: nat, payload: string -> Payload)
    requires PaidInv(b, payload) && h in b.handlers
    ensures payload(b.handlers[h].event.id) == b.handlers[h].event.payload
  {
  }

  lemma ArriveIsPaid(b: Billing, h: nat, e: Event, payload: string -> Payload)
    requires PaidInv(b, payload) && e.payload == payload(e.id)
    ensures PaidInv(Arrive(b, h, e), payload)
  {
    hide PaidInv;
    SameCheckouts(b, Arrive(b, h, e), payload);
  }

  lemma PaidStep(c: Core, b: Billing, action: Action, payload: string -> Payload)
    requires PaidInv(b, payload) && Genuine(action, payload)
    ensures PaidInv(Next(c, b, action).1, payload)
  {
    hide PaidInv, HandleEvent, Arrive, HandlersFrom;
    match action {
      case Deliver(h, e) => if !(h in b.handlers || e.id == "") { ArriveIsPaid(b, h, e, payload); }
      case Check(h, readOk) =>
        if At(b, h, Seen) {
          Moves(b, h, Handling, payload);
          SameCheckouts(b, Next(c, b, action).1, payload);
        }
      case Handle(h, commits) => if At(b, h, Handling) { HandleIsPaid(c, b, h, b.handlers[h].event, commits, payload); }
      case Mark(h, writes) => if At(b, h, Marking) { MarkIsPaid(b, Next(c, b, action).1, h, payload); }
      case Crash(h) => MarkIsPaid(b, Stop(b, h), h, payload);
      case RequestRefund(checkout) => RelabelIsPaid(b, Next(c, b, action).1, payload);
    }
  }

  lemma MarkIsPaid(b: Billing, d: Billing, h: nat, payload: string -> Payload)
    requires PaidInv(b, payload) && d.checkouts == b.checkouts && d.handlers == b.handlers - {h}
    ensures PaidInv(d, payload)
  {
  }

  lemma RelabelIsPaid(b: Billing, d: Billing, payload: string -> Payload)
    requires PaidInv(b, payload) && d == b.(payments := d.payments)
    ensures PaidInv(d, payload)
  {
  }

  // ------------------------------------------------------------ what one event does

  /** An event that asks for nothing to be credited or taken back. */
  predicate AsksForNothing(payload: Payload) {
    payload.Unrelated? || (payload.CheckoutCompleted? && !payload.session.paid)
  }

  /** A paid session that names an account and 1 to 1000000 credits. */
  predicate Creditable(payload: Payload) {
    && payload.CheckoutCompleted? && payload.session.paid
    && payload.session.account.Some? && payload.session.account.value < 0x1_0000_0000
    && payload.session.credits.Some? && 0 < payload.session.credits.value <= 1_000_000
  }

  /** A session's checkout and payment row, whose unique intent may be taken. */
  ghost predicate PaymentSaved(b: Billing, d: Billing, event: string, s: Session)
    requires s.account.Some? && s.credits.Some?
  {
    && d.events == b.events[event := s.checkout]
    && d.checkouts == b.checkouts[s.checkout := CheckoutRow(event, s.account.value, s.credits.value)]
    && if s.intent in b.byIntent then
         && d.byIntent == b.byIntent && b.byIntent[s.intent] in b.payments
         && d.payments == b.payments[b.byIntent[s.intent] :=
              b.payments[b.byIntent[s.intent]].(amountTotal := s.amountTotal, status := Settled)]
       else
         && d.byIntent == b.byIntent[s.intent := s.checkout]
         && d.payments == b.payments[s.checkout :=
              Payment(s.intent, s.account.value, s.credits.value, 0, s.amountTotal, Settled)]
  }

  /** A new event for a new checkout is credited exactly when the columns hold it. */
  lemma CreditIs(c: Core, b: Billing, event: string, s: Session)
    requires NetInv(c, b) && ValidMetadata(s)
    ensures var isNew, r := event !in b.events && s.checkout !in b.checkouts, Credit(c, b, event, s);
            if isNew then
              && (r.Some? <==> Fits(c, s.account.value, s.credits.value))
              && (r.Some? ==> && Posted(c, r.value.0, s.account.value, s.credits.value, Credited(s.checkout))
                              && PaymentSaved(b, r.value.1, event, s))
            else r == Some((c, b))
  {
    hide SavePayment, Grant, CheckoutSettled, RowSound, Indexed, Posted;
    if event !in b.events && s.checkout !in b.checkouts {
      var account, credits := s.account.value, s.credits.value;
      GrantsWhatFits(c, account, credits, Credited(s.checkout));
      if Fits(c, account, credits) { GrantPosts(c, account, credits, Credited(s.checkout)); }
      var row := CheckoutRow(event, account, credits);
      var inserted := b.(events := b.events[event := s.checkout], checkouts := b.checkouts[s.checkout := row]);
      FreshSave(c, b, inserted, s.checkout, Payment(s.intent, account, credits, 0, s.amountTotal, Settled));
    }
  }

  /** Asking for a refund only relabels a settled payment that has an intent. */
  lemma RequestRefundIs(c: Core, b: Billing, checkout: string)
    ensures var (d, e) := Next(c, b, RequestRefund(checkout));
            && d == c
            && if checkout in b.payments && b.payments[checkout].status == Settled && b.payments[checkout].intent != ""
               then e == b.(payments := b.payments[checkout := b.payments[checkout].(status := RefundPending)])
               else e == b
  {
  }
}
