/** The credit transactions as the handlers run them: fields are the tables, a
    transaction works on its own copy and either commits it or leaves the
    tables alone. */
module CreditStore {
  import opened Common
  import opened CreditLedger
  import opened Reversals
  import P = Payments
  import G = Grants
  import B = Books

  datatype Receipt = Awarded | Duplicate | Skipped | Unsaved

  class Store {
    var wallets: map<Account, nat>
    var opening: map<Account, nat>
    var ledger: seq<Entry>
    var billing: P.Billing
    var grants: G.Grants

    constructor ()
      ensures Valid()
      ensures Tables() == Core(map[], map[], []) && billing == P.Start() && grants == G.Start()
    {
      wallets, opening, ledger := map[], map[], [];
      billing, grants := P.Start(), G.Start();
      new;
      hide P.NetInv, G.GrantInv;
      B.Beginning();
      B.PartsOf(B.EMPTY);
    }

    /** Payments are settled and grants are once-only, by the tables as they are. */
    ghost predicate Valid()
      reads this
    {
      P.NetInv(Tables(), billing) && G.GrantInv(Tables(), grants)
    }

    function Tables(): Core
      reads this
    {
      Core(wallets, opening, ledger)
    }

    /** COMMIT of a transaction's copy of wallets and ledger. */
    method Commit(tx: Core)
      modifies this`wallets, this`opening, this`ledger
      ensures Tables() == tx
    {
      wallets, opening, ledger := tx.wallets, tx.opening, tx.ledger;
    }

    // ---------------------------------------------------------- webhooks

    /** A delivery is recorded, unless its event was recorded before. */
    method InsertWebhook(h: nat, e: P.Event) returns (inserted: bool)
      requires Valid() && h !in billing.handlers && e.id != ""
      modifies this`billing
      ensures Valid()
      ensures billing == P.Next(Tables(), old(billing), P.Deliver(h, e)).1
      ensures inserted <==> e.id !in old(billing).webhooks
      ensures e.id in billing.webhooks && P.At(billing, h, if inserted then P.Handling else P.Seen)
      ensures billing.handlers[h].event == e && SameRecords(old(billing), billing)
      ensures billing.webhooks == if inserted then old(billing).webhooks[e.id := false] else old(billing).webhooks
    {
      hide P.NetInv, G.GrantInv, P.Next;
      BillKeepsValid(Tables(), billing, grants, P.Deliver(h, e));
      DeliverIs(Tables(), billing, h, e);
      inserted := e.id !in billing.webhooks;
      if inserted {
        billing := billing.(webhooks := billing.webhooks[e.id := false]);
      }
      billing := billing.(handlers := billing.handlers[h := P.Handler(e, if inserted then P.Handling else P.Seen)]);
    }

    /** A repeated delivery looks at the processed flag and goes on unless it is
        read as set. */
    method CheckProcessed(h: nat, readOk: bool) returns (proceed: bool)
      requires Valid() && P.At(billing, h, P.Seen)
      modifies this`billing
      ensures Valid()
      ensures billing == P.Next(Tables(), old(billing), P.Check(h, readOk)).1
      ensures proceed <==> P.At(billing, h, P.Handling)
      ensures billing.webhooks == old(billing.webhooks) && SameRecords(old(billing), billing)
      ensures proceed ==> billing.handlers[h].event == old(billing).handlers[h].event
      ensures var id := old(billing.handlers[h].event.id);
              !proceed <==> readOk && id in billing.webhooks && billing.webhooks[id]
    {
      hide P.NetInv, G.GrantInv, P.Next;
      BillKeepsValid(Tables(), billing, grants, P.Check(h, readOk));
      CheckIs(Tables(), billing, h, readOk);
      var id := billing.handlers[h].event.id;
      if readOk && id in billing.webhooks && billing.webhooks[id] {
        billing := P.Stop(billing, h);
        return false;
      }
      billing := P.Advance(billing, h, P.Handling);
      return true;
    }

    /** Recording a delivery and looking at the processed flag; `proceed` says
        whether the handler goes on. */
    method RecordWebhook(h: nat, e: P.Event, readOk: bool) returns (proceed: bool)
      requires Valid() && h !in billing.handlers && e.id != ""
      modifies this`billing
      ensures Valid()
      ensures var seen := P.Next(Tables(), old(billing), P.Deliver(h, e)).1;
              billing == P.Next(Tables(), seen, P.Check(h, readOk)).1
      ensures e.id in billing.webhooks && (!proceed ==> billing.webhooks[e.id])
      ensures billing.webhooks[e.id] <==> Flagged(old(billing), e.id)
      ensures proceed <==> P.At(billing, h, P.Handling)
      ensures proceed <==> GoesOn(old(billing), e, readOk)
      ensures proceed ==> billing.handlers[h].event == e
      ensures SameRecords(old(billing), billing)
    {
      hide P.NetInv, G.GrantInv, P.Next;
      var inserted := InsertWebhook(h, e);
      CheckIs(Tables(), billing, h, readOk);
      proceed := true;
      if !inserted {
        proceed := CheckProcessed(h, readOk);
      }
    }

    /** The crediting transaction of a paid checkout. */
    method CreditCheckout(event: string, s: P.Session, commits: bool) returns (ok: bool)
      requires Valid() && P.ValidMetadata(s)
      modifies this
      ensures Valid() && grants == old(grants)
      ensures var r := if commits then P.Credit(old(Tables()), old(billing), event, s) else None;
              && (ok <==> r.Some?)
              && (Tables(), billing) == if r.Some? then r.value else (old(Tables()), old(billing))
      ensures var isNew := event !in old(billing).events && s.checkout !in old(billing).checkouts;
              && (ok <==> commits && (isNew ==> Fits(old(Tables()), s.account.value, s.credits.value)))
              && if ok && isNew then
                   && Posted(old(Tables()), Tables(), s.account.value, s.credits.value, Credited(s.checkout))
                   && P.PaymentSaved(old(billing), billing, event, s)
                   && billing.webhooks == old(billing).webhooks && billing.handlers == old(billing).handlers
                 else Tables() == old(Tables()) && billing == old(billing)
    {
      P.CreditIs(Tables(), billing, event, s);
      P.CreditKeepsHandlers(Tables(), billing, event, s);
      hide P.NetInv, G.GrantInv, P.PaymentSaved;
      CreditKeepsValid(Tables(), billing, grants, event, s);
      var tx, rows := Tables(), billing;
      var inserted := event !in rows.events && s.checkout !in rows.checkouts;
      if inserted {
        var account, credits := s.account.value, s.credits.value;
        rows := rows.(events := rows.events[event := s.checkout],
                      checkouts := rows.checkouts[s.checkout := P.CheckoutRow(event, account, credits)]);
        var wallet := Upsert(tx, account, credits);
        if wallet == None {
          return false;
        }
        var logged := Append(wallet.value, Entry(account, credits, Credited(s.checkout)));
        if logged == None {
          return false;
        }
        GrantPosts(tx, account, credits, Credited(s.checkout));
        tx := logged.value;
        var saved := P.SavePayment(rows, s.checkout, Payment(s.intent, account, credits, 0, s.amountTotal, Settled));
        if saved == None {
          return false;
        }
        rows := saved.value;
      }
      if !commits {
        return false;
      }
      Commit(tx);
      billing := rows;
      return true;
    }

    /** What the event asks to have taken back, and the status that follows. */
    static method ReversalTerms(row: Payment, r: Reversal) returns (desiredReversal: nat, nextStatus: Status)
      ensures desiredReversal == Desired(row, r) && nextStatus == NextStatus(row, r)
      ensures row.credits <= 1_000_000 ==> AsksFor(row, r, desiredReversal) && desiredReversal <= row.credits
      ensures nextStatus == match r
                            case Refund(_) => if desiredReversal == row.credits then Refunded else PartiallyRefunded
                            case DisputeCreated => Disputed
                            case DisputeClosed(Won) => Settled
                            case DisputeClosed(_) => Chargeback
    {
      if row.credits <= MAX_CREDITS { ghost var q := AsksForOne(row, r); }
      hide PartialReversal, AsksFor;
      desiredReversal, nextStatus := 0, row.status;
      if r.Refund? {
        desiredReversal := row.credits;
        if r.amountRefunded > 0 && row.amountTotal > 0 && r.amountRefunded < row.amountTotal {
          desiredReversal := PartialReversal(row.credits, r.amountRefunded, row.amountTotal);
        }
      } else if r.DisputeCreated? || r == DisputeClosed(Lost) {
        desiredReversal := row.credits;
      }
      if r.DisputeCreated? {
        nextStatus := Disputed;
      } else if r == DisputeClosed(Won) {
        nextStatus := Settled;
      } else if r.Refund? {
        nextStatus := PartiallyRefunded;
        if desiredReversal == row.credits {
          nextStatus := Refunded;
        }
      } else {
        nextStatus := Chargeback;
      }
    }

    /** The statements on wallet and ledger: give everything back, take the
        difference, or leave them; None when one of them fails. */
    static method TakeBack(tables: Core, checkout: string, row: Payment, r: Reversal)
        returns (done: Option<(Core, Payment)>)
      ensures done == Reverse(tables, checkout, row, r)
    {
      hide AddTo, TakeFrom, Append, Desired, NextStatus, ToInt32;
      var tx, refunded := tables, row.refunded;
      var desiredReversal, nextStatus := ReversalTerms(row, r);
      if r == DisputeClosed(Won) && refunded > 0 && row.status == Disputed {
        var wallet := AddTo(tx, row.recipient, refunded);
        if wallet == None {
          return None;
        }
        var logged := Append(wallet.value, Entry(row.recipient, refunded, Reversed(checkout)));
        if logged == None {
          return None;
        }
        tx := logged.value;
        refunded := 0;
      } else if desiredReversal > refunded {
        var delta := desiredReversal - refunded;
        var wallet := TakeFrom(tx, row.recipient, delta);
        if wallet == None {
          nextStatus := ReversalReview;
        } else {
          var logged := Append(wallet.value, Entry(row.recipient, -ToInt32(delta), Reversed(checkout)));
          if logged == None {
            return None;
          }
          tx := logged.value;
          refunded := desiredReversal;
        }
      }
      return Some((tx, row.(status := nextStatus, refunded := refunded)));
    }

    /** The reversal transaction of a refund or a dispute. */
    method ApplyStripeReversal(event: string, intent: string, r: Reversal, commits: bool) returns (ok: bool)
      requires Valid()
      modifies this
      ensures Valid() && grants == old(grants)
      ensures var done := if commits then P.ReverseFor(old(Tables()), old(billing), event, intent, r) else None;
              && (ok <==> done.Some?)
              && (Tables(), billing) == if done.Some? then done.value else (old(Tables()), old(billing))
      ensures !ok ==> Tables() == old(Tables()) && billing == old(billing)
      ensures ok ==> P.ReversalDone(old(Tables()), old(billing), Tables(), billing, intent)
      ensures ok <==> && commits && intent != "" && intent in old(billing).byIntent
                      && old(billing).byIntent[intent] in old(billing).payments
                      && !GivesBackTooMuch(old(Tables()), old(billing).payments[old(billing).byIntent[intent]], r)
      ensures ok ==> ReversalApplied(old(Tables()), old(billing), Tables(), billing, event, intent, r)
    {
      ReversalIs(Tables(), billing, event, intent, r);
      hide P.NetInv, G.GrantInv, Reverse, P.ReversalDone, P.SetProcessed, ReversalApplied, GivesBackTooMuch;
      ReversalKeepsValid(Tables(), billing, grants, event, intent, r);
      if intent == "" || intent !in billing.byIntent || billing.byIntent[intent] !in billing.payments {
        return false;
      }
      var checkout := billing.byIntent[intent];
      var done := TakeBack(Tables(), checkout, billing.payments[checkout], r);
      if done == None || !commits {
        return false;
      }
      Commit(done.value.0);
      billing := billing.(payments := billing.payments[checkout := done.value.1],
                          webhooks := P.SetProcessed(billing.webhooks, event));
      return true;
    }

    /** The event is flagged as processed, and the handler is done. */
    method MarkProcessed(h: nat, writes: bool)
      requires Valid() && P.At(billing, h, P.Marking)
      modifies this`billing
      ensures Valid()
      ensures billing == P.Next(Tables(), old(billing), P.Mark(h, writes)).1
      ensures var id := old(billing).handlers[h].event.id;
              billing == old(billing).(handlers := old(billing).handlers - {h},
                                       webhooks := if writes && id in old(billing).webhooks
                                                   then old(billing).webhooks[id := true] else old(billing).webhooks)
    {
      hide P.NetInv, G.GrantInv;
      BillKeepsValid(Tables(), billing, grants, P.Mark(h, writes));
      var id := billing.handlers[h].event.id;
      if writes && id in billing.webhooks {
        billing := billing.(webhooks := billing.webhooks[id := true]);
      }
      billing := P.Stop(billing, h);
    }

    /** What the handler does for its kind of event. */
    method HandleEvent(h: nat, commits: bool)
      requires Valid() && P.At(billing, h, P.Handling)
      modifies this
      ensures Valid() && grants == old(grants)
      ensures (Tables(), billing) == P.Next(old(Tables()), old(billing), P.Handle(h, commits))
      ensures EventHandled(old(Tables()), old(billing), Tables(), billing, h, commits)
    {
      hide P.NetInv, G.GrantInv, P.ReversalDone, ReversalApplied, P.PaymentSaved, GivesBackTooMuch;
      BillKeepsValid(Tables(), billing, grants, P.Handle(h, commits));
      MetadataIs(billing.handlers[h].event.payload);
      hide P.Credit, P.ReverseFor, P.ValidMetadata;
      var e := billing.handlers[h].event;
      match e.payload {
        case Unrelated =>
          billing := P.Advance(billing, h, P.Marking);
        case Reversing(intent, r) =>
          var ok := ApplyStripeReversal(e.id, intent, r, commits);
          billing := P.Stop(billing, h);
        case CheckoutCompleted(s) =>
          if !s.paid {
            billing := P.Advance(billing, h, P.Marking);
            return;
          }
          if !P.ValidMetadata(s) {
            billing := P.Stop(billing, h);
            return;
          }
          P.CreditKeepsHandlers(Tables(), billing, e.id, s);
          ghost var before := billing;
          var ok := CreditCheckout(e.id, s, commits);
          SavedWhereverItStands(before, billing, e.id, s, P.Advance(billing, h, P.Marking).handlers);
          billing := if ok then P.Advance(billing, h, P.Marking) else P.Stop(billing, h);
      }
    }

    /** A whole delivery of one webhook when nobody comes in between: the steps of
        its handler in order, each of which the database may fail. */
    method BillingWebhook(h: nat, e: P.Event, readOk: bool, commits: bool, writes: bool)
      requires Valid() && h !in billing.handlers
      modifies this
      ensures Valid() && grants == old(grants)
      ensures (Tables(), billing) == HandlerPass(old(Tables()), old(billing), h, e, readOk, commits, writes)
      ensures DeliveryDone(old(Tables()), old(billing), Tables(), billing, e, readOk, commits)
      ensures e.id != "" ==>
                (Flagged(billing, e.id) <==> || Flagged(old(billing), e.id)
                                             || Acknowledges(old(Tables()), old(billing), e, commits, writes))
    {
      hide P.NetInv, G.GrantInv, EventHandled, DeliveryDone, Acknowledges;
      hide P.Next;
      ghost var c, b := Tables(), billing;
      if e.id == "" {
        NothingDelivered(c, b, h, e, readOk, commits, writes);
        NothingDone(c, b, billing, e, readOk, commits);
        return;
      }
      var proceed := RecordWebhook(h, e, readOk);
      ghost var recorded := billing;
      if proceed {
        HandleEvent(h, commits);
        HandledIsDone(c, b, recorded, Tables(), billing, h, e, readOk, commits);
        HandledIsFlagged(c, b, recorded, Tables(), billing, h, e, commits, writes);
      } else {
        NotAt(Tables(), billing, h, commits, writes);
        NothingDone(c, b, billing, e, readOk, commits);
      }
      ghost var handled := billing;
      if P.At(billing, h, P.Marking) {
        MarkProcessed(h, writes);
        DoneStays(c, b, Tables(), handled, billing, e, readOk, commits);
        ghost var m := P.Next(c, P.Next(c, b, P.Deliver(h, e)).1, P.Check(h, readOk)).1;
        MarkingIgnoresTables(c, P.Next(c, m, P.Handle(h, commits)).0, P.Next(c, m, P.Handle(h, commits)).1, h, writes);
      } else {
        NotAt(Tables(), billing, h, commits, writes);
      }
    }

    // ---------------------------------------------------------- grants

    /** One redemption: the account is paid the code's credits, once, or nothing
        happens. */
    method RedeemGiftCode(id: nat, a: Account, expired: bool, commits: bool) returns (ok: bool)
      requires Valid()
      modifies this
      ensures Valid() && billing == old(billing)
      ensures (Tables(), grants) == G.Next(old(Tables()), old(grants), G.Redeem(id, a, expired), commits)
      ensures ok <==> commits && !expired && id in old(grants).codes
                      && var code := old(grants).codes[id];
                         && code.active && code.usedCount < code.maxUses && (id, a) !in old(grants).uses
                         && Fits(old(Tables()), a, code.credits)
      ensures ok ==> G.RedeemDone(old(Tables()), old(grants), id, a, expired, Tables(), grants)
                     && grants.uses == old(grants).uses[(id, a) := old(grants).codes[id].credits]
                     && grants.codes[id].usedCount == old(grants).codes[id].usedCount + 1
                     && Posted(old(Tables()), Tables(), a, old(grants).codes[id].credits, GiftCode(id))
      ensures !ok ==> Tables() == old(Tables()) && grants == old(grants)
    {
      hide P.NetInv, G.GrantInv;
      GrantKeepsValid(Tables(), billing, grants, G.Redeem(id, a, expired), commits);
      ValidIsTyped(Tables(), grants);
      G.RequestIsDone(Tables(), grants, G.Redeem(id, a, expired));
      if id !in grants.codes {
        return false;
      }
      var code := grants.codes[id];
      if !code.active || expired || code.usedCount >= code.maxUses {
        return false;
      }
      if (id, a) in grants.uses {
        return false;
      }
      var wallet := Upsert(Tables(), a, code.credits);
      if wallet == None {
        return false;
      }
      var logged := Append(wallet.value, Entry(a, code.credits, GiftCode(id)));
      if logged == None || !commits {
        return false;
      }
      GrantPosts(Tables(), a, code.credits, GiftCode(id));
      Commit(logged.value);
      grants := grants.(uses := grants.uses[(id, a) := code.credits],
                        codes := grants.codes[id := code.(usedCount := code.usedCount + 1)]);
      return true;
    }

    /** A place in an event: never one more than the capacity, unless staff had
        already overfilled it. */
    method RegisterForEvent(id: nat, a: Account, closed: bool, commits: bool) returns (ok: bool)
      requires Valid()
      modifies this`grants
      ensures Valid()
      ensures (Tables(), grants) == G.Next(old(Tables()), old(grants), G.Register(id, a, closed), commits)
      ensures ok <==> commits && !closed && id in old(grants).events
                      && (|| old(grants).events[id].capacity == 0 || G.Holds(old(grants), id, a)
                          || |G.ActivePlaces(old(grants), id)| < old(grants).events[id].capacity)
      ensures ok ==> grants == old(grants).(registrations := old(grants).registrations[(id, a) := G.Registered])
                     && G.Holds(grants, id, a)
      ensures id in grants.events && grants.events[id].capacity > 0 ==>
                || |G.ActivePlaces(grants, id)| <= grants.events[id].capacity
                || |G.ActivePlaces(grants, id)| <= |G.ActivePlaces(old(grants), id)|
      ensures !ok ==> grants == old(grants)
    {
      hide P.NetInv, G.GrantInv;
      GrantKeepsValid(Tables(), billing, grants, G.Register(id, a, closed), commits);
      if id in grants.events && grants.events[id].capacity > 0 {
        G.PlayersRespectCapacity(Tables(), grants, G.Register(id, a, closed), commits, id);
      }
      if id !in grants.events || closed {
        return false;
      }
      var event := grants.events[id];
      if event.capacity > 0 && !G.Holds(grants, id, a) {
        var registered := |G.ActivePlaces(grants, id)|;
        if registered >= event.capacity {
          return false;
        }
      }
      if !commits {
        return false;
      }
      grants := grants.(registrations := grants.registrations[(id, a) := G.Registered]);
      return true;
    }

    method CancelRegistration(id: nat, a: Account, commits: bool) returns (ok: bool)
      requires Valid()
      modifies this`grants
      ensures Valid()
      ensures (Tables(), grants) == G.Next(old(Tables()), old(grants), G.Cancel(id, a), commits)
      ensures ok <==> commits && (id, a) in old(grants).registrations
                      && old(grants).registrations[(id, a)] == G.Registered
      ensures ok ==> grants == old(grants).(registrations := old(grants).registrations[(id, a) := G.Cancelled])
                     && !G.Holds(grants, id, a)
                     && G.ActivePlaces(grants, id) == G.ActivePlaces(old(grants), id) - {(id, a)}
      ensures !ok ==> grants == old(grants)
    {
      hide P.NetInv, G.GrantInv;
      GrantKeepsValid(Tables(), billing, grants, G.Cancel(id, a), commits);
      if !commits || (id, a) !in grants.registrations || grants.registrations[(id, a)] != G.Registered {
        return false;
      }
      grants := grants.(registrations := grants.registrations[(id, a) := G.Cancelled]);
      return true;
    }

    /** One event reward: paid to an account that attended, once, or nothing
        happens. */
    method RewardEventAccount(id: nat, a: Account, commits: bool) returns (receipt: Receipt)
      requires Valid()
      modifies this
      ensures Valid() && billing == old(billing)
      ensures (Tables(), grants) == G.Next(old(Tables()), old(grants), G.Reward(id, a), commits)
      ensures receipt == ReceiptOf(old(Tables()), old(grants), id, a, commits)
      ensures ReceiptSays(old(Tables()), old(grants), id, a, commits, receipt)
      ensures receipt == Awarded ==>
                && grants == old(grants).(rewards := old(grants).rewards[(id, a) := old(grants).events[id].reward])
                && Posted(old(Tables()), Tables(), a, old(grants).events[id].reward, EventReward(id))
      ensures receipt != Awarded ==> Tables() == old(Tables()) && grants == old(grants)
    {
      hide P.NetInv, G.GrantInv;
      GrantKeepsValid(Tables(), billing, grants, G.Reward(id, a), commits);
      ValidIsTyped(Tables(), grants);
      ReceiptIsRight(Tables(), grants, id, a, commits);
      if id !in grants.events || grants.events[id].reward == 0 {
        return Skipped;
      }
      var credits := grants.events[id].reward;
      if (id, a) !in grants.registrations || grants.registrations[(id, a)] != G.Attended {
        return Skipped;
      }
      if (id, a) in grants.rewards {
        return Duplicate;
      }
      var wallet := Upsert(Tables(), a, credits);
      if wallet == None {
        return Unsaved;
      }
      var logged := Append(wallet.value, Entry(a, credits, EventReward(id)));
      if logged == None || !commits {
        return Unsaved;
      }
      GrantPosts(Tables(), a, credits, EventReward(id));
      Commit(logged.value);
      grants := grants.(rewards := grants.rewards[(id, a) := credits]);
      return Awarded;
    }

    /** Rewarding a list of accounts: account 0 and repetitions are skipped, and
        `commits[i]` says whether the database lets the i-th transaction through. */
    method AdminEventRewards(id: nat, accounts: seq<Account>, commits: seq<bool>) returns (receipts: seq<Receipt>)
      requires Valid() && |commits| == |accounts|
      modifies this
      ensures Valid() && billing == old(billing)
      ensures (Tables(), grants, receipts) == RewardAll(old(Tables()), old(grants), id, accounts, commits)
      ensures forall a :: BatchOutcome(old(grants), grants, id, accounts, receipts, a)
      ensures |receipts| == |accounts| && ReceiptsSay(old(Tables()), old(grants), id, accounts, commits, receipts)
      ensures forall a :: BatchPays(old(Tables()), old(grants), id, accounts, receipts, a, Tables(), grants)
    {
      hide P.NetInv, G.GrantInv, G.Next, ReceiptOf, ReceiptsSay, BatchPays, ReceiptSays;
      ValidIsTyped(Tables(), grants);
      BatchReceipts(Tables(), grants, id, accounts, commits);
      forall a ensures BatchOutcome(grants, RewardAll(Tables(), grants, id, accounts, commits).1, id, accounts,
                                    RewardAll(Tables(), grants, id, accounts, commits).2, a) {
        BatchAwardsOnce(Tables(), grants, id, accounts, commits, a);
      }
      receipts := [];
      var seen: set<Account> := {};
      for i := 0 to |accounts|
        invariant Valid() && billing == old(billing)
        invariant forall b :: b in seen <==> b != 0 && b in accounts[..i]
        invariant (Tables(), grants, receipts) == RewardAll(old(Tables()), old(grants), id, accounts[..i], commits[..i])
      {
        var a := accounts[i];
        RewardAllSnoc(old(Tables()), old(grants), id, accounts, commits, i);
        if a == 0 || a in seen {
          receipts := receipts + [Skipped];
        } else {
          seen := seen + {a};
          var receipt := RewardEventAccount(id, a, commits[i]);
          receipts := receipts + [receipt];
        }
        assert accounts[..i + 1] == accounts[..i] + [a];
      }
      assert accounts[..|accounts|] == accounts && commits[..|accounts|] == commits;
    }

    /** One daily claim: paid once a day and realm, or nothing happens. */
    method ClaimDailyReward(a: Account, realm: string, date: nat, credits: nat, commits: bool) returns (ok: bool)
      requires Valid()
      modifies this
      ensures Valid() && billing == old(billing)
      ensures (Tables(), grants) == G.Next(old(Tables()), old(grants), G.ClaimDaily(a, realm, date, credits), commits)
      ensures ok <==> commits && (a, realm, date) !in old(grants).daily && Fits(old(Tables()), a, credits)
      ensures ok ==> grants == old(grants).(daily := old(grants).daily[(a, realm, date) := credits])
                     && Posted(old(Tables()), Tables(), a, credits, Daily(realm, date))
      ensures !ok ==> Tables() == old(Tables()) && grants == old(grants)
    {
      hide P.NetInv, G.GrantInv;
      GrantKeepsValid(Tables(), billing, grants, G.ClaimDaily(a, realm, date, credits), commits);
      ValidIsTyped(Tables(), grants);
      if (a, realm, date) in grants.daily {
        return false;
      }
      var wallet := Upsert(Tables(), a, credits);
      if wallet == None {
        return false;
      }
      var logged := Append(wallet.value, Entry(a, credits, Daily(realm, date)));
      if logged == None || !commits {
        return false;
      }
      GrantPosts(Tables(), a, credits, Daily(realm, date));
      Commit(logged.value);
      grants := grants.(daily := grants.daily[(a, realm, date) := credits]);
      return true;
    }

    /** One vote reward: paid once an event id, or nothing happens. */
    method VoteRewardCallback(vote: string, a: Account, credits: nat, commits: bool) returns (ok: bool)
      requires Valid()
      modifies this
      ensures Valid() && billing == old(billing)
      ensures (Tables(), grants) == G.Next(old(Tables()), old(grants), G.RewardVote(vote, a, credits), commits)
      ensures ok <==> commits && vote !in old(grants).votes && Fits(old(Tables()), a, credits)
      ensures ok ==> grants == old(grants).(votes := old(grants).votes[vote := G.VoteRow(a, credits)])
                     && Posted(old(Tables()), Tables(), a, credits, Vote(vote))
      ensures !ok ==> Tables() == old(Tables()) && grants == old(grants)
    {
      hide P.NetInv, G.GrantInv;
      GrantKeepsValid(Tables(), billing, grants, G.RewardVote(vote, a, credits), commits);
      ValidIsTyped(Tables(), grants);
      if vote in grants.votes {
        return false;
      }
      var wallet := Upsert(Tables(), a, credits);
      if wallet == None {
        return false;
      }
      var logged := Append(wallet.value, Entry(a, credits, Vote(vote)));
      if logged == None || !commits {
        return false;
      }
      GrantPosts(Tables(), a, credits, Vote(vote));
      Commit(logged.value);
      grants := grants.(votes := grants.votes[vote := G.VoteRow(a, credits)]);
      return true;
    }
  }

  // ------------------------------------------------------------ validity

  lemma GrantKeepsValid(c: Core, b: P.Billing, g: G.Grants, action: G.Action, commits: bool)
    requires P.NetInv(c, b) && G.GrantInv(c, g)
    ensures var r := G.Next(c, g, action, commits); P.NetInv(r.0, b) && G.GrantInv(r.0, r.1)
  {
    hide P.NetInv, G.GrantInv, G.Next, Typed;
    var d := G.Next(c, g, action, commits).0;
    ValidIsTyped(c, g);
    B.GrantTouches(c, g, action, commits);
    G.GrantStep(c, g, action, commits);
    ValidIsTyped(d, G.Next(c, g, action, commits).1);
    B.PaymentsIgnoreOthers(c, d, b);
  }

  lemma BillKeepsValid(c: Core, b: P.Billing, g: G.Grants, step: P.Action)
    requires P.NetInv(c, b) && G.GrantInv(c, g)
    ensures var r := P.Next(c, b, step); P.NetInv(r.0, r.1) && G.GrantInv(r.0, g)
  {
    hide P.NetInv, G.GrantInv, P.Next, Typed;
    var r := P.Next(c, b, step);
    B.BillingTouches(c, b, step);
    P.NetStep(c, b, step);
    B.NetIsTyped(r.0, r.1);
    B.GrantsIgnoreOthers(c, r.0, g);
  }

  lemma CreditKeepsValid(c: Core, b: P.Billing, g: G.Grants, event: string, s: P.Session)
    requires P.NetInv(c, b) && G.GrantInv(c, g) && P.ValidMetadata(s)
    ensures Typed(c)
    ensures var r := P.Credit(c, b, event, s); r.Some? ==> P.NetInv(r.value.0, r.value.1) && G.GrantInv(r.value.0, g)
  {
    hide P.NetInv, G.GrantInv, P.Credit, Typed;
    ValidIsTyped(c, g);
    var r := P.Credit(c, b, event, s);
    if r.Some? {
      B.CreditTouches(c, b, event, s);
      P.CreditKeepsNet(c, b, event, s);
      B.NetIsTyped(r.value.0, r.value.1);
      B.GrantsIgnoreOthers(c, r.value.0, g);
    }
  }

  lemma ReversalKeepsValid(c: Core, b: P.Billing, g: G.Grants, event: string, intent: string, r: Reversal)
    requires P.NetInv(c, b) && G.GrantInv(c, g)
    ensures var done := P.ReverseFor(c, b, event, intent, r);
            done.Some? ==>
              && P.NetInv(done.value.0, done.value.1) && G.GrantInv(done.value.0, g)
              && P.ReversalDone(c, b, done.value.0, done.value.1, intent)
  {
    hide P.NetInv, G.GrantInv, P.ReverseFor, Typed, P.ReversalDone;
    var done := P.ReverseFor(c, b, event, intent, r);
    if done.Some? {
      B.ReversalTouches(c, b, event, intent, r);
      P.ReversalKeepsNet(c, b, event, intent, r);
      P.ReversalMoves(c, b, event, intent, r);
      B.NetIsTyped(done.value.0, done.value.1);
      B.GrantsIgnoreOthers(c, done.value.0, g);
    }
  }

  lemma ValidIsTyped(c: Core, g: G.Grants)
    requires G.GrantInv(c, g)
    ensures Typed(c)
  {
  }

  // ------------------------------------------------------------ what an event does

  /** The payment of the intent is reversed as its event asks, and the event is
      flagged as processed. */
  ghost predicate ReversalApplied(c: Core, b: P.Billing, d: Core, e: P.Billing, event: string, intent: string,
                                  r: Reversal) {
    && PaymentReversed(c, b, d, e, intent, r)
    && e == b.(payments := e.payments,
               webhooks := if event in b.webhooks then b.webhooks[event := true] else b.webhooks)
  }

  /** The one payment changes, and the wallet with it, as the event asks. */
  ghost predicate PaymentReversed(c: Core, b: P.Billing, d: Core, e: P.Billing, intent: string, r: Reversal) {
    && intent in b.byIntent && b.byIntent[intent] in b.payments && b.byIntent[intent] in e.payments
    && var checkout := b.byIntent[intent];
       && e.events == b.events && e.checkouts == b.checkouts && e.byIntent == b.byIntent
       && e.payments == b.payments[checkout := e.payments[checkout]]
       && exists q :: AsksFor(b.payments[checkout], r, q)
                      && Outcome(c, checkout, b.payments[checkout], r, q, d, e.payments[checkout])
  }

  lemma ReversalIs(c: Core, b: P.Billing, event: string, intent: string, r: Reversal)
    requires P.NetInv(c, b)
    ensures var done := P.ReverseFor(c, b, event, intent, r);
            && (done.Some? <==> && intent != "" && intent in b.byIntent && b.byIntent[intent] in b.payments
                                && !GivesBackTooMuch(c, b.payments[b.byIntent[intent]], r))
            && (done.Some? ==> ReversalApplied(c, b, done.value.0, done.value.1, event, intent, r))
  {
    if intent in b.byIntent && b.byIntent[intent] in b.payments {
      var checkout := b.byIntent[intent];
      P.RowIsSound(c, b, checkout);
      hide P.NetInv, Reverse, AsksFor, Outcome, GivesBackTooMuch;
      var q := ReversalDoes(c, checkout, b.payments[checkout], r);
    }
  }

  lemma SavedWhereverItStands(b: P.Billing, d: P.Billing, event: string, s: P.Session, handlers: map<nat, P.Handler>)
    requires s.account.Some? && s.credits.Some?
    ensures P.PaymentSaved(b, d, event, s) ==> P.PaymentSaved(b, d.(handlers := handlers), event, s)
  {
  }

  lemma MetadataIs(payload: P.Payload)
    ensures payload.CheckoutCompleted? && payload.session.paid ==>
              (P.Creditable(payload) <==> P.ValidMetadata(payload.session))
  {
  }

  /** Handling one event: nothing is asked for, and the event is about to be
      flagged; or its metadata names no credits, and the handler stops; or a paid
      session is credited, once, exactly when the database and the columns let it;
      or a payment is reversed. */
  ghost predicate EventHandled(c: Core, b: P.Billing, d: Core, e: P.Billing, h: nat, commits: bool)
    requires h in b.handlers
  {
    var event := b.handlers[h].event;
    var payload, marking := event.payload, b.handlers[h := P.Handler(event, P.Marking)];
    if P.AsksForNothing(payload) then
      d == c && e == b.(handlers := marking)
    else if P.Creditable(payload) then
      var s := payload.session;
      var isNew := event.id !in b.events && s.checkout !in b.checkouts;
      if !commits || (isNew && !Fits(c, s.account.value, s.credits.value)) then
        d == c && e == b.(handlers := b.handlers - {h})
      else if isNew then
        && Posted(c, d, s.account.value, s.credits.value, Credited(s.checkout))
        && P.PaymentSaved(b, e, event.id, s) && e.webhooks == b.webhooks && e.handlers == marking
      else d == c && e == b.(handlers := marking)
    else if payload.Reversing? then
      && e.handlers == b.handlers - {h}
      && if && commits && payload.intent != ""
            && payload.intent in b.byIntent && b.byIntent[payload.intent] in b.payments
            && !GivesBackTooMuch(c, b.payments[b.byIntent[payload.intent]], payload.reversal)
         then ReversalApplied(c, b, d, e.(handlers := b.handlers), event.id, payload.intent, payload.reversal)
         else d == c && e == b.(handlers := b.handlers - {h})
    else
      d == c && e == b.(handlers := b.handlers - {h})
  }

  /** The payment tables, webhooks and handlers aside. */
  predicate SameRecords(b: P.Billing, e: P.Billing) {
    e.events == b.events && e.checkouts == b.checkouts && e.payments == b.payments && e.byIntent == b.byIntent
  }

  /** A delivery is handled unless its event was read as processed before. */
  predicate Flagged(b: P.Billing, event: string) {
    event in b.webhooks && b.webhooks[event]
  }

  /** The event ends up flagged as processed: it asked for nothing, or its session
      is credited (now or before), each if the flag itself is written, or its
      reversal went through, which writes the flag along. */
  predicate Acknowledges(c: Core, b: P.Billing, e: P.Event, commits: bool, writes: bool) {
    if P.AsksForNothing(e.payload) then writes
    else if P.Creditable(e.payload) then
      var s := e.payload.session;
      writes && commits
      && (e.id in b.events || s.checkout in b.checkouts || Fits(c, s.account.value, s.credits.value))
    else e.payload.Reversing? && commits && Reversible(c, b, e.payload.intent, e.payload.reversal)
  }

  lemma HandledIsFlagged(c: Core, b: P.Billing, m: P.Billing, d: Core, t: P.Billing, h: nat, e: P.Event, commits: bool,
                         writes: bool)
    requires SameRecords(b, m) && P.At(m, h, P.Handling) && m.handlers[h].event == e && e.id in m.webhooks
    requires EventHandled(c, m, d, t, h, commits)
    ensures e.id in t.webhooks && (P.At(t, h, P.Marking) ==> t.handlers[h].event == e)
    ensures t.webhooks[e.id] || (P.At(t, h, P.Marking) && writes)
       <==> m.webhooks[e.id] || Acknowledges(c, b, e, commits, writes)
  {
    hide Posted, Fits, PaymentReversed, P.PaymentSaved, GivesBackTooMuch;
  }

  predicate GoesOn(b: P.Billing, e: P.Event, readOk: bool) {
    e.id != "" && !(readOk && e.id in b.webhooks && b.webhooks[e.id])
  }

  predicate Reversible(c: Core, b: P.Billing, intent: string, r: Reversal) {
    && intent != "" && intent in b.byIntent && b.byIntent[intent] in b.payments
    && !GivesBackTooMuch(c, b.payments[b.byIntent[intent]], r)
  }

  /** What a delivery does to wallets, ledger and payments, in all. */
  ghost predicate DeliveryDone(c: Core, b: P.Billing, d: Core, t: P.Billing, e: P.Event, readOk: bool, commits: bool) {
    if !GoesOn(b, e, readOk) || !commits then
      d == c && SameRecords(b, t)
    else if P.Creditable(e.payload) then
      var s := e.payload.session;
      if e.id in b.events || s.checkout in b.checkouts || !Fits(c, s.account.value, s.credits.value) then
        d == c && SameRecords(b, t)
      else
        && Posted(c, d, s.account.value, s.credits.value, Credited(s.checkout))
        && P.PaymentSaved(b, t, e.id, s)
    else if e.payload.Reversing? && Reversible(c, b, e.payload.intent, e.payload.reversal) then
      PaymentReversed(c, b, d, t, e.payload.intent, e.payload.reversal)
    else
      d == c && SameRecords(b, t)
  }

  lemma NothingDone(c: Core, b: P.Billing, t: P.Billing, e: P.Event, readOk: bool, commits: bool)
    requires !GoesOn(b, e, readOk) && SameRecords(b, t)
    ensures DeliveryDone(c, b, c, t, e, readOk, commits)
  {
  }

  lemma DoneStays(c: Core, b: P.Billing, d: Core, t: P.Billing, u: P.Billing, e: P.Event, readOk: bool, commits: bool)
    requires DeliveryDone(c, b, d, t, e, readOk, commits) && SameRecords(t, u)
    ensures DeliveryDone(c, b, d, u, e, readOk, commits)
  {
    hide Posted, AsksFor, Outcome, GivesBackTooMuch;
  }

  /** What happens to the payment tables does not depend on webhooks and handlers. */
  lemma SameBefore(c: Core, b: P.Billing, m: P.Billing, d: Core, t: P.Billing, event: string, s: P.Session,
                   intent: string, r: Reversal)
    requires SameRecords(b, m)
    ensures s.account.Some? && s.credits.Some? ==> P.PaymentSaved(m, t, event, s) == P.PaymentSaved(b, t, event, s)
    ensures PaymentReversed(c, m, d, t, intent, r) == PaymentReversed(c, b, d, t, intent, r)
    ensures Reversible(c, m, intent, r) == Reversible(c, b, intent, r)
  {
    hide AsksFor, Outcome, GivesBackTooMuch;
  }

  lemma ReversedThroughout(c: Core, b: P.Billing, d: Core, t: P.Billing, handlers: map<nat, P.Handler>, event: string,
                           intent: string, r: Reversal)
    requires ReversalApplied(c, b, d, t.(handlers := handlers), event, intent, r)
    ensures PaymentReversed(c, b, d, t, intent, r)
  {
    hide AsksFor, Outcome;
  }

  lemma HandledIsDone(c: Core, b: P.Billing, m: P.Billing, d: Core, t: P.Billing, h: nat, e: P.Event, readOk: bool,
                      commits: bool)
    requires h in m.handlers && m.handlers[h].event == e && SameRecords(b, m) && GoesOn(b, e, readOk)
    requires EventHandled(c, m, d, t, h, commits)
    ensures DeliveryDone(c, b, d, t, e, readOk, commits)
  {
    hide Posted, GivesBackTooMuch, PaymentReversed, P.PaymentSaved, ReversalApplied;
    match e.payload {
      case CheckoutCompleted(s) => SameBefore(c, b, m, d, t, e.id, s, "", DisputeCreated);
      case Reversing(intent, r) =>
        SameBefore(c, b, m, d, t, e.id, P.Session("", false, None, None, "", 0), intent, r);
        if commits && Reversible(c, m, intent, r) { ReversedThroughout(c, m, d, t, m.handlers, e.id, intent, r); }
      case Unrelated =>
    }
  }

  // ------------------------------------------------------------ specifications

  /** One handler's steps without interruption. */
  function HandlerPass(c: Core, b: P.Billing, h: nat, e: P.Event, readOk: bool, commits: bool, writes: bool): (Core,
                       P.Billing) {
    var delivered := P.Next(c, b, P.Deliver(h, e)).1;
    var checked := P.Next(c, delivered, P.Check(h, readOk)).1;
    var handled := P.Next(c, checked, P.Handle(h, commits));
    P.Next(handled.0, handled.1, P.Mark(h, writes))
  }

  lemma DeliverIs(c: Core, b: P.Billing, h: nat, e: P.Event)
    requires h !in b.handlers && e.id != ""
    ensures P.Next(c, b, P.Deliver(h, e)) == (c, P.Arrive(b, h, e))
  {
    hide P.HandleEvent;
  }

  lemma CheckIs(c: Core, b: P.Billing, h: nat, readOk: bool)
    requires h in b.handlers
    ensures var id := b.handlers[h].event.id;
            P.Next(c, b, P.Check(h, readOk)) ==
              if !P.At(b, h, P.Seen) then (c, b)
              else (c, if readOk && id in b.webhooks && b.webhooks[id] then P.Stop(b, h)
                  else P.Advance(b, h, P.Handling))
  {
    hide P.HandleEvent;
  }

  lemma NothingDelivered(c: Core, b: P.Billing, h: nat, e: P.Event, readOk: bool, commits: bool, writes: bool)
    requires e.id == "" && h !in b.handlers
    ensures HandlerPass(c, b, h, e, readOk, commits, writes) == (c, b)
  {
    hide P.HandleEvent;
  }

  lemma NotAt(c: Core, b: P.Billing, h: nat, commits: bool, writes: bool)
    ensures !P.At(b, h, P.Handling) ==> P.Next(c, b, P.Handle(h, commits)) == (c, b)
    ensures !P.At(b, h, P.Marking) ==> P.Next(c, b, P.Mark(h, writes)) == (c, b)
  {
    hide P.HandleEvent;
  }

  lemma MarkingIgnoresTables(c: Core, d: Core, b: P.Billing, h: nat, writes: bool)
    ensures P.Next(d, b, P.Mark(h, writes)) == (d, P.Next(c, b, P.Mark(h, writes)).1)
  {
  }

  function ReceiptOf(c: Core, g: G.Grants, id: nat, a: Account, commits: bool): Receipt {
    if id !in g.events || g.events[id].reward == 0 then Skipped
    else if (id, a) !in g.registrations || g.registrations[(id, a)] != G.Attended then Skipped
    else if (id, a) in g.rewards then Duplicate
    else if commits && Grant(c, a, g.events[id].reward, EventReward(id)).Some? then Awarded
    else Unsaved
  }

  /** What each receipt means. */
  predicate ReceiptSays(c: Core, g: G.Grants, id: nat, a: Account, commits: bool, receipt: Receipt) {
    && (receipt == Skipped <==> !G.Attendee(g, id, a))
    && (receipt == Duplicate <==> G.Attendee(g, id, a) && (id, a) in g.rewards)
    && (receipt == Awarded <==> && G.Attendee(g, id, a) && (id, a) !in g.rewards && commits
                                && Fits(c, a, g.events[id].reward))
  }

  lemma ReceiptIsRight(c: Core, g: G.Grants, id: nat, a: Account, commits: bool)
    requires Typed(c)
    ensures ReceiptSays(c, g, id, a, commits, ReceiptOf(c, g, id, a, commits))
    ensures G.Next(c, g, G.Reward(id, a), false) == (c, g)
    ensures var r := G.Next(c, g, G.Reward(id, a), true); G.RewardDone(c, g, id, a, r.0, r.1)
  {
    hide Grant, Typed, Fits, G.Next, G.RewardDone;
    if id in g.events { G.GrantedIff(c, a, g.events[id].reward, EventReward(id)); }
    G.RequestIsDone(c, g, G.Reward(id, a));
  }

  function RewardAll(c: Core, g: G.Grants, id: nat, accounts: seq<Account>, commits: seq<bool>): (Core, G.Grants,
                     seq<Receipt>)
    requires |commits| == |accounts|
    decreases accounts
  {
    if accounts == [] then (c, g, [])
    else
      var n := |accounts| - 1;
      var (d, h, receipts) := RewardAll(c, g, id, accounts[..n], commits[..n]);
      if accounts[n] == 0 || accounts[n] in accounts[..n] then (d, h, receipts + [Skipped])
      else
        var r := G.Next(d, h, G.Reward(id, accounts[n]), commits[n]);
        (r.0, r.1, receipts + [ReceiptOf(d, h, id, accounts[n], commits[n])])
  }

  lemma RewardAllSnoc(c: Core, g: G.Grants, id: nat, accounts: seq<Account>, commits: seq<bool>, i: nat)
    requires |commits| == |accounts| && i < |accounts|
    ensures var (d, h, receipts) := RewardAll(c, g, id, accounts[..i], commits[..i]);
            var r := G.Next(d, h, G.Reward(id, accounts[i]), commits[i]);
            RewardAll(c, g, id, accounts[..i + 1], commits[..i + 1])
            == (if accounts[i] == 0 || accounts[i] in accounts[..i] then (d, h, receipts + [Skipped])
                else (r.0, r.1, receipts + [ReceiptOf(d, h, id, accounts[i], commits[i])]))
  {
    assert accounts[..i + 1][..i] == accounts[..i] && commits[..i + 1][..i] == commits[..i];
  }

  lemma RewardEffect(c: Core, g: G.Grants, id: nat, a: Account, commits: bool)
    ensures var h := G.Next(c, g, G.Reward(id, a), commits).1;
            && h == g.(rewards := h.rewards)
            && (ReceiptOf(c, g, id, a, commits) == Awarded <==> (id, a) !in g.rewards && (id, a) in h.rewards)
            && (forall k :: k in h.rewards && k != (id, a) ==> k in g.rewards)
            && forall k :: k in g.rewards ==> k in h.rewards && h.rewards[k] == g.rewards[k]
  {
    hide Grant;
  }

  /** What a batch did for account `a`, going by its receipts. */
  ghost predicate BatchOutcome(g: G.Grants, h: G.Grants, id: nat, accounts: seq<Account>, receipts: seq<Receipt>,
                               a: Account) {
    && |receipts| == |accounts|
    && h == g.(rewards := h.rewards)
    && (forall i :: 0 <= i < |accounts| && receipts[i] == Awarded ==> accounts[i] != 0 && accounts[i] !in accounts[..i])
    && (((id, a) !in g.rewards && (id, a) in h.rewards) <==> AwardedTo(accounts, receipts, a))
    && (forall k :: k in g.rewards ==> k in h.rewards && h.rewards[k] == g.rewards[k])
  }

  ghost predicate AwardedTo(accounts: seq<Account>, receipts: seq<Receipt>, a: Account)
    requires |receipts| == |accounts|
  {
    exists i :: 0 <= i < |accounts| && accounts[i] == a && receipts[i] == Awarded
  }

  lemma AwardedSnoc(accounts: seq<Account>, receipts: seq<Receipt>, b: Account, last: Receipt, a: Account)
    requires |receipts| == |accounts|
    ensures AwardedTo(accounts + [b], receipts + [last], a)
        <==> AwardedTo(accounts, receipts, a) || (b == a && last == Awarded)
  {
    var longer, all := accounts + [b], receipts + [last];
    if AwardedTo(accounts, receipts, a) {
      var i :| 0 <= i < |accounts| && accounts[i] == a && receipts[i] == Awarded;
      assert longer[i] == a && all[i] == Awarded;
    }
    if b == a && last == Awarded { assert longer[|accounts|] == a && all[|accounts|] == Awarded; }
  }

  /** One more account of a batch. */
  lemma BatchSnoc(g: G.Grants, h: G.Grants, k: G.Grants, id: nat, accounts: seq<Account>, receipts: seq<Receipt>,
                  b: Account,
                  last: Receipt, a: Account)
    requires BatchOutcome(g, h, id, accounts, receipts, a)
    requires k == h.(rewards := k.rewards) && (last == Awarded <==> (id, b) !in h.rewards && (id, b) in k.rewards)
    requires last == Awarded ==> b != 0 && b !in accounts
    requires forall p :: p in k.rewards && p != (id, b) ==> p in h.rewards
    requires forall p :: p in h.rewards ==> p in k.rewards && k.rewards[p] == h.rewards[p]
    ensures BatchOutcome(g, k, id, accounts + [b], receipts + [last], a)
  {
    hide AwardedTo;
    AwardedSnoc(accounts, receipts, b, last, a);
    var longer, all := accounts + [b], receipts + [last];
    forall i | 0 <= i < |longer| && all[i] == Awarded ensures longer[i] != 0 && longer[i] !in longer[..i] {
      assert longer[..i] == accounts[..i];
    }
  }

  /** The accounts a batch awards: exactly the distinct, non-zero ones that were
      due and whose transaction went through, each once; a receipt says Awarded
      if and only if the batch wrote the account's reward row. */
  lemma {:induction false} BatchAwardsOnce(c: Core, g: G.Grants, id: nat, accounts: seq<Account>, commits: seq<bool>,
                                           a: Account)
    requires |commits| == |accounts|
    ensures var r := RewardAll(c, g, id, accounts, commits); BatchOutcome(g, r.1, id, accounts, r.2, a)
    decreases accounts
  {
    hide G.Next, ReceiptOf, BatchOutcome;
    if accounts == [] {
      EmptyBatch(g, id, a);
    } else {
      var n := |accounts| - 1;
      BatchAwardsOnce(c, g, id, accounts[..n], commits[..n], a);
      var (d, h, receipts) := RewardAll(c, g, id, accounts[..n], commits[..n]);
      var b := accounts[n];
      assert accounts == accounts[..n] + [b];
      if b == 0 || b in accounts[..n] {
        BatchSnoc(g, h, h, id, accounts[..n], receipts, b, Skipped, a);
      } else {
        RewardEffect(d, h, id, b, commits[n]);
        var k := G.Next(d, h, G.Reward(id, b), commits[n]).1;
        BatchSnoc(g, h, k, id, accounts[..n], receipts, b, ReceiptOf(d, h, id, b, commits[n]), a);
      }
    }
  }

  lemma EmptyBatch(g: G.Grants, id: nat, a: Account)
    ensures BatchOutcome(g, g, id, [], [], a)
  {
  }

  /** The receipts of a batch, by the tables before it: account 0 and repetitions
      are skipped, and the others are treated as if each were alone. */
  ghost predicate ReceiptsSay(c: Core, g: G.Grants, id: nat, accounts: seq<Account>, commits: seq<bool>,
                              receipts: seq<Receipt>)
    requires |receipts| == |accounts| == |commits|
  {
    forall i :: 0 <= i < |accounts| ==>
      if accounts[i] == 0 || accounts[i] in accounts[..i] then receipts[i] == Skipped
      else ReceiptSays(c, g, id, accounts[i], commits[i], receipts[i])
  }

  /** An account with an Awarded receipt gets the reward and the row saying so; the
      others get nothing. */
  ghost predicate BatchPays(c: Core, g: G.Grants, id: nat, accounts: seq<Account>, receipts: seq<Receipt>, a: Account,
                            d: Core, h: G.Grants) {
    && |receipts| == |accounts|
    && if AwardedTo(accounts, receipts, a) && id in g.events then
         && Balance(d, a) == Balance(c, a) + g.events[id].reward
         && (id, a) in h.rewards && h.rewards[(id, a)] == g.events[id].reward
       else
         && Balance(d, a) == Balance(c, a)
         && G.Get(h.rewards, (id, a), 0) == G.Get(g.rewards, (id, a), 0)
  }

  /** What a batch has not reached yet is as it was. */
  lemma NotYetReached(c: Core, g: G.Grants, d: Core, h: G.Grants, id: nat, accounts: seq<Account>,
                      receipts: seq<Receipt>, b: Account, commits: bool, receipt: Receipt)
    requires BatchOutcome(g, h, id, accounts, receipts, b) && BatchPays(c, g, id, accounts, receipts, b, d, h)
    requires b !in accounts && ReceiptSays(d, h, id, b, commits, receipt)
    ensures ReceiptSays(c, g, id, b, commits, receipt)
  {
  }

  lemma PaysSnoc(c: Core, g: G.Grants, d: Core, h: G.Grants, e: Core, k: G.Grants, id: nat, accounts: seq<Account>,
                 receipts: seq<Receipt>, b: Account, last: Receipt, a: Account)
    requires BatchPays(c, g, id, accounts, receipts, a, d, h) && h == g.(rewards := h.rewards)
    requires b in accounts || b == 0 ==> last != Awarded
    requires if last == Awarded then
               && id in h.events && Posted(d, e, b, h.events[id].reward, EventReward(id))
               && k == h.(rewards := h.rewards[(id, b) := h.events[id].reward])
             else e == d && k == h
    ensures BatchPays(c, g, id, accounts + [b], receipts + [last], a, e, k)
  {
    AwardedSnoc(accounts, receipts, b, last, a);
  }

  lemma ReceiptsSnoc(c: Core, g: G.Grants, id: nat, accounts: seq<Account>, commits: seq<bool>, receipts: seq<Receipt>,
                     b: Account, through: bool, last: Receipt)
    requires |receipts| == |accounts| == |commits| && ReceiptsSay(c, g, id, accounts, commits, receipts)
    requires if b == 0 || b in accounts then last == Skipped else ReceiptSays(c, g, id, b, through, last)
    ensures ReceiptsSay(c, g, id, accounts + [b], commits + [through], receipts + [last])
  {
    hide ReceiptSays;
    var longer, more, all := accounts + [b], commits + [through], receipts + [last];
    forall i | 0 <= i < |longer|
      ensures if longer[i] == 0 || longer[i] in longer[..i] then all[i] == Skipped
              else ReceiptSays(c, g, id, longer[i], more[i], all[i]) {
      assert longer[..i] == accounts[..i];
    }
  }

  lemma {:induction false} BatchReceipts(c: Core, g: G.Grants, id: nat, accounts: seq<Account>, commits: seq<bool>)
    requires |commits| == |accounts| && Typed(c)
    ensures var (d, h, receipts) := RewardAll(c, g, id, accounts, commits);
            && Typed(d) && |receipts| == |accounts| && ReceiptsSay(c, g, id, accounts, commits, receipts)
            && forall a :: BatchPays(c, g, id, accounts, receipts, a, d, h)
    decreases accounts
  {
    hide G.Next, ReceiptOf, BatchOutcome, ReceiptSays, BatchPays, ReceiptsSay, Typed, Posted, Fits;
    if accounts == [] {
      NothingBatched(c, g, id);
    } else {
      var n := |accounts| - 1;
      BatchReceipts(c, g, id, accounts[..n], commits[..n]);
      var (d, h, receipts) := RewardAll(c, g, id, accounts[..n], commits[..n]);
      var b, through := accounts[n], commits[n];
      assert accounts == accounts[..n] + [b] && commits == commits[..n] + [through];
      forall a ensures BatchOutcome(g, h, id, accounts[..n], receipts, a) {
        BatchAwardsOnce(c, g, id, accounts[..n], commits[..n], a);
      }
      var (e, k, all) := RewardAll(c, g, id, accounts, commits);
      OneMoreReceipt(c, g, d, h, e, k, id, accounts[..n], commits[..n], receipts, b, through, all[n]);
    }
  }

  lemma OneMoreReceipt(c: Core, g: G.Grants, d: Core, h: G.Grants, e: Core, k: G.Grants, id: nat,
                       accounts: seq<Account>, commits: seq<bool>, receipts: seq<Receipt>, b: Account, through: bool,
                       last: Receipt)
    requires |receipts| == |accounts| == |commits| && ReceiptsSay(c, g, id, accounts, commits, receipts) && Typed(d)
    requires forall a :: BatchPays(c, g, id, accounts, receipts, a, d, h)
    requires forall a :: BatchOutcome(g, h, id, accounts, receipts, a)
    requires if b == 0 || b in accounts then last == Skipped && e == d && k == h
             else last == ReceiptOf(d, h, id, b, through) && (e, k) == G.Next(d, h, G.Reward(id, b), through)
    ensures Typed(e) && ReceiptsSay(c, g, id, accounts + [b], commits + [through], receipts + [last])
    ensures forall a :: BatchPays(c, g, id, accounts + [b], receipts + [last], a, e, k)
  {
    hide G.Next, ReceiptOf, BatchOutcome, BatchPays, ReceiptsSay, Typed, Posted, Fits, G.GrantInv, ReceiptSays;
    assert BatchOutcome(g, h, id, accounts, receipts, b) && BatchPays(c, g, id, accounts, receipts, b, d, h);
    OnlyRewards(g, h, id, accounts, receipts, b);
    if b != 0 && b !in accounts {
      ReceiptIsRight(d, h, id, b, through);
      NotYetReached(c, g, d, h, id, accounts, receipts, b, through, last);
      RewardGoesWithReceipt(d, h, e, k, id, b, through, last);
    }
    ReceiptsSnoc(c, g, id, accounts, commits, receipts, b, through, last);
    forall a ensures BatchPays(c, g, id, accounts + [b], receipts + [last], a, e, k) {
      PaysSnoc(c, g, d, h, e, k, id, accounts, receipts, b, last, a);
    }
  }

  lemma OnlyRewards(g: G.Grants, h: G.Grants, id: nat, accounts: seq<Account>, receipts: seq<Receipt>, a: Account)
    requires BatchOutcome(g, h, id, accounts, receipts, a)
    ensures h == g.(rewards := h.rewards)
  {
  }

  /** The tables change as the receipt says. */
  lemma RewardGoesWithReceipt(d: Core, h: G.Grants, e: Core, k: G.Grants, id: nat, b: Account, through: bool,
                              receipt: Receipt)
    requires Typed(d) && ReceiptSays(d, h, id, b, through, receipt)
    requires if through then G.RewardDone(d, h, id, b, e, k) else e == d && k == h
    ensures Typed(e)
    ensures if receipt == Awarded then
              && id in h.events && Posted(d, e, b, h.events[id].reward, EventReward(id))
              && k == h.(rewards := h.rewards[(id, b) := h.events[id].reward])
            else e == d && k == h
  {
    if e != d {
      PostedConserves(d, e, b, h.events[id].reward, EventReward(id));
    }
  }

  lemma NothingBatched(c: Core, g: G.Grants, id: nat)
    ensures ReceiptsSay(c, g, id, [], [], []) && forall a :: BatchPays(c, g, id, [], [], a, c, g)
  {
  }
}
