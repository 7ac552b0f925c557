/** Properties of fulfilment that need no assumption about workers, crashes,
    staff or the realm. */
module FulfilmentBounds {
  import opened Common
  import opened DeliveryPlan
  import opened Fulfilment

  // ------------------------------------------------------------ bounded runs

  /** Workers entitled to send the command of step `id`. */
  function Senders(s: State, id: StepId): set<nat> {
    set w | w in s.workers && s.workers[w].pc == Sending && CurrentId(s.workers[w]) == id
  }

  /** Every entitlement to run a command is paid for: one to begin with, one by
      a recorded fault, one by a staff retry. A startable row, a worker about to
      send and every run so far each hold one. */
  ghost predicate PaidFor(s: State, id: StepId) {
    var h := HistoryOf(s, id);
    h.runs + |Senders(s, id)| + (if Startable(s, id) then 1 else 0) <= 1 + h.faults + h.retries
  }

  lemma {:induction false} SubsetSize(a: set<nat>, b: set<nat>)
    requires a <= b
    ensures |a| <= |b|
  {
    if a != {} {
      var x :| x in a;
      SubsetSize(a - {x}, b - {x});
    }
  }

  /** No new sender, no new run: a row that becomes startable again must have
      been paid for by a fault or a retry. */
  lemma MoveIsPaid(s: State, t: State, id: StepId)
    requires PaidFor(s, id)
    requires Senders(t, id) <= Senders(s, id)
    requires var h, k := HistoryOf(s, id), HistoryOf(t, id);
             && k.runs == h.runs
             && k.faults + k.retries >= h.faults + h.retries + (if Startable(t, id) && !Startable(s, id) then 1 else 0)
    ensures PaidFor(t, id)
  {
    SubsetSize(Senders(t, id), Senders(s, id));
  }

  /** How one statement moves the entitlements of the step it works on: the
      compare-and-set trades the startable row for a sender, sending trades the
      sender for a run, a recorded fault buys a startable row back. */
  function Entitlement(v: View): int {
    (if v.w.pc == Sending then 1 else 0)
        + (if v.row == None || v.row == Some(Waiting) || v.row == Some(Faulted) then 1 else 0)
  }

  lemma EffectIsPaid(v: View, statement: Statement)
    ensures var u := Effect(v, statement);
            && u.h.runs + Entitlement(u) - u.h.faults <= v.h.runs + Entitlement(v) - v.h.faults
            && u.h.retries == v.h.retries
            && (u.w.pc == Sending ==> CurrentKey(u.w) == CurrentKey(v.w))
            && u.w.order == v.w.order
            && (u.row == None ==> v.row == None)
  {
  }

  lemma SendersAfterInstall(s: State, worker: nat, u: View, id: StepId)
    requires worker in s.workers
    ensures Senders(Install(s, worker, u), id)
         == Senders(s, id) - {worker} + (if u.w.pc == Sending && CurrentId(u.w) == id then {worker} else {})
  {
    var t := Install(s, worker, u);
    assert t.workers == s.workers[worker := u.w];
  }

  lemma OtherRowsAfterInstall(s: State, worker: nat, u: View, id: StepId)
    requires worker in s.workers && CurrentId(s.workers[worker]) != id
    ensures var t := Install(s, worker, u);
            HistoryOf(t, id) == HistoryOf(s, id) && Startable(t, id) == Startable(s, id)
  {
  }

  lemma OwnRowAfterInstall(s: State, worker: nat, u: View)
    requires worker in s.workers && (u.row == None ==> LocalView(s, worker).row == None)
    ensures var t, id := Install(s, worker, u), CurrentId(s.workers[worker]);
            && HistoryOf(t, id) == u.h
            && (id in t.steps <==> u.row.Some?) && (id in t.steps ==> u.row == Some(t.steps[id]))
  {
  }

  lemma BoundedInstall(s: State, worker: nat, u: View, id: StepId)
    requires worker in s.workers && PaidFor(s, id)
    requires var v := LocalView(s, worker);
             && u.h.runs + Entitlement(u) - u.h.faults <= v.h.runs + Entitlement(v) - v.h.faults
             && u.h.retries == v.h.retries
             && (u.w.pc == Sending ==> CurrentKey(u.w) == CurrentKey(v.w))
             && u.w.order == v.w.order
             && (u.row == None ==> v.row == None)
    ensures PaidFor(Install(s, worker, u), id)
  {
    SendersAfterInstall(s, worker, u, id);
    if CurrentId(s.workers[worker]) == id {
      OwnRowAfterInstall(s, worker, u);
      TradeIsPaid(s, Install(s, worker, u), worker, u, id);
    } else {
      OtherRowsAfterInstall(s, worker, u, id);
      MoveIsPaid(s, Install(s, worker, u), id);
    }
  }

  lemma TradeIsPaid(s: State, t: State, worker: nat, u: View, id: StepId)
    requires worker in s.workers && PaidFor(s, id) && CurrentId(s.workers[worker]) == id
    requires var v := LocalView(s, worker);
             && u.h.runs + Entitlement(u) - u.h.faults <= v.h.runs + Entitlement(v) - v.h.faults
             && u.h.retries == v.h.retries
             && (u.w.pc == Sending ==> CurrentId(u.w) == id)
    requires Senders(t, id)
        == Senders(s, id) - {worker} + (if u.w.pc == Sending && CurrentId(u.w) == id then {worker} else {})
    requires HistoryOf(t, id) == u.h && (id in t.steps <==> u.row.Some?)
        && (id in t.steps ==> u.row == Some(t.steps[id]))
    ensures PaidFor(t, id)
  {
    var w := s.workers[worker];
    var others := Senders(s, id) - {worker};
    assert |Senders(s, id)| == |others| + if w.pc == Sending then 1 else 0 by {
      assert w.pc == Sending <==> worker in Senders(s, id);
    }
    assert |Senders(t, id)| == |others| + if u.w.pc == Sending then 1 else 0;
  }

  lemma BoundedExecute(s: State, worker: nat, statement: Statement, id: StepId)
    requires PaidFor(s, id)
    ensures PaidFor(DoExecute(s, worker, statement), id)
  {
    if worker in s.workers {
      EffectIsPaid(LocalView(s, worker), statement);
      BoundedInstall(s, worker, Effect(LocalView(s, worker), statement), id);
    }
  }

  lemma BoundedReset(s: State, worker: nat, db: Db, id: StepId)
    requires PaidFor(s, id)
    ensures PaidFor(DoResetInterrupted(s, worker, db), id)
  {
    MoveIsPaid(s, DoResetInterrupted(s, worker, db), id);
  }

  lemma BoundedClaim(s: State, worker: nat, order: nat, db: Db, id: StepId)
    requires PaidFor(s, id)
    ensures PaidFor(DoClaimOrder(s, worker, order, db), id)
  {
    MoveIsPaid(s, DoClaimOrder(s, worker, order, db), id);
  }

  lemma BoundedPlan(s: State, worker: nat, character: Character, plan: Option<seq<PlanStep>>, id: StepId)
    requires worker in s.workers && PaidFor(s, id)
    ensures PaidFor(TakePlan(s, worker, character, plan), id)
  {
    MoveIsPaid(s, TakePlan(s, worker, character, plan), id);
  }

  lemma BoundedServer(s: State, worker: nat, realm: string, id: StepId)
    requires PaidFor(s, id)
    ensures PaidFor(DoStartServer(s, worker, realm), id) && PaidFor(DoCrash(s, worker), id)
  {
    MoveIsPaid(s, DoStartServer(s, worker, realm), id);
    MoveIsPaid(s, DoCrash(s, worker), id);
  }

  lemma BoundedResolve(s: State, order: nat, key: string, realm: string, resolution: Resolution, id: StepId)
    requires PaidFor(s, id)
    ensures PaidFor(DoResolveStep(s, order, key, realm, resolution), id)
  {
    MoveIsPaid(s, DoResolveStep(s, order, key, realm, resolution), id);
  }

  lemma BoundedStep(s: State, a: Action, id: StepId)
    requires PaidFor(s, id)
    ensures PaidFor(Next(s, a), id)
  {
    hide PaidFor, PlanFor, DoExecute, DoResetInterrupted, DoClaimOrder, DoResolveStep;
    match a
    case Purchase(_, _, _, _) => MoveIsPaid(s, Next(s, a), id);
    case StartServer(worker, realm) => BoundedServer(s, worker, realm, id);
    case Crash(worker) => BoundedServer(s, worker, "", id);
    case ResetInterrupted(worker, db) => BoundedReset(s, worker, db, id);
    case ClaimOrder(worker, order, db) => BoundedClaim(s, worker, order, db, id);
    case LoadPlan(worker, character, table) =>
      if At(s, worker, Claimed) && s.workers[worker].order in s.orders {
        BoundedPlan(s, worker, character, PlanFor(s.orders[s.workers[worker].order].goods, table), id);
      }
    case Execute(worker, statement) => BoundedExecute(s, worker, statement, id);
    case RetryOrder(_, _) => MoveIsPaid(s, Next(s, a), id);
    case RefundOrder(_, _) => MoveIsPaid(s, Next(s, a), id);
    case ResolveStep(order, key, realm, resolution) => BoundedResolve(s, order, key, realm, resolution, id);
  }

  /** For any number of workers, any crashes and any staff actions: the command
      of one step runs at most once, plus once for every recorded fault and
      every staff 'retry'. A crash alone never causes a second run. */
  lemma {:induction false} BoundedRuns(run: seq<Action>, id: StepId)
    ensures var h := HistoryOf(Play(EMPTY, run), id); h.runs <= 1 + h.faults + h.retries
    ensures PaidFor(Play(EMPTY, run), id)
  {
    if run == [] {
      assert Senders(EMPTY, id) == {};
    } else {
      BoundedRuns(run[..|run| - 1], id);
      BoundedStep(Play(EMPTY, run[..|run| - 1]), run[|run| - 1], id);
    }
  }

  // ------------------------------------------------------------ terminal states

  lemma EffectKeepsTerminal(v: View, statement: Statement)
    ensures v.status != Some(Delivering) ==> Effect(v, statement).status == v.status
    ensures v.status.Some? ==> Effect(v, statement).status.Some? && (Effect(v, statement).status == v.status
                                || Effect(v, statement).status == Some(Delivered)
                                    || Effect(v, statement).status == Some(Review))
  {
  }

  /** What one step can do to one order. */
  ghost predicate OrderEvolves(s: State, t: State, order: nat) {
    if order in s.orders then
      && order in t.orders
      && t.orders[order].(status := s.orders[order].status) == s.orders[order]
      && ((Has(s, order, Delivered) || Has(s, order, Refunded)) ==> t.orders[order].status == s.orders[order].status)
      && Returned(t, order) == Returned(s, order)
         + if Has(t, order, Refunded) && !Has(s, order, Refunded) then s.orders[order].total else 0
    else Returned(t, order) == Returned(s, order) && !Has(t, order, Refunded)
  }

  lemma OrderServerStep(s: State, a: Action, order: nat)
    requires a.Purchase? || a.StartServer? || a.Crash? || a.ResetInterrupted? || a.ClaimOrder?
    ensures OrderEvolves(s, Next(s, a), order)
  {
    hide PlanFor, DoExecute, DoLoadPlan, DoResolveStep, DoRetryOrder, DoRefundOrder;
  }

  lemma OrderRefund(s: State, of: nat, realm: string, order: nat)
    ensures OrderEvolves(s, DoRefundOrder(s, of, realm), order)
  {
  }

  lemma OrderRequeue(s: State, of: nat, realm: string, order: nat)
    ensures OrderEvolves(s, DoRetryOrder(s, of, realm), order)
  {
  }

  lemma OrderResolve(s: State, of: nat, realm: string, key: string, resolution: Resolution, order: nat)
    ensures OrderEvolves(s, DoResolveStep(s, of, key, realm, resolution), order)
  {
    if Resolvable(s, of, key, realm) {
      var t := DoResolveStep(s, of, key, realm, resolution);
      assert t.orders == SetStatus(s, of, Pending).orders && t.returned == s.returned;
    }
  }

  lemma OrderInstall(s: State, worker: nat, u: View, order: nat)
    requires worker in s.workers
    requires var v := LocalView(s, worker);
             && (v.status != Some(Delivering) ==> u.status == v.status)
             && (v.status.Some? ==>
                   u.status.Some? && (u.status == v.status || u.status == Some(Delivered) || u.status == Some(Review)))
    ensures OrderEvolves(s, Install(s, worker, u), order)
  {
  }

  lemma OrderStep(s: State, a: Action, order: nat)
    ensures OrderEvolves(s, Next(s, a), order)
  {
    match a
    case Execute(worker, statement) =>
      if worker in s.workers {
        EffectKeepsTerminal(LocalView(s, worker), statement);
        OrderInstall(s, worker, Effect(LocalView(s, worker), statement), order);
      }
    case LoadPlan(worker, character, table) =>
    case RetryOrder(of, realm) => OrderRequeue(s, of, realm, order);
    case RefundOrder(of, realm) => OrderRefund(s, of, realm, order);
    case ResolveStep(of, key, realm, resolution) => OrderResolve(s, of, realm, key, resolution, order);
    case _ => OrderServerStep(s, a, order);
  }

  /** A delivered order stays delivered and a refunded one refunded, with the
      same credits given back, whatever happens next. */
  lemma {:induction false} TerminalStatesAreFinal(s: State, run: seq<Action>, order: nat)
    requires Has(s, order, Delivered) || Has(s, order, Refunded)
    ensures order in Play(s, run).orders && Play(s, run).orders[order] == s.orders[order]
    ensures Returned(Play(s, run), order) == Returned(s, order)
  {
    if run != [] {
      var init := run[..|run| - 1];
      TerminalStatesAreFinal(s, init, order);
      OrderStep(Play(s, init), run[|run| - 1], order);
    }
  }

  /** Credits come back exactly when the order is refunded, exactly once, and
      exactly its total. */
  lemma {:induction false} RefundedExactlyOnce(run: seq<Action>, order: nat)
    ensures var s := Play(EMPTY, run);
            Returned(s, order) == if Has(s, order, Refunded) then s.orders[order].total else 0
  {
    if run != [] {
      var init := run[..|run| - 1];
      RefundedExactlyOnce(init, order);
      OrderStep(Play(EMPTY, init), run[|run| - 1], order);
    }
  }

  /** A server that starts stands before the reset of interrupted orders; a crash
      takes nothing but the worker. */
  lemma ServersComeAndGo(s: State, worker: nat, realm: string)
    requires worker !in s.workers
    ensures Next(s, StartServer(worker, realm))
         == s.(workers := s.workers[worker := Worker(realm, Booting, 0, [], 0)])
    ensures Next(Next(s, StartServer(worker, realm)), Crash(worker)) == s
  {
    assert s.workers[worker := Worker(realm, Booting, 0, [], 0)] - {worker} == s.workers;
  }

  /** Nothing but its reset, or a crash, takes a starting server from there. */
  lemma ResetComesFirst(s: State, worker: nat, a: Action)
    requires At(s, worker, Booting)
    ensures || (worker in Next(s, a).workers && Next(s, a).workers[worker] == s.workers[worker])
            || (a.ResetInterrupted? && a.worker == worker)
            || a == Crash(worker)
  {
    hide PlanFor, DoExecute, TakePlan;
    if a.Execute? {
      ExecuteMovesOne(s, a.worker, a.statement);
      if a.worker == worker { BootingStays(LocalView(s, worker), a.statement); }
    } else if a.LoadPlan? && At(s, a.worker, Claimed) && s.workers[a.worker].order in s.orders {
      PlanMovesOne(s, a.worker, a.character, PlanFor(s.orders[s.workers[a.worker].order].goods, a.table));
    }
  }

  lemma BootingStays(v: View, statement: Statement)
    requires v.w.pc == Booting
    ensures Effect(v, statement).w == v.w
  {
  }

  lemma ExecuteMovesOne(s: State, worker: nat, statement: Statement)
    ensures DoExecute(s, worker, statement).workers
         == if worker in s.workers then s.workers[worker := Effect(LocalView(s, worker), statement).w] else s.workers
  {
    hide Effect;
  }

  lemma PlanMovesOne(s: State, worker: nat, character: Character, plan: Option<seq<PlanStep>>)
    requires worker in s.workers
    ensures var t := TakePlan(s, worker, character, plan); t.workers == s.workers[worker := t.workers[worker]]
  {
  }
}
