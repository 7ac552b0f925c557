/** What the rows tell a refund: whether the realm applied the command of an
    executing step shows in no row, for every run and every such step. */
module FulfilmentRefundGuard {
  import opened Common
  import opened DeliveryPlan
  import opened Fulfilment
  import opened FulfilmentExactlyOnce
  import opened FulfilmentRuns
  import opened FulfilmentReconcile
  import Refunds = FulfilmentRefunds
  import Safety = FulfilmentSafety

  // ------------------------------------------------------------ the same rows with the command applied

  predicate IsHolding(w: Worker, id: StepId) {
    InCommand(w) && CurrentId(w) == id
  }

  /** A worker that has not had the command of step `id` applied, seen in a world
      where it has: the command is out and applied, the reply still to come. */
  function Shadow(w: Worker, id: StepId): Worker {
    if IsHolding(w, id) then w.(pc := Awaiting(true)) else w
  }

  ghost predicate WorkersShadow(actual: map<nat, Worker>, shadows: map<nat, Worker>, id: StepId) {
    shadows.Keys == actual.Keys && forall w :: w in actual ==> shadows[w] == Shadow(actual[w], id)
  }

  /** `t` is `s` but for the command of step `id`, which was applied in `t`. */
  ghost predicate Shadows(s: State, t: State, id: StepId) {
    && t.orders == s.orders && t.steps == s.steps
    && WorkersShadow(s.workers, t.workers, id)
    && (forall other :: other != id ==> HistoryOf(t, other) == HistoryOf(s, other))
    && HistoryOf(t, id).applied != []
  }

  /** What a faithful run guarantees of the step while nothing was applied. */
  ghost predicate Unapplied(s: State, id: StepId) {
    && RowOf(s, id) == Some(Executing)
    && (forall w :: w in s.workers && IsHolding(s.workers[w], id) ==>
          s.workers[w].pc == Sending || s.workers[w].pc == Awaiting(false) || s.workers[w].pc == Failing(false))
    && (forall w :: w in s.workers && InStep(s.workers[w]) ==> s.workers[w].at < |s.workers[w].plan|)
  }

  lemma UnappliedWhileFaithful(s: State, id: StepId, plans: Plans)
    requires OnceInv(s, plans) && RowOf(s, id) == Some(Executing) && HistoryOf(s, id).applied == []
    ensures Unapplied(s, id)
  {
    hide HoldsRow, RowInv, OrderInv, Accounted;
    forall w | w in s.workers && IsHolding(s.workers[w], id)
      ensures s.workers[w].pc == Sending || s.workers[w].pc == Awaiting(false) || s.workers[w].pc == Failing(false)
    {
      HolderHolds(s, w, id, plans);
      NothingAppliedYet(s.workers[w], RowOf(s, id), HistoryOf(s, id));
    }
    forall w | w in s.workers && InStep(s.workers[w]) ensures s.workers[w].at < |s.workers[w].plan| {
      assert WorkerInv(s, s.workers[w], plans);
    }
  }

  // ------------------------------------------------------------ the moment the step starts

  lemma EffectExecuting(v: View, statement: Statement)
    ensures var u := Effect(v, statement);
            u.row == Some(Executing) && v.row != Some(Executing) ==>
              && statement.StartStep? && Written(statement.db) && v.w.pc == Starting
              && u == v.(row := Some(Executing), w := v.w.(pc := if statement.db == Done then Sending else Reviewing))
              && (v.row == Some(Waiting) || v.row == Some(Faulted))
  {
  }

  lemma OthersExecuteNothing(s: State, a: Action, id: StepId)
    requires !a.Execute? && RowOf(Next(s, a), id) == Some(Executing)
    ensures RowOf(s, id) == Some(Executing)
  {
    hide PlanFor, DoExecute;
  }

  /** A statement, seen from every row and history. */
  lemma ExecuteRan(s: State, worker: nat, statement: Statement)
    requires worker in s.workers && !statement.FinishOrder? && !statement.ReviewOrder?
    ensures Ran(s, Next(s, Execute(worker, statement)), worker, Effect(LocalView(s, worker), statement))
  {
    var u := Effect(LocalView(s, worker), statement);
    EffectInStep(LocalView(s, worker), statement);
    InstallInStep(s, worker, u);
    InstallRows(s, worker, u);
    InstallOwnHistory(s, worker, u);
  }

  lemma StartEffects(v: View)
    requires v.w.pc == Starting && (v.row == Some(Waiting) || v.row == Some(Faulted)) && v.w.at < |v.w.plan|
    ensures var v1 := Effect(v, StartStep(Done));
            var v2 := Effect(v1, SendCommand(true));
            && v1.w == v.w.(pc := Sending) && v2.w == v.w.(pc := Awaiting(true))
            && v2.row == Some(Executing) && v2.h.applied != []
  {
  }

  lemma GiveUpEffects(v: View)
    requires v.w.pc == Awaiting(true) && v.row == Some(Executing)
    ensures var v1 := Effect(v, ReceiveReply(true));
            v1.w == v.w.(pc := Completing) && Effect(v1, RecordCompletion(Refused)) == v.(w := v.w.(pc := Reviewing))
  {
  }

  /** Starting the step and sending its command; and, where the start was lost on
      the worker, giving up with nothing recorded. */
  lemma StartStatements(v: View, db: Db) returns (statements: seq<Statement>)
    requires v.w.pc == Starting && (v.row == Some(Waiting) || v.row == Some(Faulted)) && v.w.at < |v.w.plan|
        && db != Refused
    ensures Local(v, statements)
    ensures var u := EffectOf(v, statements);
            && u.row == Some(Executing) && u.h.applied != []
            && u.w == v.w.(pc := if db == Done then Awaiting(true) else Reviewing)
  {
    hide Effect, EffectOf;
    statements := [StartStep(Done), SendCommand(true)];
    if db != Done { statements := statements + [ReceiveReply(true), RecordCompletion(Refused)]; }
    assert statements[..|statements|] == statements;
    StartEffects(v);
    EffectOfPrefix(v, statements, 1);
    EffectOfPrefix(v, statements, 2);
    if db != Done {
      GiveUpEffects(EffectOf(v, statements[..2]));
      EffectOfPrefix(v, statements, 3);
      EffectOfPrefix(v, statements, 4);
    }
  }

  lemma SameRowsSameSteps(s: State, t: State)
    requires forall id :: RowOf(t, id) == RowOf(s, id)
    ensures t.steps == s.steps
  {
    forall id ensures id in t.steps <==> id in s.steps { assert RowOf(t, id) == RowOf(s, id); }
    forall id | id in t.steps ensures t.steps[id] == s.steps[id] { assert RowOf(t, id) == RowOf(s, id); }
  }

  lemma ShadowStarts(s: State, a: Action, id: StepId, table: StackTable) returns (more: seq<Action>)
    requires a.Execute? && a.worker in s.workers && !Held(s, id)
    requires InStep(s.workers[a.worker]) ==> s.workers[a.worker].at < |s.workers[a.worker].plan|
    requires RowOf(s, id) != Some(Executing) && RowOf(Next(s, a), id) == Some(Executing)
    ensures Throughout(s, more, Faithful) && SameTable(more, table)
    ensures Shadows(Next(s, a), Play(s, more), id)
  {
    hide Effect, EffectOf, Play, Throughout, Next;
    var v, u := LocalView(s, a.worker), Effect(LocalView(s, a.worker), a.statement);
    StartsHere(s, a, id);
    ExecuteRan(s, a.worker, a.statement);
    var statements := StartStatements(v, a.statement.db);
    more := Locally(s, a.worker, statements, table);
    ProperRun(s, more);
    forall x ensures RowOf(Play(s, more), x) == RowOf(Next(s, a), x) {}
    SameRowsSameSteps(Next(s, a), Play(s, more));
    forall w | w in s.workers && w != a.worker ensures !IsHolding(s.workers[w], id) { assert !Held(s, id); }
  }

  lemma StartsHere(s: State, a: Action, id: StepId)
    requires a.Execute? && a.worker in s.workers
    requires RowOf(s, id) != Some(Executing) && RowOf(Next(s, a), id) == Some(Executing)
    ensures var v := LocalView(s, a.worker);
            && a.statement.StartStep? && Written(a.statement.db) && v.w.pc == Starting && CurrentId(v.w) == id
            && (v.row == Some(Waiting) || v.row == Some(Faulted))
            && Effect(v, a.statement)
               == v.(row := Some(Executing), w := v.w.(pc := if a.statement.db == Done then Sending else Reviewing))
  {
    hide Effect;
    var v := LocalView(s, a.worker);
    Refunds.ExecuteStepped(s, a.worker, a.statement);
    EffectExecuting(v, a.statement);
  }

  // ------------------------------------------------------------ from then on

  /** A worker that holds no command does not look at the step's history. */
  lemma EffectIgnoresHistory(v: View, h: History, statement: Statement)
    requires !InCommand(v.w)
    ensures Effect(v.(h := h), statement) == Effect(v, statement).(h := h) && Effect(v, statement).h == v.h
  {
  }

  /** A worker that does not hold the executing step does not come to hold it. */
  lemma EffectHoldsNothingNew(v: View, statement: Statement, id: StepId)
    requires InStep(v.w) ==> v.w.at < |v.w.plan|
    requires !IsHolding(v.w, id) && (CurrentId(v.w) == id ==> v.row == Some(Executing))
    ensures var u := Effect(v, statement);
            !IsHolding(u.w, id) && (CurrentId(v.w) == id ==> u.row == v.row)
  {
  }

  /** A worker that does not hold the step sees and does the same in both worlds. */
  lemma SameEffect(s: State, t: State, worker: nat, statement: Statement, id: StepId)
    requires Shadows(s, t, id) && Unapplied(s, id) && worker in s.workers && !IsHolding(s.workers[worker], id)
    ensures worker in t.workers && t.workers[worker] == s.workers[worker]
    ensures var u, y := Effect(LocalView(s, worker), statement), Effect(LocalView(t, worker), statement);
            && !IsHolding(u.w, id) && y == u.(h := y.h)
            && (CurrentId(s.workers[worker]) == id ==> y.h == HistoryOf(t, id))
            && (CurrentId(s.workers[worker]) != id ==> y.h == u.h)
  {
    hide Effect;
    var v, x := LocalView(s, worker), LocalView(t, worker);
    assert x == v.(h := x.h);
    EffectHoldsNothingNew(v, statement, id);
    if CurrentId(v.w) == id { EffectIgnoresHistory(v, x.h, statement); }
  }

  lemma ShadowsExecuteOther(s: State, t: State, worker: nat, statement: Statement, id: StepId)
    requires Shadows(s, t, id) && Unapplied(s, id) && worker in s.workers && !IsHolding(s.workers[worker], id)
    ensures Shadows(DoExecute(s, worker, statement), DoExecute(t, worker, statement), id)
  {
    hide Effect, Install, LocalView, Unapplied, IsHolding, Shadow;
    SameEffect(s, t, worker, statement, id);
    var u, y := Effect(LocalView(s, worker), statement), Effect(LocalView(t, worker), statement);
    Refunds.ExecuteStepped(s, worker, statement);
    Refunds.ExecuteStepped(t, worker, statement);
    InstallOwnHistory(s, worker, u);
    InstallOwnHistory(t, worker, y);
    PutShadow(s.workers, t.workers, worker, u.w, id);
  }

  lemma EffectOfHolder(v: View, statement: Statement)
    requires v.w.pc == Sending || v.w.pc == Awaiting(false) || v.w.pc == Failing(false)
    requires v.row == Some(Executing) && v.h.applied == [] && v.w.at < |v.w.plan|
    requires statement.ReceiveReply? && v.w.pc.Awaiting? ==> !statement.ok
    requires Effect(v, statement).row == Some(Executing) && Effect(v, statement).h.applied == []
    ensures var u := Effect(v, statement);
            && u.status == v.status
            && (u.w == v.w || u.w == v.w.(pc := Awaiting(false)) || u.w == v.w.(pc := Failing(false))
                || u.w == v.w.(pc := Reviewing))
  {
  }

  lemma GiveUpStatements(v: View) returns (statements: seq<Statement>)
    requires v.w.pc == Awaiting(true) && v.row == Some(Executing)
    ensures Local(v, statements) && EffectOf(v, statements) == v.(w := v.w.(pc := Reviewing))
  {
    hide Effect, EffectOf;
    statements := [ReceiveReply(true), RecordCompletion(Refused)];
    assert statements[..2] == statements;
    GiveUpEffects(v);
    EffectOfPrefix(v, statements, 1);
    EffectOfPrefix(v, statements, 2);
  }

  /** A statement of the holder, with the step still executing and unapplied. */
  lemma HolderMoves(s: State, a: Action, id: StepId)
    requires Unapplied(s, id) && HistoryOf(s, id).applied == []
    requires a.Execute? && a.worker in s.workers && IsHolding(s.workers[a.worker], id) && HonestRealm(s, a)
    requires RowOf(Next(s, a), id) == Some(Executing) && HistoryOf(Next(s, a), id).applied == []
    ensures var m, w := Next(s, a), s.workers[a.worker];
            && m.orders == s.orders && m.steps == s.steps && a.worker in m.workers
            && m.workers == s.workers[a.worker := m.workers[a.worker]]
            && (m.workers[a.worker] == w.(pc := Reviewing)
                || (m.workers[a.worker] == w.(pc := m.workers[a.worker].pc) && InCommand(m.workers[a.worker])))
            && forall other :: other != id ==> HistoryOf(m, other) == HistoryOf(s, other)
  {
    hide Effect, Install;
    var v := LocalView(s, a.worker);
    var u := Effect(v, a.statement);
    Refunds.ExecuteStepped(s, a.worker, a.statement);
    Safety.EffectRefund(v, a.statement);
    InstallOwnHistory(s, a.worker, u);
    EffectOfHolder(v, a.statement);
  }

  /** Nobody holds the step in `m` who did not in `s`, but `worker` gave up. */
  lemma GivenUpAlike(s: State, t: State, m: State, n: State, worker: nat, w: Worker, id: StepId)
    requires Shadows(s, t, id) && m.orders == s.orders && m.steps == s.steps && n.orders == t.orders
        && n.steps == t.steps
    requires m.workers == s.workers[worker := w] && n.workers == t.workers[worker := Shadow(w, id)]
    requires forall other :: other != id ==>
        HistoryOf(m, other) == HistoryOf(s, other) && HistoryOf(n, other) == HistoryOf(t, other)
    requires HistoryOf(n, id).applied != []
    ensures Shadows(m, n, id)
  {
  }

  lemma GivesUp(t: State, worker: nat, id: StepId, table: StackTable) returns (more: seq<Action>)
    requires At(t, worker, Awaiting(true)) && CurrentId(t.workers[worker]) == id && RowOf(t, id) == Some(Executing)
    ensures Throughout(t, more, Faithful) && SameTable(more, table)
    ensures var n := Play(t, more);
            && n.orders == t.orders && n.steps == t.steps
            && n.workers == t.workers[worker := t.workers[worker].(pc := Reviewing)]
            && forall other :: HistoryOf(n, other) == HistoryOf(t, other)
  {
    hide Effect, EffectOf, Play, Throughout, Next;
    var statements := GiveUpStatements(LocalView(t, worker));
    more := Locally(t, worker, statements, table);
    ProperRun(t, more);
    forall x ensures RowOf(Play(t, more), x) == RowOf(t, x) {}
    SameRowsSameSteps(t, Play(t, more));
  }

  lemma ShadowHolds(s: State, t: State, a: Action, id: StepId, table: StackTable) returns (more: seq<Action>)
    requires Shadows(s, t, id) && Unapplied(s, id) && HistoryOf(s, id).applied == []
    requires a.Execute? && a.worker in s.workers && IsHolding(s.workers[a.worker], id) && HonestRealm(s, a)
    requires RowOf(Next(s, a), id) == Some(Executing) && HistoryOf(Next(s, a), id).applied == []
    ensures Throughout(t, more, Faithful) && SameTable(more, table)
    ensures Shadows(Next(s, a), Play(t, more), id)
  {
    hide Play, Throughout, Next, Unapplied;
    HolderMoves(s, a, id);
    var w := Next(s, a).workers[a.worker];
    if InCommand(w) {
      more := [];
      NothingPlayed(t);
      assert t.workers == t.workers[a.worker := Shadow(w, id)];
    } else {
      more := GivesUp(t, a.worker, id, table);
    }
    GivenUpAlike(s, t, Next(s, a), Play(t, more), a.worker, w, id);
  }

  lemma NothingPlayed(t: State)
    ensures Play(t, []) == t && Throughout(t, [], Faithful)
  {
  }

  // ------------------------------------------------------------ the other actions

  /** Where a worker that does not hold the step is put, both worlds agree. */
  lemma PutShadow(actual: map<nat, Worker>, shadows: map<nat, Worker>, worker: nat, w: Worker, id: StepId)
    requires WorkersShadow(actual, shadows, id) && !IsHolding(w, id)
    ensures WorkersShadow(actual[worker := w], shadows[worker := w], id)
  {
  }

  /** Histories alone, and workers moved alike. */
  lemma KeepsShadow(s: State, t: State, m: State, n: State, id: StepId)
    requires Shadows(s, t, id) && m.history == s.history && n.history == t.history
    requires n.orders == m.orders && n.steps == m.steps
    requires WorkersShadow(m.workers, n.workers, id)
    ensures Shadows(m, n, id)
  {
    forall other | other != id ensures HistoryOf(n, other) == HistoryOf(m, other) {
      assert HistoryOf(t, other) == HistoryOf(s, other);
    }
    assert HistoryOf(n, id) == HistoryOf(t, id);
  }

  lemma ShadowsCrash(s: State, t: State, worker: nat, id: StepId)
    requires Shadows(s, t, id)
    ensures Shadows(DoCrash(s, worker), DoCrash(t, worker), id)
  {
    KeepsShadow(s, t, DoCrash(s, worker), DoCrash(t, worker), id);
  }

  lemma ShadowsStart(s: State, t: State, worker: nat, realm: string, id: StepId)
    requires Shadows(s, t, id)
    ensures Shadows(DoStartServer(s, worker, realm), DoStartServer(t, worker, realm), id)
  {
    SameOutside(s, t, worker, id);
    PutShadow(s.workers, t.workers, worker, Worker(realm, Booting, 0, [], 0), id);
    SameTables(s, t, id);
    hide Shadows, WorkersShadow, Shadow;
    KeepsShadow(s, t, DoStartServer(s, worker, realm), DoStartServer(t, worker, realm), id);
  }

  lemma SameTables(s: State, t: State, id: StepId)
    requires Shadows(s, t, id)
    ensures t.orders == s.orders && t.steps == s.steps && WorkersShadow(s.workers, t.workers, id)
  {
  }

  /** Outside a command the shadow is the worker. */
  lemma SameOutside(s: State, t: State, worker: nat, id: StepId)
    requires Shadows(s, t, id)
    ensures t.orders == s.orders && t.steps == s.steps && WorkersShadow(s.workers, t.workers, id)
    ensures worker in t.workers <==> worker in s.workers
    ensures forall pc: Pc :: !pc.Sending? && !pc.Awaiting? && !pc.Failing? && !pc.Completing? ==>
              At(t, worker, pc) == At(s, worker, pc) && (At(s, worker, pc) ==> t.workers[worker] == s.workers[worker])
  {
  }

  lemma ShadowsReset(s: State, t: State, worker: nat, db: Db, id: StepId)
    requires Shadows(s, t, id)
    ensures Shadows(DoResetInterrupted(s, worker, db), DoResetInterrupted(t, worker, db), id)
  {
    SameOutside(s, t, worker, id);
    hide Shadows, WorkersShadow, Shadow;
    if At(s, worker, Booting) {
      PutShadow(s.workers, t.workers, worker, s.workers[worker].(pc := Idle), id);
      var m, n := DoResetInterrupted(s, worker, db), DoResetInterrupted(t, worker, db);
      assert m.orders == n.orders;
      KeepsShadow(s, t, m, n, id);
    }
  }

  /** A claim writes the order unless it is refused, and moves the worker when it
      is acknowledged. */
  lemma ClaimIs(s: State, worker: nat, order: nat, db: Db)
    ensures At(s, worker, Idle) && Has(s, order, Pending) && s.orders[order].realm == s.workers[worker].realm ==>
              var orders := s.orders[order := s.orders[order].(status := Delivering)];
              var w := s.workers[worker].(pc := Claimed, order := order, plan := [], at := 0);
              DoClaimOrder(s, worker, order, db) ==
                s.(orders := if db == Refused then s.orders else orders,
                   workers := if db == Done then s.workers[worker := w] else s.workers)
    ensures !(At(s, worker, Idle) && Has(s, order, Pending) && s.orders[order].realm == s.workers[worker].realm) ==>
              DoClaimOrder(s, worker, order, db) == s
  {
  }

  lemma ShadowsClaim(s: State, t: State, worker: nat, order: nat, db: Db, id: StepId)
    requires Shadows(s, t, id)
    ensures Shadows(DoClaimOrder(s, worker, order, db), DoClaimOrder(t, worker, order, db), id)
  {
    SameOutside(s, t, worker, id);
    hide Shadows, WorkersShadow, Shadow, DoClaimOrder;
    ClaimIs(s, worker, order, db);
    ClaimIs(t, worker, order, db);
    if At(s, worker, Idle) {
      PutShadow(s.workers, t.workers, worker,
          s.workers[worker].(pc := Claimed, order := order, plan := [], at := 0), id);
      KeepsShadow(s, t, DoClaimOrder(s, worker, order, db), DoClaimOrder(t, worker, order, db), id);
    }
  }

  lemma ShadowsPlan(s: State, t: State, worker: nat, character: Character, plan: Option<seq<PlanStep>>, id: StepId)
    requires Shadows(s, t, id) && At(s, worker, Claimed)
    ensures At(t, worker, Claimed)
        && Shadows(TakePlan(s, worker, character, plan), TakePlan(t, worker, character, plan), id)
  {
    SameOutside(s, t, worker, id);
    hide Shadows, WorkersShadow, Shadow;
    var m, n := TakePlan(s, worker, character, plan), TakePlan(t, worker, character, plan);
    PutShadow(s.workers, t.workers, worker, m.workers[worker], id);
    KeepsShadow(s, t, m, n, id);
  }

  lemma ShadowsLoad(s: State, t: State, worker: nat, character: Character, table: StackTable, id: StepId)
    requires Shadows(s, t, id)
    ensures Shadows(DoLoadPlan(s, worker, character, table), DoLoadPlan(t, worker, character, table), id)
  {
    SameOutside(s, t, worker, id);
    hide PlanFor, TakePlan, Shadows, WorkersShadow, Shadow;
    if At(s, worker, Claimed) && s.workers[worker].order in s.orders {
      ShadowsPlan(s, t, worker, character, PlanFor(s.orders[s.workers[worker].order].goods, table), id);
    }
  }

  lemma ShadowsWith(s: State, t: State, orders: map<nat, Order>, id: StepId)
    requires Shadows(s, t, id)
    ensures Shadows(s.(orders := orders), t.(orders := orders), id)
  {
    SameTables(s, t, id);
    hide Shadows, WorkersShadow, Shadow;
    KeepsShadow(s, t, s.(orders := orders), t.(orders := orders), id);
  }

  lemma ShadowsPurchase(s: State, t: State, order: nat, realm: string, total: nat, goods: Goods, id: StepId)
    requires Shadows(s, t, id)
    ensures Shadows(DoPurchase(s, order, realm, total, goods), DoPurchase(t, order, realm, total, goods), id)
  {
    SameTables(s, t, id);
    hide Shadows, WorkersShadow, Shadow;
    ShadowsWith(s, t, s.orders[order := Order(realm, total, goods, Pending)], id);
  }

  lemma ShadowsStatus(s: State, t: State, order: nat, status: OrderStatus, id: StepId)
    requires Shadows(s, t, id) && order in s.orders
    ensures order in t.orders && Shadows(SetStatus(s, order, status), SetStatus(t, order, status), id)
  {
    SameTables(s, t, id);
    hide Shadows, WorkersShadow, Shadow;
    ShadowsWith(s, t, s.orders[order := s.orders[order].(status := status)], id);
  }

  lemma ShadowsRequeue(s: State, t: State, order: nat, realm: string, id: StepId)
    requires Shadows(s, t, id)
    ensures Shadows(DoRetryOrder(s, order, realm), DoRetryOrder(t, order, realm), id)
  {
    SameTables(s, t, id);
    hide Shadows, WorkersShadow, Shadow, SetStatus;
    if InRealm(s, order, realm) { ShadowsStatus(s, t, order, Pending, id); }
  }

  lemma ShadowsRefund(s: State, t: State, order: nat, realm: string, id: StepId)
    requires Shadows(s, t, id)
    ensures Shadows(DoRefundOrder(s, order, realm), DoRefundOrder(t, order, realm), id)
  {
    SameTables(s, t, id);
    hide Shadows, WorkersShadow, Shadow;
    assert Refundable(s, order, realm) == Refundable(t, order, realm);
    KeepsShadow(s, t, DoRefundOrder(s, order, realm), DoRefundOrder(t, order, realm), id);
  }

  lemma ShadowsResolve(s: State, t: State, order: nat, key: string, realm: string, resolution: Resolution, id: StepId)
    requires Shadows(s, t, id) && StepId(order, key) != id
    ensures Shadows(DoResolveStep(s, order, key, realm, resolution),
        DoResolveStep(t, order, key, realm, resolution), id)
  {
    if Resolvable(s, order, key, realm) {
      ResolveRows(s, order, key, realm, resolution);
      ResolveRows(t, order, key, realm, resolution);
      var own := StepId(order, key);
      assert HistoryOf(t, own) == HistoryOf(s, own);
    }
  }

  lemma ShadowsNext(s: State, t: State, a: Action, id: StepId)
    requires Shadows(s, t, id) && Unapplied(s, id)
    requires a.Execute? && a.worker in s.workers ==> !IsHolding(s.workers[a.worker], id)
    requires a.ResolveStep? ==> StepId(a.order, a.key) != id
    ensures Shadows(Next(s, a), Next(t, a), id)
  {
    hide DoExecute, DoClaimOrder, DoResetInterrupted, DoResolveStep, DoStartServer, DoCrash, DoLoadPlan, PlanFor;
    hide DoPurchase, DoRetryOrder, DoRefundOrder, Unapplied, Shadows;
    match a
    case StartServer(worker, realm) => ShadowsStart(s, t, worker, realm, id);
    case Crash(worker) => ShadowsCrash(s, t, worker, id);
    case ResetInterrupted(worker, db) => ShadowsReset(s, t, worker, db, id);
    case ClaimOrder(worker, order, db) => ShadowsClaim(s, t, worker, order, db, id);
    case LoadPlan(worker, character, table) => ShadowsLoad(s, t, worker, character, table, id);
    case Execute(worker, statement) => ShadowsExecute(s, t, worker, statement, id);
    case ResolveStep(order, key, realm, resolution) => ShadowsResolve(s, t, order, key, realm, resolution, id);
    case Purchase(order, realm, total, goods) => ShadowsPurchase(s, t, order, realm, total, goods, id);
    case RetryOrder(order, realm) => ShadowsRequeue(s, t, order, realm, id);
    case RefundOrder(order, realm) => ShadowsRefund(s, t, order, realm, id);
  }

  lemma ShadowsExecute(s: State, t: State, worker: nat, statement: Statement, id: StepId)
    requires Shadows(s, t, id) && Unapplied(s, id)
    requires worker in s.workers ==> !IsHolding(s.workers[worker], id)
    ensures Shadows(DoExecute(s, worker, statement), DoExecute(t, worker, statement), id)
  {
    hide Effect, Install, Unapplied;
    if worker in s.workers { ShadowsExecuteOther(s, t, worker, statement, id); }
  }

  lemma ShadowIsFaithful(s: State, t: State, a: Action, id: StepId)
    requires Shadows(s, t, id) && Faithful(s, a)
    requires a.Execute? && a.worker in s.workers ==> !IsHolding(s.workers[a.worker], id)
    requires a.ResolveStep? ==> StepId(a.order, a.key) != id
    ensures Faithful(t, a)
  {
    if a.ResolveStep? {
      var own := StepId(a.order, a.key);
      if Held(t, own) {
        var w :| w in t.workers && InCommand(t.workers[w]) && CurrentId(t.workers[w]) == own;
        assert InCommand(s.workers[w]) && CurrentId(s.workers[w]) == own;
      }
    }
  }

  /** The shadow follows one action of a faithful run. */
  lemma ShadowFollows(s: State, t: State, a: Action, id: StepId, table: StackTable) returns (more: seq<Action>)
    requires Shadows(s, t, id) && Unapplied(s, id) && HistoryOf(s, id).applied == []
    requires Faithful(s, a) && (a.LoadPlan? ==> a.table == table)
    requires RowOf(Next(s, a), id) == Some(Executing) && HistoryOf(Next(s, a), id).applied == []
    ensures Throughout(t, more, Faithful) && SameTable(more, table)
    ensures Shadows(Next(s, a), Play(t, more), id)
  {
    hide Play, Throughout, Next, Shadows, Unapplied;
    if a.Execute? && a.worker in s.workers && IsHolding(s.workers[a.worker], id) {
      more := ShadowHolds(s, t, a, id, table);
    } else if a.ResolveStep? && StepId(a.order, a.key) == id {
      StillExecuting(s, a, id);
      NothingPlayed(t);
      more := [];
    } else {
      ShadowsNext(s, t, a, id);
      ShadowIsFaithful(s, t, a, id);
      more := [a];
      PlayOne(t, a);
      ThroughoutOne(t, a, Faithful);
    }
  }

  lemma StillExecuting(s: State, a: Action, id: StepId)
    requires a.ResolveStep? && StepId(a.order, a.key) == id && RowOf(Next(s, a), id) == Some(Executing)
    ensures Next(s, a) == s
  {
  }

  // ------------------------------------------------------------ whole runs

  lemma AppliedStays(s: State, a: Action, id: StepId)
    ensures |HistoryOf(s, id).applied| <= |HistoryOf(Next(s, a), id).applied|
  {
    hide PlanFor, DoExecute, DoResolveStep, DoLoadPlan;
    match a
    case Execute(worker, statement) =>
      if worker in s.workers {
        ExecuteApplied(s, worker, statement, id);
      } else {
        NobodyExecutes(s, worker, statement);
      }
    case ResolveStep(order, key, realm, resolution) => ResolveApplied(s, order, key, realm, resolution, id);
    case LoadPlan(worker, character, table) => LoadApplied(s, worker, character, table);
    case _ =>
  }

  lemma NobodyExecutes(s: State, worker: nat, statement: Statement)
    requires worker !in s.workers
    ensures DoExecute(s, worker, statement) == s
  {
  }

  lemma ResolveApplied(s: State, order: nat, key: string, realm: string, resolution: Resolution, id: StepId)
    ensures HistoryOf(DoResolveStep(s, order, key, realm, resolution), id).applied == HistoryOf(s, id).applied
  {
  }

  lemma LoadApplied(s: State, worker: nat, character: Character, table: StackTable)
    ensures DoLoadPlan(s, worker, character, table).history == s.history
  {
    hide PlanFor;
  }

  lemma ExecuteApplied(s: State, worker: nat, statement: Statement, id: StepId)
    requires worker in s.workers
    ensures |HistoryOf(s, id).applied| <= |HistoryOf(DoExecute(s, worker, statement), id).applied|
  {
    InstallOwnHistory(s, worker, Effect(LocalView(s, worker), statement));
  }

  lemma FaithfulRunInv(run: seq<Action>, table: StackTable)
    requires Throughout(EMPTY, run, Faithful) && SameTable(run, table)
    ensures var s := Play(EMPTY, run); OnceInv(s, PlansOf(s, table)) && HonestInv(s)
  {
    FaithfulRunIsCareful(run, table);
    OnceRun(run, table, PlansOf(Play(EMPTY, run), table));
  }

  /** For every faithful run that leaves a step executing, its command unapplied,
      there is a faithful run to the same rows that has it applied. */
  lemma {:induction false} ShadowRun(run: seq<Action>, id: StepId, table: StackTable) returns (other: seq<Action>)
    requires Throughout(EMPTY, run, Faithful) && SameTable(run, table)
    requires var s := Play(EMPTY, run); RowOf(s, id) == Some(Executing) && HistoryOf(s, id).applied == []
    ensures Throughout(EMPTY, other, Faithful) && SameTable(other, table)
    ensures Shadows(Play(EMPTY, run), Play(EMPTY, other), id)
  {
    hide Next, Shadows, Unapplied, OnceInv, HonestInv, Faithful;
    var init, last := run[..|run| - 1], run[|run| - 1];
    var s := Play(EMPTY, init);
    FaithfulRunInv(init, table);
    AppliedStays(s, last, id);
    if RowOf(s, id) == Some(Executing) {
      UnappliedWhileFaithful(s, id, PlansOf(s, table));
      other := ShadowRun(init, id, table);
      var more := ShadowFollows(s, Play(EMPTY, other), last, id, table);
      other := Continue(EMPTY, other, more, table, Faithful);
    } else {
      StartableIsFree(s, last, id, PlansOf(s, table));
      var more := ShadowStarts(s, last, id, table);
      other := Continue(EMPTY, init, more, table, Faithful);
    }
  }

  lemma StartableIsFree(s: State, a: Action, id: StepId, plans: Plans)
    requires OnceInv(s, plans) && RowOf(s, id) != Some(Executing) && RowOf(Next(s, a), id) == Some(Executing)
    ensures a.Execute? && a.worker in s.workers && !Held(s, id)
    ensures InStep(s.workers[a.worker]) ==> s.workers[a.worker].at < |s.workers[a.worker].plan|
  {
    hide RowInv, OrderInv, Effect, Install;
    match a {
      case Execute(worker, statement) =>
        if worker in s.workers {
          StartsHere(s, a, id);
          assert WorkerInv(s, s.workers[worker], plans);
          forall w | w in s.workers && InCommand(s.workers[w]) ensures CurrentId(s.workers[w]) != id {
            assert WorkerInv(s, s.workers[w], plans);
          }
        } else {
          NobodyExecutes(s, worker, statement);
        }
      case _ => OthersExecuteNothing(s, a, id);
    }
  }

  // ------------------------------------------------------------ what a refund can know

  ghost predicate NothingApplied(s: State, order: nat) {
    forall key :: HistoryOf(s, StepId(order, key)).applied == []
  }

  ghost predicate NothingExecuting(s: State, order: nat) {
    forall key :: !StepIs(s, StepId(order, key), Executing)
  }

  /** The tables a refund reads. */
  ghost predicate SameRows(s: State, t: State) {
    t.orders == s.orders && t.steps == s.steps
  }

  /** A faithful run that ends in the rows of `s`. */
  ghost predicate LeadsTo(run: seq<Action>, table: StackTable, s: State) {
    Throughout(EMPTY, run, Faithful) && SameTable(run, table) && SameRows(s, Play(EMPTY, run))
  }

  /** The refund guard lets an 'executing' step through. For every faithful run to
      a refundable order: the rows establish that the realm has applied nothing of
      it, whichever faithful run led to them, exactly when no step of the order is
      executing. */
  lemma RefundGuardSufficesIffNothingExecutes(run: seq<Action>, order: nat, realm: string, table: StackTable)
    requires Throughout(EMPTY, run, Faithful) && SameTable(run, table) && Refundable(Play(EMPTY, run), order, realm)
    ensures var s := Play(EMPTY, run);
            (  (forall other :: LeadsTo(other, table, s) ==> NothingApplied(Play(EMPTY, other), order))
             <==> NothingExecuting(s, order))
  {
    hide Throughout, Play, Faithful, OnceInv, HonestInv;
    var s := Play(EMPTY, run);
    if NothingExecuting(s, order) {
      forall other | LeadsTo(other, table, s) ensures NothingApplied(Play(EMPTY, other), order) {
        var t := Play(EMPTY, other);
        FaithfulRunInv(other, table);
        IdleRowsAreUnapplied(t, order, realm, PlansOf(t, table));
      }
    } else {
      var key :| StepIs(s, StepId(order, key), Executing);
      var other := run;
      if HistoryOf(s, StepId(order, key)).applied == [] { other := ShadowRun(run, StepId(order, key), table); }
      assert LeadsTo(other, table, s) && HistoryOf(Play(EMPTY, other), StepId(order, key)).applied != [];
    }
  }

  lemma IdleRowsAreUnapplied(t: State, order: nat, realm: string, plans: Plans)
    requires OnceInv(t, plans) && HonestInv(t) && Refundable(t, order, realm) && NothingExecuting(t, order)
    ensures NothingApplied(t, order)
  {
    forall key ensures HistoryOf(t, StepId(order, key)).applied == [] {
      assert RowInv(t, StepId(order, key), plans) && !StepIs(t, StepId(order, key), Executing);
    }
  }
}
