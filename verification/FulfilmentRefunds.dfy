/** Which put-backs are safe for refunds: one keeps refunded orders free of
    completed steps, whatever happens next, exactly when nobody is left who
    could complete a step behind the refund. */
module FulfilmentRefunds {
  import opened Common
  import opened DeliveryPlan
  import opened Fulfilment
  import opened FulfilmentSafety
  import opened FulfilmentRuns
  import Bounds = FulfilmentBounds
  import ExactlyOnce = FulfilmentExactlyOnce

  // ------------------------------------------------------------ who can still complete a step

  function RowIn(rows: map<StepId, StepStatus>, id: StepId): Option<StepStatus> {
    if id in rows then Some(rows[id]) else None
  }

  predicate Free(row: Option<StepStatus>) {
    row == None || row == Some(Waiting) || row == Some(Faulted)
  }

  /** The step after the worker's current one. */
  predicate NextIsFree(rows: map<StepId, StepStatus>, w: Worker) {
    w.at + 1 < |w.plan| && Free(RowIn(rows, StepId(w.order, w.plan[w.at + 1].key)))
  }

  /** A driver that can still complete a step, by its next statement and the rows
      alone: the step it is about to start is free, or it holds an executing row,
      or it holds a command whose row is no longer executing and the step after
      that is free. `plan` is what it would load. */
  predicate CanComplete(rows: map<StepId, StepStatus>, w: Worker, plan: Option<seq<PlanStep>>) {
    var row := RowIn(rows, CurrentId(w));
    match w.pc
    case Claimed => plan.Some? && plan.value != [] && Free(RowIn(rows, StepId(w.order, plan.value[0].key)))
    case Inserting => Free(row)
    case Selecting => row.Some? && Free(row)
    case Starting => row.Some? && Free(row)
    case Sending => row == Some(Executing) || NextIsFree(rows, w)
    case Awaiting(_) => row == Some(Executing) || NextIsFree(rows, w)
    case Completing => row == Some(Executing) || NextIsFree(rows, w)
    case _ => false
  }

  function PlanOf(s: State, order: nat, table: StackTable): Option<seq<PlanStep>> {
    if order in s.orders then PlanFor(s.orders[order].goods, table) else None
  }

  /** Nothing of the worker's order is completed, and it cannot complete any. */
  ghost predicate Stuck(s: State, w: Worker, table: StackTable) {
    w.order in s.orders && !SomeCompleted(s, w.order) && !CanComplete(s.steps, w, PlanOf(s, w.order, table))
  }

  ghost predicate Harmless(s: State, w: Worker, table: StackTable) {
    Driving(w) ==> Kept(s, w.order) || Stuck(s, w, table)
  }

  ghost predicate StuckInv(s: State, table: StackTable) {
    && (forall w :: w in s.workers ==> Harmless(s, s.workers[w], table))
    && (forall id :: RowClean(s, id))
  }

  ghost predicate RefundsAreClean(s: State) {
    forall id :: StepIs(s, id, Completed) ==> !Has(s, id.order, Refunded)
  }

  // ------------------------------------------------------------ harmless drivers stay harmless

  lemma SoleDriver(s: State, v: nat, w: nat)
    requires SafetyInv(s) && v in s.workers && w in s.workers && Driving(s.workers[v]) && Driving(s.workers[w])
    requires s.workers[v].order == s.workers[w].order
    ensures v == w
  {
    DriverRealm(s, s.workers[v]);
    DriverRealm(s, s.workers[w]);
  }

  /** The order is the same to its drivers. */
  ghost predicate Unaffected(s: State, t: State, order: nat) {
    && (order in s.orders ==> order in t.orders && t.orders[order].goods == s.orders[order].goods)
    && (Driven(s, order) && Has(s, order, Delivering) ==> Has(t, order, Delivering))
    && (Has(t, order, Refunded) ==> Has(s, order, Refunded) || (!Has(s, order, Delivering) && !SomeCompleted(s, order)))
  }

  /** Rows and drivers unchanged; statuses change only as far as drivers do not care. */
  lemma KeepsStuck(s: State, t: State, table: StackTable)
    requires StuckInv(s, table)
    requires t.steps == s.steps
    requires forall order :: Unaffected(s, t, order)
    requires forall w :: w in t.workers && Driving(t.workers[w]) ==> w in s.workers && s.workers[w] == t.workers[w]
    ensures StuckInv(t, table)
  {
    hide CanComplete, PlanFor;
    forall order ensures SomeCompleted(s, order) == SomeCompleted(t, order) {
      assert forall id, status :: StepIs(t, id, status) == StepIs(s, id, status);
    }
    forall w | w in t.workers && Driving(t.workers[w]) ensures Harmless(t, t.workers[w], table) {
      var order := t.workers[w].order;
      assert Harmless(s, s.workers[w], table) && Driven(s, order) && Unaffected(s, t, order);
    }
    forall id ensures RowClean(t, id) {
      assert RowClean(s, id) && Unaffected(s, t, id.order);
      if id in t.steps && t.steps[id] == Completed { assert StepIs(s, id, Completed) && SomeCompleted(s, id.order); }
    }
  }

  lemma SameOrders(s: State, t: State)
    requires t.orders == s.orders
    ensures forall order :: Unaffected(s, t, order)
  {
    hide Driven, SomeCompleted;
  }

  lemma StatusUnaffected(s: State, order: nat, status: OrderStatus, other: nat)
    requires order in s.orders && status != Refunded
        && (Driven(s, order) && Has(s, order, Delivering) ==> status == Delivering)
    ensures Unaffected(s, SetStatus(s, order, status), other)
  {
    hide Driven, SomeCompleted;
  }

  lemma ServerStuck(s: State, worker: nat, realm: string, table: StackTable)
    requires StuckInv(s, table)
    ensures StuckInv(DoStartServer(s, worker, realm), table) && StuckInv(DoCrash(s, worker), table)
  {
    hide PlanFor, StuckInv, Unaffected;
    SameOrders(s, DoStartServer(s, worker, realm));
    SameOrders(s, DoCrash(s, worker));
    KeepsStuck(s, DoStartServer(s, worker, realm), table);
    KeepsStuck(s, DoCrash(s, worker), table);
  }

  lemma ResetUnaffected(s: State, worker: nat, db: Db, order: nat)
    requires NoDrivenReset(s, ResetInterrupted(worker, db))
    ensures Unaffected(s, DoResetInterrupted(s, worker, db), order)
  {
    hide Driven, SomeCompleted;
  }

  lemma ResetStuck(s: State, worker: nat, db: Db, table: StackTable)
    requires SafetyInv(s) && StuckInv(s, table)
    ensures StuckInv(DoResetInterrupted(s, worker, db), table)
  {
    SoleWorkerResetsNothing(s, ResetInterrupted(worker, db));
    hide PlanFor, StuckInv, SafetyInv, Unaffected;
    var t := DoResetInterrupted(s, worker, db);
    forall order ensures Unaffected(s, t, order) { ResetUnaffected(s, worker, db, order); }
    KeepsStuck(s, t, table);
  }

  lemma PurchaseStuck(s: State, order: nat, realm: string, total: nat, goods: Goods, table: StackTable)
    requires StuckInv(s, table)
    ensures StuckInv(DoPurchase(s, order, realm, total, goods), table)
  {
    hide PlanFor, StuckInv, Driven, SomeCompleted;
    var t := DoPurchase(s, order, realm, total, goods);
    forall o ensures Unaffected(s, t, o) {}
    hide Unaffected;
    KeepsStuck(s, t, table);
  }

  lemma RequeueStuck(s: State, order: nat, realm: string, table: StackTable)
    requires StuckInv(s, table)
    ensures StuckInv(DoRetryOrder(s, order, realm), table)
  {
    hide PlanFor, StuckInv, Unaffected;
    var t := DoRetryOrder(s, order, realm);
    if t != s {
      forall o ensures Unaffected(s, t, o) { StatusUnaffected(s, order, Pending, o); }
      KeepsStuck(s, t, table);
    }
  }

  lemma RefundUnaffected(s: State, order: nat, realm: string, other: nat)
    ensures Unaffected(s, DoRefundOrder(s, order, realm), other)
  {
    hide Driven;
  }

  lemma RefundStuck(s: State, order: nat, realm: string, table: StackTable)
    requires StuckInv(s, table)
    ensures StuckInv(DoRefundOrder(s, order, realm), table)
  {
    hide PlanFor, StuckInv, Unaffected;
    var t := DoRefundOrder(s, order, realm);
    forall o ensures Unaffected(s, t, o) { RefundUnaffected(s, order, realm, o); }
    KeepsStuck(s, t, table);
  }

  lemma ClaimStuck(s: State, worker: nat, order: nat, db: Db, table: StackTable)
    requires SafetyInv(s) && StuckInv(s, table)
    ensures StuckInv(DoClaimOrder(s, worker, order, db), table)
  {
    var t := DoClaimOrder(s, worker, order, db);
    if t != s {
      forall w | w in s.workers && Driving(s.workers[w]) ensures s.workers[w].order != order {
        DriverRealm(s, s.workers[w]);
      }
      var m := if Written(db) then SetStatus(s, order, Delivering) else s;
      assert StuckInv(m, table) by {
        hide StuckInv;
        forall o ensures Unaffected(s, m, o) {}
        KeepsStuck(s, m, table);
      }
      if db == Done {
        WorkerSet(m, worker, s.workers[worker].(pc := Claimed, order := order, plan := [], at := 0), table);
      }
    }
  }

  /** A harmless driver in place of a worker. */
  lemma WorkerSet(s: State, worker: nat, w: Worker, table: StackTable)
    requires StuckInv(s, table) && Harmless(s, w, table)
    ensures StuckInv(Put(s, worker, w), table)
  {
    hide CanComplete, PlanFor;
    var t := Put(s, worker, w);
    forall order ensures SomeCompleted(s, order) == SomeCompleted(t, order) {
      assert forall id, status :: StepIs(t, id, status) == StepIs(s, id, status);
    }
    forall id ensures RowClean(t, id) { assert RowClean(s, id); }
  }

  lemma PlanStuck(s: State, worker: nat, character: Character, table: StackTable)
    requires StuckInv(s, table) && At(s, worker, Claimed) && s.workers[worker].order in s.orders
    ensures StuckInv(TakePlan(s, worker, character, PlanFor(s.orders[s.workers[worker].order].goods, table)), table)
  {
    hide PlanFor, StuckInv, Driven, SomeCompleted;
    var plan := PlanFor(s.orders[s.workers[worker].order].goods, table);
    var t := TakePlan(s, worker, character, plan);
    assert Harmless(s, t.workers[worker], table) by {
      assert Harmless(s, s.workers[worker], table) by { StuckWorker(s, worker, table); }
    }
    WorkerSet(s, worker, t.workers[worker], table);
  }

  lemma StuckWorker(s: State, worker: nat, table: StackTable)
    requires StuckInv(s, table) && worker in s.workers
    ensures Harmless(s, s.workers[worker], table)
  {
  }

  lemma OwnRowsDecide(rows: map<StepId, StepStatus>, others: map<StepId, StepStatus>, w: Worker,
      plan: Option<seq<PlanStep>>)
    requires forall id: StepId :: id.order == w.order ==> RowIn(rows, id) == RowIn(others, id)
    ensures CanComplete(rows, w, plan) == CanComplete(others, w, plan)
  {
  }

  /** A driver of an order nothing happened to. */
  lemma Untouched(s: State, t: State, w: Worker, table: StackTable)
    requires Harmless(s, w, table) && Driving(w)
    requires forall status :: Has(t, w.order, status) == Has(s, w.order, status)
    requires w.order in s.orders ==> w.order in t.orders && t.orders[w.order].goods == s.orders[w.order].goods
    requires forall id: StepId :: id.order == w.order ==> RowIn(t.steps, id) == RowIn(s.steps, id)
    ensures Harmless(t, w, table)
  {
    hide CanComplete, PlanFor;
    OwnRowsDecide(s.steps, t.steps, w, PlanOf(s, w.order, table));
    assert forall id: StepId :: id.order == w.order ==> StepIs(t, id, Completed) == StepIs(s, id, Completed) by {
      forall id: StepId | id.order == w.order ensures StepIs(t, id, Completed) == StepIs(s, id, Completed) {
        assert RowIn(t.steps, id) == RowIn(s.steps, id);
      }
    }
  }

  lemma ResolveStuck(s: State, order: nat, key: string, realm: string, resolution: Resolution, table: StackTable)
    requires StuckInv(s, table) && (resolution == RetryStep ==> !Driven(s, order))
    ensures StuckInv(DoResolveStep(s, order, key, realm, resolution), table)
  {
    hide PlanFor, CanComplete, Stuck;
    if Resolvable(s, order, key, realm) {
      var t, own := DoResolveStep(s, order, key, realm, resolution), StepId(order, key);
      assert t.workers == s.workers && t.orders == s.orders[order := s.orders[order].(status := Pending)];
      assert t.steps == s.steps[own := if resolution == MarkCompleted then Completed else Waiting];
      forall id ensures RowClean(t, id) { assert RowClean(s, id); }
      forall w | w in t.workers && Driving(t.workers[w]) ensures Harmless(t, t.workers[w], table) {
        if s.workers[w].order == order {
          assert Driven(s, order) && StepIs(t, own, Completed);
        } else {
          Untouched(s, t, s.workers[w], table);
        }
      }
    }
  }

  lemma EffectStuck(v: View, statement: Statement, rows: map<StepId, StepStatus>, plan: Option<seq<PlanStep>>)
    requires v.row == RowIn(rows, CurrentId(v.w)) && v.row != Some(Completed)
    requires InStep(v.w) ==> v.w.at < |v.w.plan|
    requires Driving(v.w) && !CanComplete(rows, v.w, plan)
    ensures var u := Effect(v, statement);
            var after := if u.row.Some? then rows[CurrentId(v.w) := u.row.value] else rows;
            u.row != Some(Completed) && (Driving(u.w) ==> !CanComplete(after, u.w, plan))
  {
  }

  /** What a statement of a driver leaves behind. */
  ghost predicate Stepped(s: State, t: State, worker: nat, u: View) {
    && worker in s.workers
    && (var w := s.workers[worker];
        && u.w.order == w.order && t.workers == s.workers[worker := u.w]
        && t.steps == (if u.row.Some? then s.steps[CurrentId(w) := u.row.value] else s.steps)
        && t.orders == (if w.order in s.orders && u.status.Some?
                        then s.orders[w.order := s.orders[w.order].(status := u.status.value)] else s.orders))
  }

  lemma ExecuteStepped(s: State, worker: nat, statement: Statement)
    requires worker in s.workers
    ensures Stepped(s, DoExecute(s, worker, statement), worker, Effect(LocalView(s, worker), statement))
  {
    hide Effect;
    EffectRefund(LocalView(s, worker), statement);
  }

  /** The worker that took the statement. */
  lemma OwnStuck(s: State, t: State, worker: nat, statement: Statement, table: StackTable)
    requires SafetyInv(s) && StuckInv(s, table) && worker in s.workers && Driving(s.workers[worker])
    requires Stepped(s, t, worker, Effect(LocalView(s, worker), statement))
    ensures Harmless(t, t.workers[worker], table)
    ensures forall id: StepId :: id.order == s.workers[worker].order ==> RowClean(t, id)
  {
    hide PlanFor, CanComplete, Effect;
    var v, w := LocalView(s, worker), s.workers[worker];
    var u, plan := Effect(v, statement), PlanOf(s, w.order, table);
    assert PassInv(s, w) && Harmless(s, w, table);
    EffectRefund(v, statement);
    if Kept(s, w.order) {
      if SomeCompleted(s, w.order) {
        var id: StepId :| id.order == w.order && StepIs(s, id, Completed);
        assert StepIs(t, id, Completed);
      }
      forall id: StepId | id.order == w.order ensures RowClean(t, id) { assert RowClean(s, id); }
    } else {
      assert !StepIs(s, CurrentId(w), Completed);
      EffectStuck(v, statement, s.steps, plan);
      forall id: StepId | id.order == w.order ensures !StepIs(t, id, Completed) { assert !StepIs(s, id, Completed); }
      forall id: StepId | id.order == w.order ensures RowClean(t, id) { assert RowClean(s, id); }
    }
  }

  lemma ExecuteStuck(s: State, worker: nat, statement: Statement, table: StackTable)
    requires SafetyInv(s) && StuckInv(s, table)
    ensures StuckInv(DoExecute(s, worker, statement), table)
  {
    hide PlanFor, CanComplete, Effect, Install, Stuck, PassInv;
    if worker in s.workers {
      var t := DoExecute(s, worker, statement);
      ExecuteStepped(s, worker, statement);
      EffectRefund(LocalView(s, worker), statement);
      if Driving(s.workers[worker]) {
        OwnStuck(s, t, worker, statement, table);
        OthersStuck(s, t, worker, Effect(LocalView(s, worker), statement), table);
      } else {
        InstallUnchanged(s, worker);
        SameOrders(s, t);
        KeepsStuck(s, t, table);
      }
    }
  }

  lemma OthersStuck(s: State, t: State, worker: nat, u: View, table: StackTable)
    requires SafetyInv(s) && StuckInv(s, table) && Stepped(s, t, worker, u) && Driving(s.workers[worker])
    ensures forall w :: w in t.workers && w != worker ==> Harmless(t, t.workers[w], table)
    ensures forall id: StepId :: id.order != s.workers[worker].order ==> RowClean(t, id)
  {
    hide PlanFor, CanComplete, Stuck, PassInv;
    forall w | w in t.workers && w != worker ensures Harmless(t, t.workers[w], table) {
      assert Harmless(s, s.workers[w], table);
      if Driving(s.workers[w]) {
        if s.workers[w].order == s.workers[worker].order { SoleDriver(s, w, worker); }
        Untouched(s, t, s.workers[w], table);
      }
    }
    forall id: StepId | id.order != s.workers[worker].order ensures RowClean(t, id) { assert RowClean(s, id); }
  }

  lemma StuckStep(s: State, a: Action, table: StackTable)
    requires SafetyInv(s) && StuckInv(s, table) && Disciplined(s, a) && (a.LoadPlan? ==> a.table == table)
    ensures StuckInv(Next(s, a), table)
  {
    hide DoExecute, DoClaimOrder, DoResetInterrupted, DoResolveStep, DoRefundOrder, DoRetryOrder,
        DoStartServer, DoCrash;
    hide DoPurchase, PlanFor, StuckInv, SafetyInv;
    match a
    case Purchase(order, realm, total, goods) => PurchaseStuck(s, order, realm, total, goods, table);
    case StartServer(worker, realm) => ServerStuck(s, worker, realm, table);
    case Crash(worker) => ServerStuck(s, worker, "", table);
    case ResetInterrupted(worker, db) => ResetStuck(s, worker, db, table);
    case ClaimOrder(worker, order, db) => ClaimStuck(s, worker, order, db, table);
    case LoadPlan(worker, character, _) =>
      if At(s, worker, Claimed) && s.workers[worker].order in s.orders { PlanStuck(s, worker, character, table); }
    case Execute(worker, statement) => ExecuteStuck(s, worker, statement, table);
    case RetryOrder(order, realm) => RequeueStuck(s, order, realm, table);
    case RefundOrder(order, realm) => RefundStuck(s, order, realm, table);
    case ResolveStep(order, key, realm, resolution) => ResolveStuck(s, order, key, realm, resolution, table);
  }

  lemma {:induction false} StuckRun(s: State, run: seq<Action>, table: StackTable)
    requires SafetyInv(s) && StuckInv(s, table) && Throughout(s, run, Disciplined) && ExactlyOnce.SameTable(run, table)
    ensures SafetyInv(Play(s, run)) && StuckInv(Play(s, run), table)
  {
    hide SafetyInv, StuckInv, Next, Disciplined;
    if run != [] {
      var init, last := run[..|run| - 1], run[|run| - 1];
      StuckRun(s, init, table);
      assert Exclusive(Play(s, init), last) by { DisciplineIsExclusive(Play(s, init), last); }
      SafeStep(Play(s, init), last);
      StuckStep(Play(s, init), last, table);
    }
  }

  lemma DisciplineIsExclusive(s: State, a: Action)
    requires Disciplined(s, a)
    ensures Exclusive(s, a)
  {
  }

  // ------------------------------------------------------------ a driver that can complete a step does

  /** Of the actions that break no rule whatever the state. */
  ghost predicate Routine(s: State, a: Action) {
    a.Execute? || a.LoadPlan? || a.RefundOrder?
  }

  function Rank(pc: Pc): nat {
    match pc
    case Inserting => 6
    case Selecting => 5
    case Starting => 4
    case Sending => 3
    case Awaiting(_) => 2
    case Completing => 1
    case _ => 0
  }

  function WorkLeft(w: Worker): int {
    7 * (|w.plan| - w.at) + Rank(w.pc)
  }

  /** The statement that leads on, with the best outcome. */
  function LeadsOn(pc: Pc): Statement {
    match pc
    case Inserting => InsertStep(Done)
    case Selecting => SelectStep(true)
    case Starting => StartStep(Done)
    case Sending => SendCommand(true)
    case Awaiting(_) => ReceiveReply(true)
    case _ => RecordCompletion(Done)
  }

  lemma EffectLeadsOn(v: View, rows: map<StepId, StepStatus>, plan: Option<seq<PlanStep>>)
    requires v.row == RowIn(rows, CurrentId(v.w)) && v.w.at < |v.w.plan| && v.w.pc != Claimed
    requires CanComplete(rows, v.w, plan)
    ensures var u := Effect(v, LeadsOn(v.w.pc));
            var after := if u.row.Some? then rows[CurrentId(v.w) := u.row.value] else rows;
            || u.row == Some(Completed)
            || (CanComplete(after, u.w, plan) && u.w.pc != Claimed && u.w.at < |u.w.plan|
                && WorkLeft(u.w) < WorkLeft(v.w))
    ensures Effect(v, LeadsOn(v.w.pc)).w.order == v.w.order
    ensures WorkLeft(v.w) > 0
  {
  }

  lemma {:induction false} StepGetsDone(s: State, worker: nat, table: StackTable) returns (run: seq<Action>, id: StepId)
    requires worker in s.workers && s.workers[worker].pc != Claimed
    requires s.workers[worker].at < |s.workers[worker].plan|
    requires CanComplete(s.steps, s.workers[worker], None)
    ensures Throughout(s, run, Routine) && ExactlyOnce.SameTable(run, table)
    ensures id.order == s.workers[worker].order && StepIs(Play(s, run), id, Completed)
    decreases WorkLeft(s.workers[worker])
  {
    hide Effect, CanComplete, Play, Throughout, Next;
    var w, v := s.workers[worker], LocalView(s, worker);
    var a := Execute(worker, LeadsOn(w.pc));
    EffectLeadsOn(v, s.steps, None);
    ExecuteStepped(s, worker, LeadsOn(w.pc));
    NextIsExecute(s, worker, LeadsOn(w.pc));
    run := Single(s, a, table, Routine);
    var m := Play(s, run);
    if StepIs(m, CurrentId(w), Completed) {
      id := CurrentId(w);
    } else {
      var rest;
      rest, id := StepGetsDone(m, worker, table);
      run := Continue(s, run, rest, table, Routine);
    }
  }

  lemma NextIsExecute(s: State, worker: nat, statement: Statement)
    ensures Next(s, Execute(worker, statement)) == DoExecute(s, worker, statement)
  {
  }

  /** Only a worker that has not loaded its plan depends on the table. */
  lemma PlanMatters(rows: map<StepId, StepStatus>, w: Worker, plan: Option<seq<PlanStep>>)
    ensures w.pc != Claimed ==> CanComplete(rows, w, plan) == CanComplete(rows, w, None)
  {
  }

  lemma {:induction false} DriverGetsDone(s: State, worker: nat, table: StackTable)
      returns (run: seq<Action>, id: StepId)
    requires worker in s.workers && Driving(s.workers[worker]) && s.workers[worker].order in s.orders
    requires InStep(s.workers[worker]) ==> s.workers[worker].at < |s.workers[worker].plan|
    requires CanComplete(s.steps, s.workers[worker], PlanOf(s, s.workers[worker].order, table))
    ensures Throughout(s, run, Routine) && ExactlyOnce.SameTable(run, table)
    ensures id.order == s.workers[worker].order && StepIs(Play(s, run), id, Completed)
  {
    hide PlanFor, Play, Throughout;
    var w := s.workers[worker];
    PlanMatters(s.steps, w, PlanOf(s, w.order, table));
    if w.pc == Claimed {
      var load := LoadPlan(worker, Ready, table);
      run := [load];
      PlayOne(s, load);
      ThroughoutOne(s, load, Routine);
      var rest;
      rest, id := StepGetsDone(Next(s, load), worker, table);
      run := Continue(s, run, rest, table, Routine);
    } else {
      run, id := StepGetsDone(s, worker, table);
    }
  }

  // ------------------------------------------------------------ the exact condition

  /** Every live driver of the order has another completed step to keep it from
      a refund, or could complete nothing once the step waits. */
  ghost predicate PutBackIsHarmless(s: State, order: nat, key: string, table: StackTable) {
    forall w :: w in s.workers && Driving(s.workers[w]) && s.workers[w].order == order ==>
      || (exists id: StepId :: id.order == order && id.key != key && StepIs(s, id, Completed))
      || !CanComplete(s.steps[StepId(order, key) := Waiting], s.workers[w], PlanOf(s, order, table))
  }

  lemma RefundInvIsStuckInv(s: State, table: StackTable)
    requires RefundInv(s)
    ensures StuckInv(s, table)
  {
    hide PlanFor, CanComplete;
    forall w | w in s.workers ensures Harmless(s, s.workers[w], table) { assert DriverInv(s, w); }
  }

  lemma HarmlessPutBack(s: State, order: nat, key: string, realm: string, table: StackTable)
    requires RefundInv(s) && Resolvable(s, order, key, realm) && PutBackIsHarmless(s, order, key, table)
    ensures StuckInv(DoResolveStep(s, order, key, realm, RetryStep), table)
  {
    hide PlanFor, CanComplete;
    var t, own := DoResolveStep(s, order, key, realm, RetryStep), StepId(order, key);
    assert t.workers == s.workers && t.orders == s.orders[order := s.orders[order].(status := Pending)];
    assert t.steps == s.steps[own := Waiting];
    forall id ensures RowClean(t, id) { assert RowClean(s, id); }
    forall w | w in t.workers && Driving(t.workers[w]) ensures Harmless(t, t.workers[w], table) {
      assert DriverInv(s, w);
      if s.workers[w].order == order {
        if id: StepId :| id.order == order && id.key != key && StepIs(s, id, Completed) {
          assert StepIs(t, id, Completed);
        } else {
          assert forall id: StepId :: id.order == order ==> !StepIs(t, id, Completed);
        }
      } else {
        Untouched(s, t, s.workers[w], table);
      }
    }
  }

  /** A pending order with nothing completed is refunded, and then its driver
      completes a step. */
  lemma CompletesBehindRefund(t: State, order: nat, realm: string, worker: nat, table: StackTable)
      returns (rest: seq<Action>)
    requires InRealm(t, order, realm) && Has(t, order, Pending) && !SomeCompleted(t, order)
    requires worker in t.workers && Driving(t.workers[worker]) && t.workers[worker].order == order
    requires InStep(t.workers[worker]) ==> t.workers[worker].at < |t.workers[worker].plan|
    requires CanComplete(t.steps, t.workers[worker], PlanOf(t, order, table))
    ensures Throughout(t, rest, Routine) && ExactlyOnce.SameTable(rest, table) && !RefundsAreClean(Play(t, rest))
  {
    hide PlanFor, CanComplete, Play, Throughout;
    forall id | id in t.steps && id.order == order ensures t.steps[id] != Completed {
      assert StepIs(t, id, t.steps[id]);
    }
    var m := DoRefundOrder(t, order, realm);
    rest := Single(t, RefundOrder(order, realm), table, Routine);
    var more, id := DriverGetsDone(m, worker, table);
    Bounds.TerminalStatesAreFinal(m, more, order);
    rest := Continue(t, rest, more, table, Routine);
  }

  lemma HarmfulPutBack(s: State, order: nat, key: string, realm: string, table: StackTable) returns (rest: seq<Action>)
    requires SafetyInv(s) && Resolvable(s, order, key, realm) && !PutBackIsHarmless(s, order, key, table)
    ensures var t := DoResolveStep(s, order, key, realm, RetryStep);
            Throughout(t, rest, Routine) && ExactlyOnce.SameTable(rest, table) && !RefundsAreClean(Play(t, rest))
  {
    hide PlanFor, CanComplete, Play, Throughout, RefundsAreClean;
    var t, own := DoResolveStep(s, order, key, realm, RetryStep), StepId(order, key);
    assert t.workers == s.workers && t.orders == s.orders[order := s.orders[order].(status := Pending)];
    assert t.steps == s.steps[own := Waiting];
    var w :| && w in s.workers && Driving(s.workers[w]) && s.workers[w].order == order
             && !(exists id: StepId :: id.order == order && id.key != key && StepIs(s, id, Completed))
             && CanComplete(s.steps[own := Waiting], s.workers[w], PlanOf(s, order, table));
    assert PassInv(s, s.workers[w]);
    forall id: StepId | id.order == order ensures !StepIs(t, id, Completed) {
      assert id == own || !StepIs(s, id, Completed);
    }
    rest := CompletesBehindRefund(t, order, realm, w, table);
  }

  lemma RoutineIsDisciplined(s: State, run: seq<Action>)
    requires Throughout(s, run, Routine)
    ensures Throughout(s, run, Disciplined)
  {
    ThroughoutImplies(s, run, Routine, Disciplined);
  }

  lemma CleanRows(s: State, table: StackTable)
    requires StuckInv(s, table)
    ensures RefundsAreClean(s)
  {
    forall id | StepIs(s, id, Completed) ensures !Has(s, id.order, Refunded) { assert RowClean(s, id); }
  }

  /** With one live worker per realm: after any disciplined run, a reconciliation
      keeps refunded orders free of completed steps in every disciplined
      continuation if and only if it is not a put-back that leaves a driver of
      the order able to complete a step with none completed. */
  lemma ReconciliationKeepsRefundsCleanIff(run: seq<Action>, a: Action, table: StackTable)
    requires Throughout(EMPTY, run, Disciplined) && a.ResolveStep?
    ensures var s := Play(EMPTY, run);
            (  (forall rest :: Throughout(Next(s, a), rest, Disciplined) && ExactlyOnce.SameTable(rest, table) ==>
                                 RefundsAreClean(Play(Next(s, a), rest)))
             <==> (a.resolution == RetryStep && Resolvable(s, a.order, a.key, a.realm) ==>
                     PutBackIsHarmless(s, a.order, a.key, table)))
  {
    hide Throughout, Play, SafetyInv, RefundInv, StuckInv, PutBackIsHarmless, RefundsAreClean, Disciplined,
        SparesDriven;
    hide ExactlyOnce.SameTable, DoResolveStep;
    var s, t := Play(EMPTY, run), Next(Play(EMPTY, run), a);
    DisciplineSpares(run);
    RefundRun(run);
    var resolved := a.resolution == RetryStep && Resolvable(s, a.order, a.key, a.realm);
    if resolved && !PutBackIsHarmless(s, a.order, a.key, table) {
      var rest := HarmfulPutBack(s, a.order, a.key, a.realm, table);
      RoutineIsDisciplined(t, rest);
    } else {
      Settles(s, a, table);
      forall rest | Throughout(t, rest, Disciplined) && ExactlyOnce.SameTable(rest, table)
          ensures RefundsAreClean(Play(t, rest)) {
        StuckRun(t, rest, table);
        CleanRows(Play(t, rest), table);
      }
    }
  }

  lemma Settles(s: State, a: Action, table: StackTable)
    requires SafetyInv(s) && RefundInv(s) && a.ResolveStep?
    requires a.resolution == RetryStep && Resolvable(s, a.order, a.key, a.realm) ==>
               PutBackIsHarmless(s, a.order, a.key, table)
    ensures SafetyInv(Next(s, a)) && StuckInv(Next(s, a), table)
  {
    hide SafetyInv, RefundInv, StuckInv, PutBackIsHarmless, DoResolveStep;
    ResolveSafe(s, a.order, a.key, a.realm, a.resolution);
    if a.resolution == MarkCompleted {
      RefundInvIsStuckInv(s, table);
      ResolveStuck(s, a.order, a.key, a.realm, a.resolution, table);
    } else if Resolvable(s, a.order, a.key, a.realm) {
      HarmlessPutBack(s, a.order, a.key, a.realm, table);
    } else {
      RefundInvIsStuckInv(s, table);
      Unresolved(s, a);
    }
  }

  lemma Unresolved(s: State, a: Action)
    requires a.ResolveStep? && !Resolvable(s, a.order, a.key, a.realm)
    ensures Next(s, a) == s
  {
  }

  // ------------------------------------------------------------ staff who go by the status

  /** Staff reconcile a step only while its order is not 'delivering'. */
  ghost predicate ResolvesIdleOrders(s: State, a: Action) {
    a.ResolveStep? ==> !Has(s, a.order, Delivering)
  }

  ghost predicate GoesByStatus(s: State, a: Action) {
    Exclusive(s, a) && ResolvesIdleOrders(s, a)
  }

  ghost predicate DrivenReadDelivering(s: State) {
    forall order :: Driven(s, order) ==> Has(s, order, Delivering)
  }

  lemma KeepsReading(s: State, t: State)
    requires DrivenReadDelivering(s) && forall order :: Unaffected(s, t, order)
    requires forall w :: w in t.workers && Driving(t.workers[w]) ==>
               w in s.workers && Driving(s.workers[w]) && s.workers[w].order == t.workers[w].order
    ensures DrivenReadDelivering(t)
  {
    forall order | Driven(t, order) ensures Has(t, order, Delivering) {
      assert Driven(s, order) && Unaffected(s, t, order);
    }
  }

  lemma ServerReads(s: State, worker: nat, realm: string)
    requires DrivenReadDelivering(s)
    ensures DrivenReadDelivering(DoStartServer(s, worker, realm)) && DrivenReadDelivering(DoCrash(s, worker))
  {
    hide Unaffected, DrivenReadDelivering;
    SameOrders(s, DoStartServer(s, worker, realm));
    SameOrders(s, DoCrash(s, worker));
    KeepsReading(s, DoStartServer(s, worker, realm));
    KeepsReading(s, DoCrash(s, worker));
  }

  lemma ResetReads(s: State, worker: nat, db: Db)
    requires SafetyInv(s) && DrivenReadDelivering(s)
    ensures DrivenReadDelivering(DoResetInterrupted(s, worker, db))
  {
    SoleWorkerResetsNothing(s, ResetInterrupted(worker, db));
    hide SafetyInv, Unaffected, DrivenReadDelivering;
    var t := DoResetInterrupted(s, worker, db);
    forall order ensures Unaffected(s, t, order) { ResetUnaffected(s, worker, db, order); }
    KeepsReading(s, t);
  }

  lemma OrdersRead(s: State, a: Action)
    requires DrivenReadDelivering(s) && (a.Purchase? || a.RetryOrder? || a.RefundOrder?)
    ensures DrivenReadDelivering(Next(s, a))
  {
    hide PlanFor, Driven, SomeCompleted, DoExecute, DoLoadPlan, DoResolveStep, DoClaimOrder, DoResetInterrupted;
    var t := Next(s, a);
    assert t.workers == s.workers;
    forall order ensures Driven(t, order) == Driven(s, order) { SameWorkers(s, t, order); }
  }

  lemma SameWorkers(s: State, t: State, order: nat)
    requires t.workers == s.workers
    ensures Driven(t, order) == Driven(s, order)
  {
  }

  lemma ClaimReads(s: State, worker: nat, order: nat, db: Db)
    requires DrivenReadDelivering(s)
    ensures DrivenReadDelivering(DoClaimOrder(s, worker, order, db))
  {
    var t := DoClaimOrder(s, worker, order, db);
    forall o | Driven(t, o) ensures Has(t, o, Delivering) {
      if o != order { assert Driven(s, o); }
    }
  }

  lemma PlanReads(s: State, worker: nat, character: Character, plan: Option<seq<PlanStep>>)
    requires DrivenReadDelivering(s) && At(s, worker, Claimed)
    ensures DrivenReadDelivering(TakePlan(s, worker, character, plan))
  {
    hide DrivenReadDelivering, Unaffected;
    SameOrders(s, TakePlan(s, worker, character, plan));
    KeepsReading(s, TakePlan(s, worker, character, plan));
  }

  lemma ExecuteReads(s: State, worker: nat, statement: Statement)
    requires SafetyInv(s) && DrivenReadDelivering(s)
    ensures DrivenReadDelivering(DoExecute(s, worker, statement))
  {
    hide Effect, Install, PassInv;
    if worker in s.workers {
      var t, u := DoExecute(s, worker, statement), Effect(LocalView(s, worker), statement);
      ExecuteStepped(s, worker, statement);
      EffectRefund(LocalView(s, worker), statement);
      forall o | Driven(t, o) ensures Has(t, o, Delivering) {
        var w :| w in t.workers && Driving(t.workers[w]) && t.workers[w].order == o;
        assert Driven(s, o);
        if w != worker && Driving(s.workers[worker]) && s.workers[worker].order == o { SoleDriver(s, w, worker); }
      }
    }
  }

  lemma ReadsStep(s: State, a: Action)
    requires SafetyInv(s) && DrivenReadDelivering(s) && ResolvesIdleOrders(s, a)
    ensures DrivenReadDelivering(Next(s, a))
  {
    hide DoExecute, DoClaimOrder, DoResetInterrupted, DoStartServer, DoCrash, PlanFor, SafetyInv;
    match a
    case StartServer(worker, realm) => ServerReads(s, worker, realm);
    case Crash(worker) => ServerReads(s, worker, "");
    case ResetInterrupted(worker, db) => ResetReads(s, worker, db);
    case ClaimOrder(worker, order, db) => ClaimReads(s, worker, order, db);
    case LoadPlan(worker, character, table) =>
      if At(s, worker, Claimed) && s.workers[worker].order in s.orders {
        PlanReads(s, worker, character, PlanFor(s.orders[s.workers[worker].order].goods, table));
      }
    case Execute(worker, statement) => ExecuteReads(s, worker, statement);
    case ResolveStep(order, key, realm, resolution) => ResolveReads(s, order, key, realm, resolution);
    case _ => OrdersRead(s, a);
  }

  lemma ResolveReads(s: State, order: nat, key: string, realm: string, resolution: Resolution)
    requires DrivenReadDelivering(s) && !Has(s, order, Delivering)
    ensures DrivenReadDelivering(DoResolveStep(s, order, key, realm, resolution))
  {
    var t := DoResolveStep(s, order, key, realm, resolution);
    assert t.workers == s.workers;
    forall o | Driven(t, o) ensures Has(t, o, Delivering) { assert Driven(s, o); }
  }

  lemma {:induction false} StatusRun(run: seq<Action>)
    requires Throughout(EMPTY, run, GoesByStatus)
    ensures SafetyInv(Play(EMPTY, run)) && DrivenReadDelivering(Play(EMPTY, run))
    ensures Throughout(EMPTY, run, Disciplined)
  {
    hide SafetyInv, DrivenReadDelivering, Next;
    if run == [] {
      NobodyDrives();
    } else {
      var init, last := run[..|run| - 1], run[|run| - 1];
      StatusRun(init);
      SafeStep(Play(EMPTY, init), last);
      ReadsStep(Play(EMPTY, init), last);
      IdleIsUndriven(Play(EMPTY, init), last);
    }
  }

  lemma NobodyDrives()
    ensures SafetyInv(EMPTY) && DrivenReadDelivering(EMPTY)
  {
  }

  lemma IdleIsUndriven(s: State, a: Action)
    requires DrivenReadDelivering(s) && GoesByStatus(s, a)
    ensures Disciplined(s, a)
    ensures a.ResolveStep? ==> !Driven(s, a.order) && !ExactlyOnce.Held(s, StepId(a.order, a.key))
  {
  }

  /** With one live worker per realm, staff who only ever reconcile steps of orders
      that do not read 'delivering' keep the discipline: no live worker drives such
      an order, and no command of it is in flight. */
  lemma IdleOrdersAreUnattended(run: seq<Action>, a: Action)
    requires Throughout(EMPTY, run, GoesByStatus) && GoesByStatus(Play(EMPTY, run), a)
    ensures Throughout(EMPTY, run, Disciplined) && Disciplined(Play(EMPTY, run), a)
    ensures a.ResolveStep? ==> !Driven(Play(EMPTY, run), a.order)
                               && !ExactlyOnce.Held(Play(EMPTY, run), StepId(a.order, a.key))
  {
    StatusRun(run);
    IdleIsUndriven(Play(EMPTY, run), a);
  }
}
