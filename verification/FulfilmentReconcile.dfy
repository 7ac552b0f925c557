/** Which reconciliations are safe: a truthful one keeps what fulfilment
    promises, whatever happens next, exactly when it does not put back a step
    whose command a live worker holds. */
module FulfilmentReconcile {
  import opened Common
  import opened DeliveryPlan
  import opened Fulfilment
  import opened FulfilmentExactlyOnce
  import opened FulfilmentRuns
  import Safety = FulfilmentSafety

  // ------------------------------------------------------------ a second worker starts the step

  /** The realm reports what it did and nothing is reconciled. */
  ghost predicate Proper(s: State, a: Action) {
    HonestRealm(s, a) && !a.ResolveStep?
  }

  lemma ProperRun(s: State, run: seq<Action>)
    requires Throughout(s, run, Proper)
    ensures Throughout(s, run, Faithful) && Throughout(s, run, Careful)
  {
    ThroughoutImplies(s, run, Proper, Faithful);
    ThroughoutImplies(s, run, Proper, Careful);
  }

  lemma {:induction false} Fresh(ids: set<nat>) returns (bound: nat)
    ensures forall id :: id in ids ==> id < bound
  {
    if ids == {} {
      bound := 0;
    } else {
      var id :| id in ids;
      var rest := Fresh(ids - {id});
      bound := if id < rest then rest else id + 1;
      forall other | other in ids ensures other < bound {
        if other != id { assert other in ids - {id}; }
      }
    }
  }

  /** `t` is `s` after statements of `worker` on one step, which turned its view
      into `u`. */
  ghost predicate Ran(s: State, t: State, worker: nat, u: View) {
    && worker in s.workers
    && t.orders == s.orders && t.workers == s.workers[worker := u.w]
    && (var own := CurrentId(s.workers[worker]);
        && RowOf(t, own) == u.row && HistoryOf(t, own) == u.h
        && forall id :: id != own ==> RowOf(t, id) == RowOf(s, id) && HistoryOf(t, id) == HistoryOf(s, id))
  }

  /** Within one step, and with honest replies. */
  ghost predicate Local(v: View, statements: seq<Statement>) {
    && (forall i :: 0 <= i < |statements| ==> !statements[i].FinishOrder? && !statements[i].ReviewOrder?)
    && (forall k :: 0 <= k < |statements| ==> CurrentId(EffectOf(v, statements[..k]).w) == CurrentId(v.w))
    && (forall k :: 0 <= k < |statements| && statements[k].ReceiveReply? ==>
          EffectOf(v, statements[..k]).w.pc == Awaiting(statements[k].ok))
  }

  lemma RowFound(t: State, id: StepId, row: Option<StepStatus>)
    requires forall status :: StepIs(t, id, status) <==> row == Some(status)
    ensures RowOf(t, id) == row
  {
    if id in t.steps { assert StepIs(t, id, t.steps[id]); }
    if row.Some? { assert StepIs(t, id, row.value); }
  }

  lemma RowSame(s: State, t: State, id: StepId)
    requires forall status :: StepIs(t, id, status) == StepIs(s, id, status)
    ensures RowOf(t, id) == RowOf(s, id)
  {
    if id in t.steps { assert StepIs(t, id, t.steps[id]); }
    if id in s.steps { assert StepIs(s, id, s.steps[id]); }
  }

  lemma Locally(s: State, worker: nat, statements: seq<Statement>, table: StackTable) returns (run: seq<Action>)
    requires worker in s.workers && Local(LocalView(s, worker), statements)
    ensures Ran(s, Play(s, run), worker, EffectOf(LocalView(s, worker), statements))
    ensures Throughout(s, run, Calm) && Throughout(s, run, Proper) && SameTable(run, table)
  {
    hide Effect, EffectOf, Play, Next;
    LocalRun(s, worker, statements);
    LocalCalm(s, worker, statements);
    run := By(worker, statements);
    var t, own, u := Play(s, run), CurrentId(s.workers[worker]), EffectOf(LocalView(s, worker), statements);
    RowFound(t, own, u.row);
    forall id | id != own ensures RowOf(t, id) == RowOf(s, id) { RowSame(s, t, id); }
    ThroughoutImplies(s, run, Calm, Proper);
  }

  lemma ClaimsStep(v: View, statements: seq<Statement>)
    requires statements == [InsertStep(Done), SelectStep(true), StartStep(Done)]
    requires v.w.pc == Inserting && v.row != Some(Executing) && v.row != Some(Completed)
    ensures Local(v, statements) && EffectOf(v, statements) == v.(row := Some(Executing), w := v.w.(pc := Sending))
  {
    hide Effect;
    assert statements[..3] == statements;
    EffectOfPrefix(v, statements, 1);
    EffectOfPrefix(v, statements, 2);
    EffectOfPrefix(v, statements, 3);
    ClaimStatements(v);
  }

  lemma PassesStep(v: View, statements: seq<Statement>)
    requires statements == [InsertStep(Done), SelectStep(true)]
    requires v.w.pc == Inserting && v.row == Some(Completed)
    ensures Local(v, statements) && EffectOf(v, statements) == v.(w := NextStep(v.w.(pc := Selecting)))
  {
    SkippedEffect(v, statements);
  }

  /** A worker at the start of a step, everything from there to step `n`
      completed and step `n` free to start. */
  ghost predicate CanReach(s: State, worker: nat, n: nat) {
    && At(s, worker, Inserting)
    && (var w := s.workers[worker];
        && w.at <= n < |w.plan| && DistinctKeys(w.plan)
        && (forall j :: w.at <= j < n ==> StepIs(s, StepId(w.order, w.plan[j].key), Completed))
        && Startable(s, StepId(w.order, w.plan[n].key)))
  }

  /** It is about to send the command of step `n`; nothing else is different. */
  ghost predicate Reached(s: State, t: State, worker: nat, n: nat) {
    && worker in s.workers && n < |s.workers[worker].plan|
    && t.orders == s.orders
    && t.workers == s.workers[worker := s.workers[worker].(pc := Sending, at := n)]
    && (forall id :: HistoryOf(t, id) == HistoryOf(s, id))
    && (var own := StepId(s.workers[worker].order, s.workers[worker].plan[n].key);
        RowOf(t, own) == Some(Executing) && forall id :: id != own ==> RowOf(t, id) == RowOf(s, id))
  }

  lemma {:induction false} ReachStep(s: State, worker: nat, n: nat, table: StackTable) returns (run: seq<Action>)
    requires CanReach(s, worker, n)
    ensures Reached(s, Play(s, run), worker, n)
    ensures Throughout(s, run, Proper) && SameTable(run, table)
    decreases n - s.workers[worker].at
  {
    hide Effect, EffectOf, Play, Next;
    var w, v := s.workers[worker], LocalView(s, worker);
    if w.at == n {
      var statements := [InsertStep(Done), SelectStep(true), StartStep(Done)];
      ClaimsStep(v, statements);
      run := Locally(s, worker, statements, table);
    } else {
      var statements := [InsertStep(Done), SelectStep(true)];
      assert StepIs(s, CurrentId(w), Completed);
      PassesStep(v, statements);
      var first := Locally(s, worker, statements, table);
      var m := Play(s, first);
      forall j | w.at < j <= n
          ensures RowOf(m, StepId(w.order, w.plan[j].key)) == RowOf(s, StepId(w.order, w.plan[j].key)) {}
      var rest := ReachStep(m, worker, n, table);
      run := Continue(s, first, rest, table, Proper);
    }
  }

  /** A pending order whose plan loads, completed up to step `n`, which is free
      to start. */
  ghost predicate Restartable(s: State, order: nat, n: nat, plan: seq<PlanStep>) {
    && Has(s, order, Pending) && n < |plan| && DistinctKeys(plan)
    && (forall j :: 0 <= j < n ==> RowOf(s, StepId(order, plan[j].key)) == Some(Completed))
    && RowOf(s, StepId(order, plan[n].key)) != Some(Executing)
    && RowOf(s, StepId(order, plan[n].key)) != Some(Completed)
  }

  /** `worker` has appeared, claimed the order, and had the command of step `n`
      applied; nothing else is different. */
  ghost predicate SentAfresh(s: State, t: State, worker: nat, order: nat, n: nat, plan: seq<PlanStep>) {
    && order in s.orders && n < |plan|
    && t.orders == s.orders[order := s.orders[order].(status := Delivering)]
    && t.workers == s.workers[worker := Worker(s.orders[order].realm, Awaiting(true), order, plan, n)]
    && (var own := StepId(order, plan[n].key);
        && RowOf(t, own) == Some(Executing)
        && HistoryOf(t, own).applied == HistoryOf(s, own).applied + [plan[n].command]
        && HistoryOf(t, own).denied == HistoryOf(s, own).denied
        && forall id :: id != own ==> RowOf(t, id) == RowOf(s, id))
  }

  lemma Appears(s: State, worker: nat, realm: string, table: StackTable) returns (run: seq<Action>)
    requires worker !in s.workers
    ensures Play(s, run) == s.(workers := s.workers[worker := Worker(realm, Idle, 0, [], 0)])
    ensures Throughout(s, run, Proper) && SameTable(run, table)
  {
    hide PlanFor, Play, Throughout;
    var start, reset := StartServer(worker, realm), ResetInterrupted(worker, Refused);
    var first := Single(s, start, table, Proper);
    var second := Single(Next(s, start), reset, table, Proper);
    run := Continue(s, first, second, table, Proper);
  }

  lemma Sends(s: State, worker: nat, table: StackTable) returns (run: seq<Action>)
    requires At(s, worker, Sending) && s.workers[worker].at < |s.workers[worker].plan|
    ensures var v, w := LocalView(s, worker), s.workers[worker];
            Ran(s, Play(s, run), worker, v.(w := w.(pc := Awaiting(true)),
                                           h := v.h.(runs := v.h.runs + 1,
                                               applied := v.h.applied + [w.plan[w.at].command])))
    ensures Throughout(s, run, Proper) && SameTable(run, table)
  {
    var v, u := LocalView(s, worker), [SendCommand(true)];
    EffectOfPrefix(v, u, 1);
    assert u[..1] == u;
    run := Locally(s, worker, u, table);
  }

  /** A new worker claims the order and loads its plan. */
  lemma TakesOver(s: State, worker: nat, order: nat, table: StackTable) returns (run: seq<Action>)
    requires worker !in s.workers && Has(s, order, Pending) && PlanFor(s.orders[order].goods, table).Some?
    ensures var t, plan := Play(s, run), PlanFor(s.orders[order].goods, table).value;
            && t.orders == s.orders[order := s.orders[order].(status := Delivering)]
            && t.workers == s.workers[worker :=
                Worker(s.orders[order].realm, if plan == [] then Finishing else Inserting, order, plan, 0)]
            && t.steps == s.steps && t.history == s.history
    ensures Throughout(s, run, Proper) && SameTable(run, table)
  {
    hide PlanFor, Play, Next, Throughout;
    run := Appears(s, worker, s.orders[order].realm, table);
    var a := Play(s, run);
    var claim := ClaimAndLoad(a, worker, order, table);
    ThroughoutImplies(a, claim, Calm, Proper);
    run := Continue(s, run, claim, table, Proper);
  }

  lemma StartsAndSends(s: State, worker: nat, order: nat, n: nat, table: StackTable) returns (run: seq<Action>)
    requires worker !in s.workers && order in s.orders && PlanFor(s.orders[order].goods, table).Some?
    requires Restartable(s, order, n, PlanFor(s.orders[order].goods, table).value)
    ensures SentAfresh(s, Play(s, run), worker, order, n, PlanFor(s.orders[order].goods, table).value)
    ensures Throughout(s, run, Proper) && SameTable(run, table)
  {
    hide PlanFor, Play, Next, Throughout;
    var plan := PlanFor(s.orders[order].goods, table).value;
    run := TakesOver(s, worker, order, table);
    var b := Play(s, run);
    assert forall id :: RowOf(b, id) == RowOf(s, id) && HistoryOf(b, id) == HistoryOf(s, id);
    forall j | 0 <= j < n ensures StepIs(b, StepId(order, plan[j].key), Completed) {
      assert RowOf(b, StepId(order, plan[j].key)) == Some(Completed);
    }
    var reach := ReachStep(b, worker, n, table);
    var c := Play(b, reach);
    run := Continue(s, run, reach, table, Proper);
    var send := Sends(c, worker, table);
    run := Continue(s, run, send, table, Proper);
  }

  // ------------------------------------------------------------ putting back a step in command

  /** The step of a worker's command has been put back: its row waits, nothing
      was applied yet, and the order is pending. */
  ghost predicate PutBack(s: State, worker: nat, table: StackTable) {
    && worker in s.workers
    && (var w := s.workers[worker];
        && w.at < |w.plan| && Has(s, w.order, Pending)
        && PlanFor(s.orders[w.order].goods, table) == Some(w.plan) && DistinctKeys(w.plan)
        && (forall j :: 0 <= j < w.at ==> RowOf(s, StepId(w.order, w.plan[j].key)) == Some(Completed))
        && RowOf(s, CurrentId(w)) == Some(Waiting)
        && HistoryOf(s, CurrentId(w)).applied == [] && HistoryOf(s, CurrentId(w)).denied == 0)
  }

  ghost predicate AppliedTwice(s: State, id: StepId) {
    |HistoryOf(s, id).applied| == 2 && HistoryOf(s, id).denied == 0
  }

  lemma LateStatements(v: View, statements: seq<Statement>)
    requires statements == [SendCommand(true), ReceiveReply(true), RecordCompletion(Done)]
    requires v.w.pc == Sending && v.row == Some(Waiting) && v.w.at < |v.w.plan|
    ensures Local(v, statements)
    ensures var u := EffectOf(v, statements);
            && u.w.(pc := v.w.pc, at := v.w.at) == v.w && u.row == Some(Waiting) && u.h.denied == v.h.denied
            && u.h.applied == v.h.applied + [v.w.plan[v.w.at].command]
  {
    assert statements[..3] == statements;
    EffectOfPrefix(v, statements, 1);
    EffectOfPrefix(v, statements, 2);
    EffectOfPrefix(v, statements, 3);
  }

  /** The worker was about to send: its command still goes out, and the row says
      nothing of it. */
  lemma PutBackWhileSending(s: State, worker: nat, table: StackTable) returns (run: seq<Action>)
    requires PutBack(s, worker, table) && s.workers[worker].pc == Sending
    ensures AppliedTwice(Play(s, run), CurrentId(s.workers[worker]))
    ensures Throughout(s, run, Proper) && SameTable(run, table)
  {
    hide PlanFor, Play, Next, Throughout, EffectOf, Effect;
    var w, late := s.workers[worker], [SendCommand(true), ReceiveReply(true), RecordCompletion(Done)];
    LateStatements(LocalView(s, worker), late);
    run := Locally(s, worker, late, table);
    var m := Play(s, run);
    var spare := Fresh(m.workers.Keys);
    var again := StartsAndSends(m, spare, w.order, w.at, table);
    run := Continue(s, run, again, table, Proper);
  }

  lemma FaultStatements(v: View) returns (statements: seq<Statement>)
    requires (v.w.pc == Awaiting(false) || v.w.pc == Failing(false)) && v.row == Some(Executing)
    ensures Local(v, statements)
    ensures var u := EffectOf(v, statements);
            && u.w == v.w.(pc := Reviewing) && u.row == Some(Faulted)
            && u.h.denied == v.h.denied && u.h.applied == v.h.applied
  {
    statements := if v.w.pc == Failing(false) then [RecordFault(Done)] else [ReceiveReply(false), RecordFault(Done)];
    assert statements[..|statements|] == statements;
    EffectOfPrefix(v, statements, 1);
    if |statements| == 2 { EffectOfPrefix(v, statements, 2); }
  }

  /** The worker gives the order up, and staff queue it again. */
  lemma Requeues(s: State, worker: nat, table: StackTable) returns (run: seq<Action>)
    requires At(s, worker, Reviewing) && Has(s, s.workers[worker].order, Delivering)
    ensures var t, order := Play(s, run), s.workers[worker].order;
            && t.orders == s.orders[order := s.orders[order].(status := Pending)]
            && t.steps == s.steps && (forall id :: HistoryOf(t, id) == HistoryOf(s, id))
    ensures Throughout(s, run, Proper) && SameTable(run, table)
  {
    hide Play, Throughout;
    var order := s.workers[worker].order;
    var review, retry := Execute(worker, ReviewOrder(Done)), RetryOrder(order, s.orders[order].realm);
    ReviewReviews(s, worker);
    var first := Single(s, review, table, Proper);
    var second := Single(Next(s, review), retry, table, Proper);
    run := Continue(s, first, second, table, Proper);
  }

  lemma ReviewReviews(s: State, worker: nat)
    requires At(s, worker, Reviewing) && Has(s, s.workers[worker].order, Delivering)
    ensures var t, order := Next(s, Execute(worker, ReviewOrder(Done))), s.workers[worker].order;
            && t.orders == s.orders[order := s.orders[order].(status := Review)]
            && t.steps == s.steps && (forall id :: HistoryOf(t, id) == HistoryOf(s, id))
  {
    var u := Effect(LocalView(s, worker), ReviewOrder(Done));
    InstallRows(s, worker, u);
    InstallOwnHistory(s, worker, u);
  }

  /** The worker's command failed: a second worker starts the step before the
      fault is recorded, and the record of the fault then frees the step the
      second worker holds. */
  lemma PutBackBeforeTheFault(s: State, worker: nat, table: StackTable) returns (run: seq<Action>)
    requires PutBack(s, worker, table)
    requires s.workers[worker].pc == Awaiting(false) || s.workers[worker].pc == Failing(false)
    ensures AppliedTwice(Play(s, run), CurrentId(s.workers[worker]))
    ensures Throughout(s, run, Proper) && SameTable(run, table)
  {
    hide PlanFor, Play, Next, Throughout, EffectOf, Effect;
    var w := s.workers[worker];
    var second := Fresh(s.workers.Keys);
    run := StartsAndSends(s, second, w.order, w.at, table);
    var b := Play(s, run);
    var statements := FaultStatements(LocalView(b, worker));
    var fault := Locally(b, worker, statements, table);
    var c := Play(b, fault);
    run := Continue(s, run, fault, table, Proper);
    var requeue := Requeues(c, worker, table);
    var d := Play(c, requeue);
    run := Continue(s, run, requeue, table, Proper);
    forall id ensures RowOf(d, id) == RowOf(c, id) {}
    var third := Fresh(d.workers.Keys);
    var again := StartsAndSends(d, third, w.order, w.at, table);
    run := Continue(s, run, again, table, Proper);
  }

  lemma PutBackInCommand(s: State, worker: nat, table: StackTable) returns (run: seq<Action>)
    requires PutBack(s, worker, table)
    requires var pc := s.workers[worker].pc; pc == Sending || pc == Awaiting(false) || pc == Failing(false)
    ensures AppliedTwice(Play(s, run), CurrentId(s.workers[worker]))
    ensures Throughout(s, run, Proper) && SameTable(run, table)
  {
    if s.workers[worker].pc == Sending {
      run := PutBackWhileSending(s, worker, table);
    } else {
      run := PutBackBeforeTheFault(s, worker, table);
    }
  }

  // ------------------------------------------------------------ the exact condition

  /** No command was applied more often than the records account for. */
  ghost predicate AsRecorded(s: State, table: StackTable) {
    && (forall id :: |HistoryOf(s, id).applied| <= 1 + HistoryOf(s, id).denied)
    && forall order :: Has(s, order, Delivered) ==>
         PlanFor(s.orders[order].goods, table).Some?
         && AppliedAsRecorded(s, order, PlanFor(s.orders[order].goods, table).value)
  }

  /** No command was applied twice, and those of a delivered order exactly once. */
  ghost predicate ExactlyOnce(s: State, table: StackTable) {
    && (forall id :: |HistoryOf(s, id).applied| <= 1)
    && forall order :: Has(s, order, Delivered) ==>
         PlanFor(s.orders[order].goods, table).Some?
         && AppliedExactly(s, order, PlanFor(s.orders[order].goods, table).value)
  }

  lemma CarefulRunsAreAsRecorded(run: seq<Action>, table: StackTable)
    requires Throughout(EMPTY, run, Careful) && SameTable(run, table)
    ensures AsRecorded(Play(EMPTY, run), table)
  {
    hide Throughout, Play, Careful, PlanFor;
    var s := Play(EMPTY, run);
    OnceRun(run, table, PlansOf(s, table));
    forall id ensures |HistoryOf(s, id).applied| <= 1 + HistoryOf(s, id).denied {
      assert RowInv(s, id, PlansOf(s, table));
    }
    forall order | Has(s, order, Delivered)
      ensures PlanFor(s.orders[order].goods, table).Some?
              && AppliedAsRecorded(s, order, PlanFor(s.orders[order].goods, table).value)
    {
      DeliveredOncePlusDenied(run, table, order);
    }
  }

  lemma FaithfulRunsAreExact(run: seq<Action>, table: StackTable)
    requires Throughout(EMPTY, run, Faithful) && SameTable(run, table)
    ensures ExactlyOnce(Play(EMPTY, run), table)
  {
    hide Throughout, Play, Careful, Faithful, PlanFor;
    var s := Play(EMPTY, run);
    FaithfulRunIsCareful(run, table);
    CarefulRunsAreAsRecorded(run, table);
    forall id ensures |HistoryOf(s, id).applied| <= 1 { assert HistoryOf(s, id).denied == 0; }
    forall order | Has(s, order, Delivered)
      ensures PlanFor(s.orders[order].goods, table).Some?
              && AppliedExactly(s, order, PlanFor(s.orders[order].goods, table).value)
    {
      DeliveredExactlyOnce(run, table, order);
    }
  }

  /** What the invariant says of a worker that holds a command. */
  ghost predicate Holds(s: State, worker: nat, id: StepId, plans: Plans) {
    && worker in s.workers && InCommand(s.workers[worker]) && CurrentId(s.workers[worker]) == id
    && (var w := s.workers[worker];
        && w.at < |w.plan| && plans(w.order) == Some(w.plan)
        && HoldsRow(w.pc, RowOf(s, id), HistoryOf(s, id)) && Accounted(RowOf(s, id), HistoryOf(s, id))
        && forall j :: 0 <= j < w.at ==> RowOf(s, StepId(w.order, w.plan[j].key)) == Some(Completed))
  }

  lemma HolderHolds(s: State, worker: nat, id: StepId, plans: Plans)
    requires OnceInv(s, plans)
    requires worker in s.workers && InCommand(s.workers[worker]) && CurrentId(s.workers[worker]) == id
    ensures Holds(s, worker, id, plans)
  {
    hide Accounted, HoldsRow;
    var w := s.workers[worker];
    assert WorkerInv(s, w, plans) && RowInv(s, id, plans);
    forall j | 0 <= j < w.at ensures RowOf(s, StepId(w.order, w.plan[j].key)) == Some(Completed) {
      assert StepIs(s, StepId(w.order, w.plan[j].key), Completed);
    }
  }

  lemma PutsBack(s: State, order: nat, key: string, realm: string, worker: nat, table: StackTable)
    requires Resolvable(s, order, key, realm) && HistoryOf(s, StepId(order, key)).applied == []
    requires Holds(s, worker, StepId(order, key), PlansOf(s, table))
    ensures var t := DoResolveStep(s, order, key, realm, RetryStep);
            && PutBack(t, worker, table) && CurrentId(t.workers[worker]) == StepId(order, key)
            && (var pc := t.workers[worker].pc; pc == Sending || pc == Awaiting(false) || pc == Failing(false))
  {
    hide PlanFor, DoResolveStep, HoldsRow, Accounted, DistinctKeys;
    var w, id := s.workers[worker], StepId(order, key);
    var t := DoResolveStep(s, order, key, realm, RetryStep);
    ResolveRows(s, order, key, realm, RetryStep);
    PlanKeysDistinct(s.orders[order].goods, table);
    NothingAppliedYet(w, RowOf(s, id), HistoryOf(s, id));
    forall j | 0 <= j < w.at ensures RowOf(t, StepId(order, w.plan[j].key)) == Some(Completed) {
      KeysDiffer(w.plan, j, w.at);
    }
  }

  lemma KeysDiffer(plan: seq<PlanStep>, j: nat, n: nat)
    requires DistinctKeys(plan) && j < n < |plan|
    ensures plan[j].key != plan[n].key
  {
  }

  lemma NothingAppliedYet(w: Worker, row: Option<StepStatus>, h: History)
    requires InCommand(w) && HoldsRow(w.pc, row, h) && Accounted(row, h) && h.applied == []
    ensures h.denied == 0 && (w.pc == Sending || w.pc == Awaiting(false) || w.pc == Failing(false))
  {
  }

  /** A truthful reconciliation that puts back a held step leaves its worker
      behind with a command the realm has not applied yet, or will not. */
  lemma HeldRetryIsPutBack(run: seq<Action>, a: Action, table: StackTable) returns (worker: nat)
    requires Throughout(EMPTY, run, Careful) && SameTable(run, table)
    requires var s := Play(EMPTY, run);
             a.ResolveStep? && TruthfulStaff(s, a) && Resolvable(s, a.order, a.key, a.realm) && !UnattendedRetry(s, a)
    ensures var t := Next(Play(EMPTY, run), a);
            && PutBack(t, worker, table) && CurrentId(t.workers[worker]) == StepId(a.order, a.key)
            && (var pc := t.workers[worker].pc; pc == Sending || pc == Awaiting(false) || pc == Failing(false))
  {
    hide Throughout, Play, PlanFor, PutBack, OnceInv, Holds, DoResolveStep;
    var s, id := Play(EMPTY, run), StepId(a.order, a.key);
    OnceRun(run, table, PlansOf(s, table));
    worker :| worker in s.workers && InCommand(s.workers[worker]) && CurrentId(s.workers[worker]) == id;
    HolderHolds(s, worker, id, PlansOf(s, table));
    PutsBack(s, a.order, a.key, a.realm, worker, table);
  }

  /** The run, the reconciliation and what comes after it, as one run. */
  lemma OneRun(run: seq<Action>, a: Action, rest: seq<Action>, table: StackTable, ok: (State, Action) -> bool)
      returns (all: seq<Action>)
    requires Throughout(EMPTY, run, ok) && SameTable(run, table) && a.ResolveStep?
    requires var t := Next(Play(EMPTY, run), a); Throughout(t, rest, ok) && SameTable(rest, table)
    requires ok(Play(EMPTY, run), a) || Next(Play(EMPTY, run), a) == Play(EMPTY, run)
    ensures Throughout(EMPTY, all, ok) && SameTable(all, table)
    ensures Play(EMPTY, all) == Play(Next(Play(EMPTY, run), a), rest)
  {
    hide Play, Throughout, Next;
    var s := Play(EMPTY, run);
    if ok(s, a) {
      PlayOne(s, a);
      ThroughoutOne(s, a, ok);
      PlayConcat(EMPTY, run, [a]);
      ThroughoutConcat(EMPTY, run, [a], ok);
      PlayConcat(EMPTY, run + [a], rest);
      ThroughoutConcat(EMPTY, run + [a], rest, ok);
      all := run + [a] + rest;
    } else {
      PlayConcat(EMPTY, run, rest);
      ThroughoutConcat(EMPTY, run, rest, ok);
      all := run + rest;
    }
  }

  /** With an honest realm: a truthful reconciliation keeps exactly-once in every
      faithful continuation if and only if it does not put back a step whose
      command a live worker holds. */
  lemma ReconciliationKeepsExactlyOnceIff(run: seq<Action>, a: Action, table: StackTable)
    requires Throughout(EMPTY, run, Faithful) && SameTable(run, table)
    requires a.ResolveStep? && TruthfulStaff(Play(EMPTY, run), a)
    ensures var s := Play(EMPTY, run);
            (  (forall rest :: Throughout(Next(s, a), rest, Faithful) && SameTable(rest, table) ==>
                                 ExactlyOnce(Play(Next(s, a), rest), table))
             <==> (Resolvable(s, a.order, a.key, a.realm) ==> UnattendedRetry(s, a)))
  {
    hide Throughout, Play, ExactlyOnce, AppliedTwice, PutBack, SameTable, DoResolveStep;
    var s := Play(EMPTY, run);
    if Resolvable(s, a.order, a.key, a.realm) && !UnattendedRetry(s, a) {
      FaithfulRunIsCareful(run, table);
      var worker := HeldRetryIsPutBack(run, a, table);
      var rest := PutBackInCommand(Next(s, a), worker, table);
      ProperRun(Next(s, a), rest);
      TwiceIsNotOnce(Play(Next(s, a), rest), StepId(a.order, a.key), table);
    } else {
      assert HonestRealm(s, a);
      NotResolvable(s, a);
      forall rest | Throughout(Next(s, a), rest, Faithful) && SameTable(rest, table)
        ensures ExactlyOnce(Play(Next(s, a), rest), table)
      {
        var all := OneRun(run, a, rest, table, Faithful);
        FaithfulRunsAreExact(all, table);
      }
    }
  }

  lemma NotResolvable(s: State, a: Action)
    requires a.ResolveStep?
    ensures !Resolvable(s, a.order, a.key, a.realm) ==> Next(s, a) == s
  {
  }

  lemma TwiceIsNotOnce(t: State, id: StepId, table: StackTable)
    requires AppliedTwice(t, id)
    ensures !ExactlyOnce(t, table) && !AsRecorded(t, table)
  {
  }

  /** When replies can be lost: a truthful reconciliation keeps every account of
      applied commands right in every careful continuation if and only if it
      neither puts back a step whose command a live worker holds nor reconciles
      one a live worker has yet to send. */
  lemma ReconciliationKeepsTheRecordIff(run: seq<Action>, a: Action, table: StackTable)
    requires Throughout(EMPTY, run, Careful) && SameTable(run, table)
    requires a.ResolveStep? && TruthfulStaff(Play(EMPTY, run), a)
    ensures var s := Play(EMPTY, run);
            (  (forall rest :: Throughout(Next(s, a), rest, Careful) && SameTable(rest, table) ==>
                                 AsRecorded(Play(Next(s, a), rest), table))
             <==> (Resolvable(s, a.order, a.key, a.realm) ==> UnattendedRetry(s, a) && NotAboutToBeSent(s, a)))
  {
    hide Throughout, Play, AsRecorded, AppliedTwice, PutBack, SameTable, DoResolveStep, Careful;
    var s := Play(EMPTY, run);
    if Resolvable(s, a.order, a.key, a.realm) && !UnattendedRetry(s, a) {
      var worker := HeldRetryIsPutBack(run, a, table);
      var rest := PutBackInCommand(Next(s, a), worker, table);
      ProperRun(Next(s, a), rest);
      TwiceIsNotOnce(Play(Next(s, a), rest), StepId(a.order, a.key), table);
    } else if Resolvable(s, a.order, a.key, a.realm) && !NotAboutToBeSent(s, a) {
      var rest := SentAfterMarked(run, a, table);
      ProperRun(Next(s, a), rest);
    } else {
      UnheldIsCareful(s, a);
      NotResolvable(s, a);
      forall rest | Throughout(Next(s, a), rest, Careful) && SameTable(rest, table)
        ensures AsRecorded(Play(Next(s, a), rest), table)
      {
        var all := OneRun(run, a, rest, table, Careful);
        CarefulRunsAreAsRecorded(all, table);
      }
    }
  }

  lemma UnheldIsCareful(s: State, a: Action)
    requires a.ResolveStep? && TruthfulStaff(s, a)
    ensures UnattendedRetry(s, a) && NotAboutToBeSent(s, a) ==> Careful(s, a)
  {
  }

  /** Marked completed on the strength of an application on record as a fault,
      the command that is about to go out is applied all the same. */
  lemma SentAfterMarked(run: seq<Action>, a: Action, table: StackTable) returns (rest: seq<Action>)
    requires Throughout(EMPTY, run, Careful) && SameTable(run, table)
    requires var s := Play(EMPTY, run);
             && a.ResolveStep? && TruthfulStaff(s, a) && Resolvable(s, a.order, a.key, a.realm)
             && UnattendedRetry(s, a) && !NotAboutToBeSent(s, a)
    ensures var t := Next(Play(EMPTY, run), a);
            Throughout(t, rest, Proper) && SameTable(rest, table) && !AsRecorded(Play(t, rest), table)
  {
    hide Throughout, Play, PlanFor, OnceInv, Holds, DoResolveStep;
    var s, id := Play(EMPTY, run), StepId(a.order, a.key);
    OnceRun(run, table, PlansOf(s, table));
    var worker :| worker in s.workers && s.workers[worker].pc == Sending && CurrentId(s.workers[worker]) == id;
    assert InCommand(s.workers[worker]) && Held(s, id);
    HolderHolds(s, worker, id, PlansOf(s, table));
    rest := MarkedAndSent(s, a.order, a.key, a.realm, worker, table);
  }

  lemma MarkedAndSent(s: State, order: nat, key: string, realm: string, worker: nat, table: StackTable)
      returns (rest: seq<Action>)
    requires Resolvable(s, order, key, realm) && HistoryOf(s, StepId(order, key)).applied != []
    requires Holds(s, worker, StepId(order, key), PlansOf(s, table)) && s.workers[worker].pc == Sending
    ensures var t := DoResolveStep(s, order, key, realm, MarkCompleted);
            Throughout(t, rest, Proper) && SameTable(rest, table) && !AsRecorded(Play(t, rest), table)
  {
    hide Throughout, Play, PlanFor, Effect, DoResolveStep;
    var id := StepId(order, key);
    ResolveRows(s, order, key, realm, MarkCompleted);
    var t := DoResolveStep(s, order, key, realm, MarkCompleted);
    rest := Sends(t, worker, table);
    assert |HistoryOf(Play(t, rest), id).applied| > 1 + HistoryOf(Play(t, rest), id).denied;
  }
}
