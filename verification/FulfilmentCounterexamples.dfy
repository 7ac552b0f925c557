/** Runs that show what the code does when a hypothesis of the safety theorems
    is dropped, each with everything else holding throughout. */
module FulfilmentCounterexamples {
  import opened Common
  import opened DeliveryPlan
  import opened Fulfilment
  import opened FulfilmentExactlyOnce
  import opened FulfilmentRuns
  import opened FulfilmentReconcile
  import Safety = FulfilmentSafety

  /** The realm reports what it did, one server of a realm is alive at a time,
      and nothing is reconciled: more than the safety theorems ask for. */
  ghost predicate Still(s: State, a: Action) {
    HonestRealm(s, a) && Safety.Exclusive(s, a) && !a.ResolveStep?
  }

  lemma StillIsEnough(s: State, run: seq<Action>)
    requires Throughout(s, run, Still)
    ensures Throughout(s, run, Faithful) && Throughout(s, run, Safety.Disciplined)
  {
    ThroughoutImplies(s, run, Still, Faithful);
    ThroughoutImplies(s, run, Still, Safety.Disciplined);
  }

  /** An error may follow an applied command, and nothing else is amiss: one
      server of a realm alive at a time, none of them dies, and nothing is
      reconciled. */
  ghost predicate Lossy(s: State, a: Action) {
    NoFalseSuccess(s, a) && Safety.Exclusive(s, a) && !a.ResolveStep? && !a.Crash?
  }

  // ------------------------------------------------------------ reaching the starting points

  /** One pending order and a server that has just started. */
  function Opened(goods: Goods): State {
    State(map[1 := Order("realm", 10, goods, Pending)], map[], map[0 := Worker("realm", Idle, 0, [], 0)],
        map[], map[], map[])
  }

  lemma {:induction false} Opening(goods: Goods, table: StackTable, ok: (State, Action) -> bool)
     returns (run: seq<Action>)
    requires forall s, a :: HonestRealm(s, a) && Safety.Exclusive(s, a) && !a.ResolveStep? && !a.Crash? ==> ok(s, a)
    ensures Play(EMPTY, run) == Opened(goods)
    ensures Throughout(EMPTY, run, ok) && SameTable(run, table)
  {
    hide PlanFor, Play, DoExecute, DoLoadPlan, DoResolveStep, DoRefundOrder, DoRetryOrder, DoClaimOrder, Throughout;
    var buy, start, reset := Purchase(1, "realm", 10, goods), StartServer(0, "realm"), ResetInterrupted(0, Refused);
    run := Single(EMPTY, buy, table, ok);
    var a := Next(EMPTY, buy);
    assert Safety.Exclusive(a, start);
    var second := Single(a, start, table, ok);
    run := Continue(EMPTY, run, second, table, ok);
    var third := Single(Next(a, start), reset, table, ok);
    run := Continue(EMPTY, run, third, table, ok);
  }

  lemma {:induction false} CalmIs(s: State, run: seq<Action>, ok: (State, Action) -> bool)
    requires forall s, a :: HonestRealm(s, a) && Safety.Exclusive(s, a) && !a.ResolveStep? && !a.Crash? ==> ok(s, a)
    requires Throughout(s, run, Calm)
    ensures Throughout(s, run, ok)
  {
    ThroughoutImplies(s, run, Calm, ok);
  }

  /** Order 1 claimed and loaded by worker 0, nothing else having happened. */
  ghost predicate JustLoaded(s: State, goods: Goods, plan: seq<PlanStep>) {
    && s.workers == map[0 := Worker("realm", Inserting, 1, plan, 0)]
    && s.orders == map[1 := Order("realm", 10, goods, Delivering)]
    && s.steps == map[] && s.history == map[]
  }

  lemma {:induction false} Loading(goods: Goods, table: StackTable, ok: (State, Action) -> bool)
     returns (run: seq<Action>)
    requires forall s, a :: HonestRealm(s, a) && Safety.Exclusive(s, a) && !a.ResolveStep? && !a.Crash? ==> ok(s, a)
    requires PlanFor(goods, table).Some? && PlanFor(goods, table).value != []
    ensures JustLoaded(Play(EMPTY, run), goods, PlanFor(goods, table).value)
    ensures Throughout(EMPTY, run, ok) && SameTable(run, table)
  {
    hide PlanFor, Play, Next, Throughout;
    run := Opening(goods, table, ok);
    var s := Play(EMPTY, run);
    var load := ClaimAndLoad(s, 0, 1, table);
    CalmIs(s, load, ok);
    run := Continue(EMPTY, run, load, table, ok);
  }

  /** A worker about to send the command of a step, the only worker of its realm
      in an undisturbed pass. */
  ghost predicate AboutToSend(s: State, worker: nat, table: StackTable) {
    && At(s, worker, Sending) && Safety.OneWorker(s)
    && (var w := s.workers[worker];
        && w.at < |w.plan|
        && InRealm(s, w.order, w.realm) && Has(s, w.order, Delivering)
        && PlanFor(s.orders[w.order].goods, table) == Some(w.plan)
        && RowOf(s, CurrentId(w)) == Some(Executing) && HistoryOf(s, CurrentId(w)).applied == []
        && forall j :: 0 <= j < |w.plan| && j != w.at ==> RowOf(s, StepId(w.order, w.plan[j].key)) != Some(Executing))
  }

  ghost predicate NothingCompleted(s: State, order: nat) {
    forall id :: id in s.steps && id.order == order ==> s.steps[id] != Completed
  }

  lemma {:induction false} SendingIsReachable(goods: Goods, table: StackTable, ok: (State, Action) -> bool)
     returns (run: seq<Action>)
    requires forall s, a :: HonestRealm(s, a) && Safety.Exclusive(s, a) && !a.ResolveStep? && !a.Crash? ==> ok(s, a)
    requires PlanFor(goods, table).Some? && PlanFor(goods, table).value != []
    ensures Throughout(EMPTY, run, ok) && SameTable(run, table)
    ensures var s := Play(EMPTY, run);
            && AboutToSend(s, 0, table) && s.workers.Keys == {0} && NothingCompleted(s, 1)
            && s.workers[0] == Worker("realm", Sending, 1, PlanFor(goods, table).value, 0)
            && HistoryOf(s, CurrentId(s.workers[0])).denied == 0
  {
    hide PlanFor, Play, EffectOf, Effect, Next, Throughout;
    run := Loading(goods, table, ok);
    var s, claim := Play(EMPTY, run), [InsertStep(Done), SelectStep(true), StartStep(Done)];
    ClaimsStep(LocalView(s, 0), claim);
    var more := Locally(s, 0, claim, table);
    CalmIs(s, more, ok);
    run := Continue(EMPTY, run, more, table, ok);
    PlanKeysDistinct(goods, table);
    var t, id := Play(EMPTY, run), CurrentId(s.workers[0]);
    forall other | other != id ensures RowOf(t, other) == None { assert RowOf(s, other) == None; }
    forall other | other in t.steps ensures other == id { assert RowOf(t, other).Some?; }
  }

  // ------------------------------------------------------------ reconciling a step in flight

  /** The worker dies and another one takes its place. */
  lemma {:induction false} Replaced(s: State, worker: nat, spare: nat, db: Db, table: StackTable)
     returns (run: seq<Action>)
    requires worker in s.workers && Safety.OneWorker(s) && spare !in s.workers
    ensures Play(s, run)
        == DoResetInterrupted(DoStartServer(DoCrash(s, worker), spare, s.workers[worker].realm), spare, db)
    ensures Throughout(s, run, Still) && SameTable(run, table)
  {
    hide PlanFor, Play, DoExecute, Throughout;
    var crash, start, reset := Crash(worker), StartServer(spare, s.workers[worker].realm), ResetInterrupted(spare, db);
    run := Single(s, crash, table, Still);
    var n := Next(s, crash);
    assert Safety.Exclusive(n, start);
    var second := Single(n, start, table, Still);
    run := Continue(s, run, second, table, Still);
    var third := Single(Next(n, start), reset, table, Still);
    run := Continue(s, run, third, table, Still);
  }

  /** After staff have put the step back, its command still goes out, and the
      worker dies. */
  lemma {:induction false} SentLate(t: State, worker: nat, spare: nat, table: StackTable) returns (run: seq<Action>)
    requires At(t, worker, Sending) && Safety.OneWorker(t) && spare !in t.workers
    requires t.workers[worker].at < |t.workers[worker].plan|
    requires RowOf(t, CurrentId(t.workers[worker])) == Some(Waiting)
    ensures Throughout(t, run, Still) && SameTable(run, table)
    ensures var w, u := t.workers[worker], Play(t, run);
            && u.orders == t.orders && At(u, spare, Idle) && u.workers[spare].realm == w.realm
            && RowOf(u, CurrentId(w)) == Some(Waiting)
            && HistoryOf(u, CurrentId(w)).applied == HistoryOf(t, CurrentId(w)).applied + [w.plan[w.at].command]
            && forall id :: id != CurrentId(w) ==> RowOf(u, id) == RowOf(t, id)
  {
    hide PlanFor, Play, Next, Throughout, EffectOf, Effect;
    var late := [SendCommand(true), ReceiveReply(true), RecordCompletion(Done)];
    LateStatements(LocalView(t, worker), late);
    run := Locally(t, worker, late, table);
    CalmIs(t, run, Still);
    var m := Play(t, run);
    var dies := Replaced(m, worker, spare, Refused, table);
    run := Continue(t, run, dies, table, Still);
    var u := Play(t, run);
    forall id ensures RowOf(u, id) == RowOf(m, id) && HistoryOf(u, id) == HistoryOf(m, id) {}
  }

  /** Reconciliation does not look at the step's own status, so it can land on
      a step a worker is about to send. For every order and every step of its
      plan this can end in a delivered order whose command was applied twice,
      although staff told the truth, and afterwards the realm did, one worker
      was alive at a time and nothing more was reconciled. */
  lemma {:induction false} RetryInFlightCanApplyTwice(s: State, worker: nat, spare: nat, table: StackTable)
      returns (retry: Action, rest: seq<Action>)
    requires AboutToSend(s, worker, table) && spare !in s.workers
    ensures retry.ResolveStep? && TruthfulStaff(s, retry) && !UnattendedRetry(s, retry)
    ensures Throughout(Next(s, retry), rest, Still) && SameTable(rest, table)
    ensures var w, t := s.workers[worker], Play(Next(s, retry), rest);
            && Has(t, w.order, Delivered)
            && HistoryOf(t, CurrentId(w)).applied == [w.plan[w.at].command, w.plan[w.at].command]
  {
    hide PlanFor, Play, Throughout, DoResolveStep;
    var w := s.workers[worker];
    var id := CurrentId(w);
    retry := ResolveStep(w.order, CurrentKey(w), w.realm, RetryStep);
    assert Held(s, id);
    ResolveRows(s, w.order, CurrentKey(w), w.realm, RetryStep);
    var t := Next(s, retry);
    rest := SentLate(t, worker, spare, table);
    var n := Play(t, rest);
    forall j | 0 <= j < |w.plan| ensures !StepIs(n, StepId(w.order, w.plan[j].key), Executing) {
      assert RowOf(n, StepId(w.order, w.plan[j].key)) != Some(Executing);
    }
    var deliver := PendingOrderCanBeDelivered(n, spare, w.order, table);
    CalmIs(n, deliver, Still);
    rest := Continue(t, rest, deliver, table, Still);
    assert Carried(n, Play(t, rest), w.order, w.plan[w.at]);
  }

  /** So, for every order with something to deliver, a run from the empty portal
      in which only one reconciliation is out of place ends with the order
      delivered and its first command applied twice. */
  lemma {:induction false} AppliedTwiceIsReachable(goods: Goods, table: StackTable)
    returns (before: seq<Action>, retry: Action, rest: seq<Action>)
    requires PlanFor(goods, table).Some? && PlanFor(goods, table).value != []
    ensures Throughout(EMPTY, before, Still) && SameTable(before, table)
    ensures var s := Play(EMPTY, before);
            && retry.ResolveStep? && TruthfulStaff(s, retry) && !UnattendedRetry(s, retry)
            && Throughout(Next(s, retry), rest, Still) && SameTable(rest, table)
    ensures var t := Play(EMPTY, before + [retry] + rest);
            var first := PlanFor(goods, table).value[0];
            Has(t, 1, Delivered) && HistoryOf(t, StepId(1, first.key)).applied == [first.command, first.command]
  {
    hide PlanFor, Play, Throughout, Next;
    before := SendingIsReachable(goods, table, Still);
    var s := Play(EMPTY, before);
    retry, rest := RetryInFlightCanApplyTwice(s, 0, 1, table);
    PlayConcat(EMPTY, before + [retry], rest);
    PlayConcat(EMPTY, before, [retry]);
    PlayOne(s, retry);
  }

  // ------------------------------------------------------------ a lost reply

  lemma LostReplyStatements(v: View, statements: seq<Statement>)
    requires statements == [SendCommand(true), ReceiveReply(false), RecordFault(Done)]
    requires v.w.pc == Sending && v.row == Some(Executing) && v.w.at < |v.w.plan|
    ensures forall k :: 0 <= k < 3 ==> CurrentId(EffectOf(v, statements[..k]).w) == CurrentId(v.w)
    ensures var u := EffectOf(v, statements);
            && u.w == v.w.(pc := Reviewing) && u.row == Some(Faulted)
            && u.h.denied == v.h.denied + 1
            && u.h.applied == v.h.applied + [v.w.plan[v.w.at].command]
  {
    assert statements[..3] == statements;
    EffectOfPrefix(v, statements, 1);
    EffectOfPrefix(v, statements, 2);
    EffectOfPrefix(v, statements, 3);
  }

  lemma ExecutesAreLossy(s: State, run: seq<Action>, table: StackTable)
    requires forall i :: 0 <= i < |run| ==> run[i].Execute? && (run[i].statement.ReceiveReply? ==> !run[i].statement.ok)
    ensures Throughout(s, run, Lossy) && SameTable(run, table)
  {
    if run != [] { ExecutesAreLossy(s, run[..|run| - 1], table); }
  }

  /** The realm applies the command, but its reply is lost; the worker records a
      fault and gives the order up. */
  lemma {:induction false} ReplyIsLost(s: State, worker: nat, table: StackTable) returns (run: seq<Action>)
    requires AboutToSend(s, worker, table)
    ensures Throughout(s, run, Lossy) && SameTable(run, table)
    ensures var w, t := s.workers[worker], Play(s, run);
            && t.orders == s.orders && t.workers == s.workers[worker := w.(pc := Reviewing)]
            && RowOf(t, CurrentId(w)) == Some(Faulted)
            && HistoryOf(t, CurrentId(w)).applied == [w.plan[w.at].command]
            && HistoryOf(t, CurrentId(w)).denied == HistoryOf(s, CurrentId(w)).denied + 1
            && forall id :: id != CurrentId(w) ==> RowOf(t, id) == RowOf(s, id)
  {
    hide PlanFor, Play, Next, Throughout, EffectOf, Effect;
    var lost := [SendCommand(true), ReceiveReply(false), RecordFault(Done)];
    LostReplyStatements(LocalView(s, worker), lost);
    LocalRun(s, worker, lost);
    run := By(worker, lost);
    ExecutesAreLossy(s, run, table);
    var t, w := Play(s, run), s.workers[worker];
    RowFound(t, CurrentId(w), Some(Faulted));
    forall id | id != CurrentId(w) ensures RowOf(t, id) == RowOf(s, id) { RowSame(s, t, id); }
  }

  lemma {:induction false} GivenUp(t: State, worker: nat, table: StackTable) returns (run: seq<Action>)
    requires At(t, worker, Reviewing) && Has(t, t.workers[worker].order, Delivering)
    requires InRealm(t, t.workers[worker].order, t.workers[worker].realm)
    ensures Throughout(t, run, Lossy) && SameTable(run, table)
    ensures var order, u := t.workers[worker].order, Play(t, run);
            && u.orders == t.orders[order := t.orders[order].(status := Pending)]
            && At(u, worker, Idle) && u.workers[worker].realm == t.workers[worker].realm
            && u.steps == t.steps && forall id :: HistoryOf(u, id) == HistoryOf(t, id)
  {
    hide Play, Throughout;
    var order := t.workers[worker].order;
    var review, retry := Execute(worker, ReviewOrder(Done)), RetryOrder(order, t.workers[worker].realm);
    ReviewReviews(t, worker);
    run := Single(t, review, table, Lossy);
    var second := Single(Next(t, review), retry, table, Lossy);
    run := Continue(t, run, second, table, Lossy);
  }

  /** The realm applies a command and its reply is lost. The step reads 'failed',
      a plain staff retry sends the command again, and the order ends delivered
      with the command applied twice: one worker, nothing dies, nothing is
      reconciled. */
  lemma {:induction false} LostReplyCanApplyTwice(s: State, worker: nat, table: StackTable) returns (run: seq<Action>)
    requires AboutToSend(s, worker, table)
    ensures Throughout(s, run, Lossy) && SameTable(run, table)
    ensures var w, t := s.workers[worker], Play(s, run);
            && Has(t, w.order, Delivered)
            && HistoryOf(t, CurrentId(w)).applied == [w.plan[w.at].command, w.plan[w.at].command]
  {
    hide PlanFor, Play, Throughout, Next;
    var w := s.workers[worker];
    run := ReplyIsLost(s, worker, table);
    var m := Play(s, run);
    var review := GivenUp(m, worker, table);
    var n := Play(m, review);
    run := Continue(s, run, review, table, Lossy);
    forall j | 0 <= j < |w.plan| ensures !StepIs(n, StepId(w.order, w.plan[j].key), Executing) {
      assert RowOf(n, StepId(w.order, w.plan[j].key)) == RowOf(m, StepId(w.order, w.plan[j].key)) != Some(Executing);
    }
    var deliver := PendingOrderCanBeDelivered(n, worker, w.order, table);
    CalmIs(n, deliver, Lossy);
    run := Continue(s, run, deliver, table, Lossy);
    assert RowOf(n, CurrentId(w)) == Some(Faulted);
    assert Carried(n, Play(n, deliver), w.order, w.plan[w.at]);
  }

  lemma {:induction false} LostReplyIsReachable(goods: Goods, table: StackTable) returns (run: seq<Action>)
    requires PlanFor(goods, table).Some? && PlanFor(goods, table).value != []
    ensures Throughout(EMPTY, run, Lossy) && SameTable(run, table)
    ensures var t := Play(EMPTY, run);
            var first := PlanFor(goods, table).value[0];
            Has(t, 1, Delivered) && HistoryOf(t, StepId(1, first.key)).applied == [first.command, first.command]
  {
    hide PlanFor, Play, Throughout;
    run := SendingIsReachable(goods, table, Lossy);
    var more := LostReplyCanApplyTwice(Play(EMPTY, run), 0, table);
    run := Continue(EMPTY, run, more, table, Lossy);
  }

  // ------------------------------------------------------------ two workers of one realm

  /** With a second worker of the realm alive, 'delivered' says nothing about
      the steps: staff wrongly put a completed step back while the first worker
      stands before its final UPDATE, the second worker claims the order, and
      the first one then still sees 'delivering'. */
  lemma {:induction false} TwoWorkersCanDeliverAWaitingStep(s: State, first: nat, second: nat, j: nat,
      table: StackTable)
      returns (run: seq<Action>)
    requires At(s, first, Finishing) && At(s, second, Idle) && s.workers[second].realm == s.workers[first].realm
    requires Has(s, s.workers[first].order, Delivering) && InRealm(s, s.workers[first].order, s.workers[first].realm)
    requires j < |s.workers[first].plan|
    requires StepIs(s, StepId(s.workers[first].order, s.workers[first].plan[j].key), Completed)
    ensures Throughout(s, run, HonestRealm) && SameTable(run, table)
    ensures var w, t := s.workers[first], Play(s, run);
            && Has(t, w.order, Delivered) && w.order in t.finals && t.finals[w.order] == w.plan
            && StepIs(t, StepId(w.order, w.plan[j].key), Waiting)
  {
    hide Play, Next, Throughout;
    var w := s.workers[first];
    var retry := ResolveStep(w.order, w.plan[j].key, w.realm, RetryStep);
    var claim := ClaimOrder(second, w.order, Done);
    var finish := Execute(first, FinishOrder(Done));
    BackToDelivering(s, first, second, j);
    var n := Next(Next(s, retry), claim);
    FinishedWaiting(n, first, StepId(w.order, w.plan[j].key));
    run := Single(s, retry, table, HonestRealm);
    var more := Single(Next(s, retry), claim, table, HonestRealm);
    run := Continue(s, run, more, table, HonestRealm);
    more := Single(n, finish, table, HonestRealm);
    run := Continue(s, run, more, table, HonestRealm);
  }

  lemma BackToDelivering(s: State, first: nat, second: nat, j: nat)
    requires At(s, first, Finishing) && At(s, second, Idle) && s.workers[second].realm == s.workers[first].realm
    requires Has(s, s.workers[first].order, Delivering) && InRealm(s, s.workers[first].order, s.workers[first].realm)
    requires j < |s.workers[first].plan|
    requires StepIs(s, StepId(s.workers[first].order, s.workers[first].plan[j].key), Completed)
    ensures var w := s.workers[first];
            var m := Next(s, ResolveStep(w.order, w.plan[j].key, w.realm, RetryStep));
            var n := Next(m, ClaimOrder(second, w.order, Done));
            && StepIs(n, StepId(w.order, w.plan[j].key), Waiting)
            && first in n.workers && n.workers[first] == w && Has(n, w.order, Delivering)
  {
    var w := s.workers[first];
    var m := DoResolveStep(s, w.order, w.plan[j].key, w.realm, RetryStep);
    assert m.workers == s.workers && Has(m, w.order, Pending) && StepIs(m, StepId(w.order, w.plan[j].key), Waiting);
  }

  lemma FinishedWaiting(n: State, first: nat, id: StepId)
    requires At(n, first, Finishing) && Has(n, n.workers[first].order, Delivering) && StepIs(n, id, Waiting)
    ensures var w, t := n.workers[first], Next(n, Execute(first, FinishOrder(Done)));
            Has(t, w.order, Delivered) && w.order in t.finals && t.finals[w.order] == w.plan && StepIs(t, id, Waiting)
  {
    FinishDelivers(n, first);
    Safety.InstallOwn(n, first, Effect(LocalView(n, first), FinishOrder(Done)));
    assert SameStep(n, Next(n, Execute(first, FinishOrder(Done))), id);
  }

  /** Such a state is reached from the empty portal by starting a second server. */
  lemma {:induction false} WaitingDeliveryIsReachable(goods: Goods, table: StackTable) returns (run: seq<Action>)
    requires PlanFor(goods, table).Some? && PlanFor(goods, table).value != []
    ensures Throughout(EMPTY, run, HonestRealm) && SameTable(run, table)
    ensures var t, plan := Play(EMPTY, run), PlanFor(goods, table).value;
            Has(t, 1, Delivered) && 1 in t.finals && t.finals[1] == plan && StepIs(t, StepId(1, plan[0].key), Waiting)
  {
    hide PlanFor, Play, Next, Throughout;
    PlanKeysDistinct(goods, table);
    run := Loading(goods, table, HonestRealm);
    var s := Play(EMPTY, run);
    var pass := PassFinishes(s, 0);
    CalmIs(s, pass, HonestRealm);
    run := Continue(EMPTY, run, pass, table, HonestRealm);
    var m := Play(EMPTY, run);
    assert Carried(s, m, 1, PlanFor(goods, table).value[0]);
    var more := Appears(m, 1, "realm", table);
    ThroughoutImplies(m, more, Proper, HonestRealm);
    run := Continue(EMPTY, run, more, table, HonestRealm);
    var n := Play(EMPTY, run);
    assert At(n, 0, Finishing) && n.workers[0].order == 1 && n.workers[0].plan == PlanFor(goods, table).value
        && n.workers[0].realm == "realm";
    assert StepIs(n, StepId(1, PlanFor(goods, table).value[0].key), Completed);
    more := TwoWorkersCanDeliverAWaitingStep(n, 0, 1, 0, table);
    run := Continue(EMPTY, run, more, table, HonestRealm);
  }

  // ------------------------------------------------------------ refunds

  /** The state after a worker died before it heard whether its command was
      applied, and another one took its place. */
  function Interrupted(s: State, worker: nat, spare: nat): State
    requires worker in s.workers
  {
    DoResetInterrupted(DoStartServer(DoCrash(s, worker), spare, s.workers[worker].realm), spare, Done)
  }

  /** The command is applied or not, and nothing but the history tells. */
  lemma {:induction false} DiesUnheard(s: State, worker: nat, spare: nat, applied: bool, table: StackTable)
     returns (run: seq<Action>)
    requires AboutToSend(s, worker, table) && spare !in s.workers && NothingCompleted(s, s.workers[worker].order)
    ensures Throughout(s, run, Still) && SameTable(run, table)
    ensures var w, t := s.workers[worker], Play(s, run);
            && t == Interrupted(s, worker, spare).(history := t.history)
            && HistoryOf(t, CurrentId(w)).applied == (if applied then [w.plan[w.at].command] else [])
            && Refundable(t, w.order, w.realm)
  {
    hide PlanFor, Play, Throughout;
    var w, send := s.workers[worker], Execute(worker, SendCommand(applied));
    run := Single(s, send, table, Still);
    var m := Next(s, send);
    SendTouchesNoRow(s, worker, applied);
    var more := Replaced(m, worker, spare, Done, table);
    run := Continue(s, run, more, table, Still);
    UnheardIsRefundable(s, m, worker, spare);
  }

  lemma SendTouchesNoRow(s: State, worker: nat, applied: bool)
    requires At(s, worker, Sending) && s.workers[worker].at < |s.workers[worker].plan|
    requires HistoryOf(s, CurrentId(s.workers[worker])).applied == []
    ensures var w, m := s.workers[worker], Next(s, Execute(worker, SendCommand(applied)));
            && m == s.(history := m.history, workers := s.workers[worker := w.(pc := Awaiting(applied))])
            && HistoryOf(m, CurrentId(w)).applied == if applied then [w.plan[w.at].command] else []
  {
  }

  lemma UnheardIsRefundable(s: State, m: State, worker: nat, spare: nat)
    requires worker in s.workers && spare !in s.workers && NothingCompleted(s, s.workers[worker].order)
    requires Has(s, s.workers[worker].order, Delivering) && InRealm(s, s.workers[worker].order, s.workers[worker].realm)
    requires worker in m.workers && m.workers[worker].realm == s.workers[worker].realm
    requires m == s.(history := m.history, workers := s.workers[worker := m.workers[worker]])
    ensures var t := Interrupted(m, worker, spare);
            t == Interrupted(s, worker, spare).(history := m.history)
                && Refundable(t, s.workers[worker].order, s.workers[worker].realm)
  {
    assert DoCrash(m, worker) == DoCrash(s, worker).(history := m.history) by {
      assert m.workers - {worker} == s.workers - {worker};
    }
  }

  /** The refund guard counts completed steps only. A crash after the realm
      applied a command leaves its step 'executing', which does not stop the
      refund: the player keeps the delivery and gets the credits. Nobody lied and
      nothing was reconciled. */
  lemma {:induction false} RefundCanMissAnAppliedCommand(s: State, worker: nat, spare: nat, table: StackTable)
      returns (run: seq<Action>)
    requires AboutToSend(s, worker, table) && spare !in s.workers && NothingCompleted(s, s.workers[worker].order)
    ensures Throughout(s, run, Still) && SameTable(run, table)
    ensures var w, t := s.workers[worker], Play(s, run);
            Has(t, w.order, Refunded) && HistoryOf(t, CurrentId(w)).applied == [w.plan[w.at].command]
  {
    hide PlanFor, Play, Throughout, Interrupted;
    var w := s.workers[worker];
    run := DiesUnheard(s, worker, spare, true, table);
    var refund := Single(Play(s, run), RefundOrder(w.order, w.realm), table, Still);
    run := Continue(s, run, refund, table, Still);
  }

  /** The refund guard cannot tell whether the realm applied a command: for every
      order with something to deliver, two runs from the empty portal, both
      within every hypothesis of the safety theorems, end in the same rows with
      the order refundable, and in one of them its first command was applied. */
  lemma {:induction false} RefundGuardCannotTell(goods: Goods, table: StackTable)
     returns (yes: seq<Action>, no: seq<Action>)
    requires PlanFor(goods, table).Some? && PlanFor(goods, table).value != []
    ensures Throughout(EMPTY, yes, Still) && SameTable(yes, table) && Throughout(EMPTY, no, Still)
        && SameTable(no, table)
    ensures var s, t := Play(EMPTY, yes), Play(EMPTY, no);
            var first := PlanFor(goods, table).value[0];
            && t == s.(history := t.history) && Refundable(s, 1, "realm")
            && HistoryOf(s, StepId(1, first.key)).applied == [first.command]
                && HistoryOf(t, StepId(1, first.key)).applied == []
  {
    hide PlanFor, Play, Throughout, Interrupted, AboutToSend, Refundable;
    var before := SendingIsReachable(goods, table, Still);
    var s := Play(EMPTY, before);
    assert At(s, 0, Sending) && 1 !in s.workers;
    yes := DiesUnheard(s, 0, 1, true, table);
    no := DiesUnheard(s, 0, 1, false, table);
    yes := Continue(EMPTY, before, yes, table, Still);
    no := Continue(EMPTY, before, no, table, Still);
  }

  /** So, for every order with something to deliver, a run from the empty portal
      within every hypothesis ends with it refunded and its first command applied. */
  lemma {:induction false} RefundedThoughAppliedIsReachable(goods: Goods, table: StackTable) returns (run: seq<Action>)
    requires PlanFor(goods, table).Some? && PlanFor(goods, table).value != []
    ensures Throughout(EMPTY, run, Still) && SameTable(run, table)
    ensures var s := Play(EMPTY, run);
            var first := PlanFor(goods, table).value[0];
            Has(s, 1, Refunded) && HistoryOf(s, StepId(1, first.key)).applied == [first.command]
  {
    hide PlanFor, Play, Throughout;
    run := SendingIsReachable(goods, table, Still);
    var more := RefundCanMissAnAppliedCommand(Play(EMPTY, run), 0, 1, table);
    run := Continue(EMPTY, run, more, table, Still);
  }

  /** Putting back a step of an order a worker drives makes it refundable under
      the worker's feet, which then completes a step of a refunded order, although
      the reconciliation was truthful and the step unattended. */
  lemma {:induction false} ReconcileInFlightCanCompleteARefundedOrder(s: State, worker: nat, table: StackTable)
    returns (retry: Action, rest: seq<Action>)
    requires At(s, worker, Selecting) && s.workers[worker].at < |s.workers[worker].plan|
    requires Has(s, s.workers[worker].order, Delivering) && InRealm(s, s.workers[worker].order, s.workers[worker].realm)
    requires RowOf(s, CurrentId(s.workers[worker])) == Some(Waiting) && NothingCompleted(s, s.workers[worker].order)
    requires HistoryOf(s, CurrentId(s.workers[worker])).applied == [] && !Held(s, CurrentId(s.workers[worker]))
    ensures Faithful(s, retry) && Safety.Exclusive(s, retry) && !Safety.NoDrivenPutBack(s, retry)
    ensures Throughout(Next(s, retry), rest, Still) && SameTable(rest, table)
    ensures var w, t := s.workers[worker], Play(Next(s, retry), rest);
            Has(t, w.order, Refunded) && StepIs(t, CurrentId(w), Completed)
  {
    hide Play, Throughout, Effect, EffectOf, PlanFor;
    var w := s.workers[worker];
    var id := CurrentId(w);
    retry := ResolveStep(w.order, CurrentKey(w), w.realm, RetryStep);
    var refund := RefundOrder(w.order, w.realm);
    var m := Next(s, retry);
    PutBackIsRefundable(s, worker);
    rest := Single(m, refund, table, Still);
    var n := Next(m, refund);
    var u := [SelectStep(true), StartStep(Done), SendCommand(true), ReceiveReply(true), RecordCompletion(Done)];
    FromSelecting(LocalView(n, worker), u);
    var more := Locally(n, worker, u, table);
    CalmIs(n, more, Still);
    rest := Continue(m, rest, more, table, Still);
    assert RowOf(Play(m, rest), id) == Some(Completed);
  }

  lemma PutBackIsRefundable(s: State, worker: nat)
    requires worker in s.workers
    requires Has(s, s.workers[worker].order, Delivering) && InRealm(s, s.workers[worker].order, s.workers[worker].realm)
    requires RowOf(s, CurrentId(s.workers[worker])) == Some(Waiting) && NothingCompleted(s, s.workers[worker].order)
    ensures var w := s.workers[worker];
            var m := Next(s, ResolveStep(w.order, CurrentKey(w), w.realm, RetryStep));
            var n := Next(m, RefundOrder(w.order, w.realm));
            n.workers == s.workers && Has(n, w.order, Refunded) && RowOf(n, CurrentId(w)) == Some(Waiting)
  {
    var w := s.workers[worker];
    var m := DoResolveStep(s, w.order, CurrentKey(w), w.realm, RetryStep);
    assert m.workers == s.workers && NothingCompleted(m, w.order) && Has(m, w.order, Pending);
  }

  lemma StartsWaiting(v: View)
    requires v.w.pc == Selecting && v.row == Some(Waiting)
    ensures var v1 := Effect(v, SelectStep(true));
            v1.w == v.w.(pc := Starting)
                && Effect(v1, StartStep(Done)) == v.(row := Some(Executing), w := v.w.(pc := Sending))
  {
  }

  lemma FromSelecting(v: View, u: seq<Statement>)
    requires u == [SelectStep(true), StartStep(Done), SendCommand(true), ReceiveReply(true), RecordCompletion(Done)]
    requires v.w.pc == Selecting && v.row == Some(Waiting) && v.w.at < |v.w.plan|
    ensures Local(v, u) && EffectOf(v, u).row == Some(Completed)
    ensures EffectOf(v, u).w.(pc := v.w.pc, at := v.w.at) == v.w
  {
    hide Effect, EffectOf;
    assert u[..5] == u;
    EffectOfPrefix(v, u, 1);
    EffectOfPrefix(v, u, 2);
    StartsWaiting(v);
    CommandEffect(EffectOf(v, u[..2]));
    EffectOfPrefix(v, u, 3);
    EffectOfPrefix(v, u, 4);
    EffectOfPrefix(v, u, 5);
  }

  lemma {:induction false} CompletedThoughRefundedIsReachable(goods: Goods, table: StackTable)
    returns (before: seq<Action>, retry: Action, rest: seq<Action>)
    requires PlanFor(goods, table).Some? && PlanFor(goods, table).value != []
    ensures Throughout(EMPTY, before, Still) && SameTable(before, table)
    ensures var s := Play(EMPTY, before);
            && Faithful(s, retry) && Safety.Exclusive(s, retry) && !Safety.NoDrivenPutBack(s, retry)
            && Throughout(Next(s, retry), rest, Still) && SameTable(rest, table)
    ensures var t, first := Play(EMPTY, before + [retry] + rest), PlanFor(goods, table).value[0];
            Has(t, 1, Refunded) && StepIs(t, StepId(1, first.key), Completed)
  {
    hide PlanFor, Play, Throughout, Next, Effect, EffectOf;
    before := Loading(goods, table, Still);
    var s := Play(EMPTY, before);
    InsertsStep(LocalView(s, 0), [InsertStep(Done)]);
    var more := Locally(s, 0, [InsertStep(Done)], table);
    CalmIs(s, more, Still);
    before := Continue(EMPTY, before, more, table, Still);
    var m := Play(EMPTY, before);
    forall id | id in m.steps ensures m.steps[id] != Completed {
      assert RowOf(m, id) == Some(m.steps[id]) && RowOf(s, id) == None;
    }
    retry, rest := ReconcileInFlightCanCompleteARefundedOrder(m, 0, table);
    PlayConcat(EMPTY, before + [retry], rest);
    PlayConcat(EMPTY, before, [retry]);
    PlayOne(m, retry);
  }

  lemma InsertsStep(v: View, u: seq<Statement>)
    requires u == [InsertStep(Done)] && v.w.pc == Inserting && v.row == None
    ensures Local(v, u) && EffectOf(v, u) == v.(row := Some(Waiting), w := v.w.(pc := Selecting))
  {
    assert u[..1] == u;
    EffectOfPrefix(v, u, 1);
  }

  /** A second server of the realm starts, and its reset and a refund go through. */
  lemma ResetAndRefund(s: State, worker: nat, spare: nat)
    requires worker in s.workers && spare !in s.workers && NothingCompleted(s, s.workers[worker].order)
    requires Has(s, s.workers[worker].order, Delivering) && InRealm(s, s.workers[worker].order, s.workers[worker].realm)
    ensures var w := s.workers[worker];
            var b := Next(Next(s, StartServer(spare, w.realm)), ResetInterrupted(spare, Done));
            var t := Next(b, RefundOrder(w.order, w.realm));
            && Has(t, w.order, Refunded) && worker in t.workers && t.workers[worker] == w
            && t.steps == s.steps && t.history == s.history
  {
    hide PlanFor, DoExecute, DoResolveStep;
    var w := s.workers[worker];
    var a := DoStartServer(s, spare, w.realm);
    var b := DoResetInterrupted(a, spare, Done);
    assert b.steps == s.steps && Has(b, w.order, Review) && InRealm(b, w.order, w.realm);
    assert Refundable(b, w.order, w.realm);
  }

  lemma FromSending(v: View, u: seq<Statement>)
    requires u == [SendCommand(true), ReceiveReply(true), RecordCompletion(Done)]
    requires v.w.pc == Sending && v.row == Some(Executing) && v.w.at < |v.w.plan|
    ensures Local(v, u) && EffectOf(v, u).row == Some(Completed)
  {
    hide Effect, EffectOf;
    assert u[..3] == u;
    CommandEffect(v);
    EffectOfPrefix(v, u, 1);
    EffectOfPrefix(v, u, 2);
    EffectOfPrefix(v, u, 3);
  }

  /** Two servers of one realm break the refund guarantee without any
      reconciliation: the second one resets the order under the first, which then
      completes a step of an order already refunded. */
  lemma {:induction false} SecondServerCompletesARefundedOrder(s: State, worker: nat, spare: nat, table: StackTable)
      returns (run: seq<Action>)
    requires AboutToSend(s, worker, table) && spare !in s.workers && NothingCompleted(s, s.workers[worker].order)
    ensures Throughout(s, run, Proper) && SameTable(run, table)
    ensures var w, t := s.workers[worker], Play(s, run);
            Has(t, w.order, Refunded) && StepIs(t, CurrentId(w), Completed)
  {
    hide Play, Throughout, Effect, EffectOf, PlanFor, Next;
    var w := s.workers[worker];
    var start, reset, refund := StartServer(spare, w.realm), ResetInterrupted(spare, Done),
        RefundOrder(w.order, w.realm);
    var a := Next(s, start);
    var b := Next(a, reset);
    var t := Next(b, refund);
    ResetAndRefund(s, worker, spare);
    run := Single(s, start, table, Proper);
    var more := Single(a, reset, table, Proper);
    run := Continue(s, run, more, table, Proper);
    more := Single(b, refund, table, Proper);
    run := Continue(s, run, more, table, Proper);
    var u := [SendCommand(true), ReceiveReply(true), RecordCompletion(Done)];
    assert RowOf(t, CurrentId(w)) == RowOf(s, CurrentId(w));
    FromSending(LocalView(t, worker), u);
    more := Locally(t, worker, u, table);
    run := Continue(s, run, more, table, Proper);
    assert RowOf(Play(s, run), CurrentId(w)) == Some(Completed);
  }

  lemma {:induction false} CompletedBehindAResetIsReachable(goods: Goods, table: StackTable) returns (run: seq<Action>)
    requires PlanFor(goods, table).Some? && PlanFor(goods, table).value != []
    ensures Throughout(EMPTY, run, Proper) && SameTable(run, table)
    ensures var t, first := Play(EMPTY, run), PlanFor(goods, table).value[0];
            Has(t, 1, Refunded) && StepIs(t, StepId(1, first.key), Completed)
  {
    hide PlanFor, Play, Throughout;
    run := SendingIsReachable(goods, table, Proper);
    var more := SecondServerCompletesARefundedOrder(Play(EMPTY, run), 0, 1, table);
    run := Continue(EMPTY, run, more, table, Proper);
  }
}
