/** Runs that show fulfilment makes progress, and runs that show which
    hypotheses of the safety theorems the code really needs. */
module FulfilmentRuns {
  import opened Common
  import opened DeliveryPlan
  import opened Fulfilment
  import Safety = FulfilmentSafety
  import opened FulfilmentExactlyOnce

  lemma {:induction false} PlayConcat(s: State, a: seq<Action>, b: seq<Action>)
    ensures Play(s, a + b) == Play(Play(s, a), b)
  {
    if b == [] {
      assert a + b == a;
    } else {
      var init := b[..|b| - 1];
      assert (a + b)[..|a + b| - 1] == a + init;
      PlayConcat(s, a, init);
    }
  }

  lemma PlayOne(s: State, a: Action)
    ensures Play(s, [a]) == Next(s, a)
  {
    assert [a][..0] == [];
    assert Play(s, []) == s;
  }

  lemma {:induction false} ThroughoutConcat(s: State, a: seq<Action>, b: seq<Action>, ok: (State, Action) -> bool)
    requires Throughout(s, a, ok) && Throughout(Play(s, a), b, ok)
    ensures Throughout(s, a + b, ok)
  {
    if b == [] {
      assert a + b == a;
    } else {
      var init, last := b[..|b| - 1], b[|b| - 1];
      assert (a + b)[..|a + b| - 1] == a + init;
      ThroughoutConcat(s, a, init, ok);
      PlayConcat(s, a, init);
    }
  }

  lemma ThroughoutOne(s: State, a: Action, ok: (State, Action) -> bool)
    requires ok(s, a)
    ensures Throughout(s, [a], ok)
  {
    assert [a][..0] == [] && Play(s, []) == s;
  }

  lemma {:induction false} ThroughoutImplies(s: State, run: seq<Action>, p: (State, Action) -> bool,
      q: (State, Action) -> bool)
    requires Throughout(s, run, p) && forall t, a :: p(t, a) ==> q(t, a)
    ensures Throughout(s, run, q)
  {
    if run != [] {
      ThroughoutImplies(s, run[..|run| - 1], p, q);
    }
  }

  /** `run` and then `more`, with what holds throughout both. */
  lemma Continue(s: State, run: seq<Action>, more: seq<Action>, table: StackTable, ok: (State, Action) -> bool)
    returns (longer: seq<Action>)
    requires Throughout(s, run, ok) && SameTable(run, table)
    requires Throughout(Play(s, run), more, ok) && SameTable(more, table)
    ensures longer == run + more && Play(s, longer) == Play(Play(s, run), more)
    ensures Throughout(s, longer, ok) && SameTable(longer, table)
  {
    longer := run + more;
    PlayConcat(s, run, more);
    ThroughoutConcat(s, run, more, ok);
  }

  lemma Single(s: State, a: Action, table: StackTable, ok: (State, Action) -> bool) returns (run: seq<Action>)
    requires ok(s, a) && !a.LoadPlan?
    ensures run == [a] && Play(s, run) == Next(s, a)
    ensures Throughout(s, run, ok) && SameTable(run, table)
  {
    run := [a];
    PlayOne(s, a);
    ThroughoutOne(s, a, ok);
  }

  /** The realm reports what it did, nothing is reconciled, and no server starts
      or dies. */
  ghost predicate Calm(s: State, a: Action) {
    HonestRealm(s, a) && !a.ResolveStep? && !a.StartServer? && !a.Crash?
  }

  // ------------------------------------------------------------ progress

  /** Nothing but `worker`, one row and that row's history differ. */
  ghost predicate OnlyStep(s: State, t: State, worker: nat, id: StepId) {
    && t.orders == s.orders
    && worker in s.workers && worker in t.workers && t.workers == s.workers[worker := t.workers[worker]]
    && (forall other, status :: other != id ==> StepIs(t, other, status) == StepIs(s, other, status))
    && (forall other :: other != id ==> HistoryOf(t, other) == HistoryOf(s, other))
  }

  function EffectOf(v: View, statements: seq<Statement>): View {
    if statements == [] then v
    else Effect(EffectOf(v, statements[..|statements| - 1]), statements[|statements| - 1])
  }

  /** The last of the first `k` statements, taken after the ones before it. */
  lemma EffectOfPrefix(v: View, statements: seq<Statement>, k: nat)
    requires 0 < k <= |statements|
    ensures EffectOf(v, statements[..k]) == Effect(EffectOf(v, statements[..k - 1]), statements[k - 1])
    ensures EffectOf(v, statements[..0]) == v
  {
    assert statements[..k][..k - 1] == statements[..k - 1];
  }

  function By(worker: nat, statements: seq<Statement>): (run: seq<Action>)
    ensures |run| == |statements|
  {
    seq(|statements|, i requires 0 <= i < |statements| => Execute(worker, statements[i]))
  }

  /** Statements inside one step: the global run is the local one, written back. */
  lemma {:induction false} LocalRun(s: State, worker: nat, statements: seq<Statement>)
    requires worker in s.workers
    requires forall i :: 0 <= i < |statements| ==> !statements[i].FinishOrder? && !statements[i].ReviewOrder?
    requires forall k :: 0 <= k < |statements| ==>
               CurrentId(EffectOf(LocalView(s, worker), statements[..k]).w) == CurrentId(s.workers[worker])
    ensures var v, t := LocalView(s, worker), Play(s, By(worker, statements));
            var u, id := EffectOf(v, statements), CurrentId(v.w);
            && OnlyStep(s, t, worker, id)
            && t.workers[worker] == u.w
            && HistoryOf(t, id) == u.h
            && (forall status :: StepIs(t, id, status) <==> u.row == Some(status))
  {
    var v, id := LocalView(s, worker), CurrentId(s.workers[worker]);
    if statements == [] {
    } else {
      var n := |statements| - 1;
      var init, last := statements[..n], statements[n];
      assert By(worker, statements)[..n] == By(worker, init);
      forall k | 0 <= k < n ensures statements[..k] == init[..k] {}
      assert statements[..n] == init;
      LocalRun(s, worker, init);
      var m := Play(s, By(worker, init));
      assert LocalView(m, worker).(row := None, status := None) == EffectOf(v, init).(row := None, status := None);
      RowOfView(m, worker, EffectOf(v, init).row);
      StatementFrame(m, worker, last, EffectOf(v, init));
    }
  }

  lemma {:induction false} LocalCalm(s: State, worker: nat, statements: seq<Statement>)
    requires worker in s.workers
    requires forall i :: 0 <= i < |statements| ==> !statements[i].FinishOrder? && !statements[i].ReviewOrder?
    requires forall k :: 0 <= k < |statements| ==>
               CurrentId(EffectOf(LocalView(s, worker), statements[..k]).w) == CurrentId(s.workers[worker])
    requires forall k :: 0 <= k < |statements| && statements[k].ReceiveReply? ==>
               EffectOf(LocalView(s, worker), statements[..k]).w.pc == Awaiting(statements[k].ok)
    ensures Throughout(s, By(worker, statements), Calm)
  {
    if statements != [] {
      var n := |statements| - 1;
      var init := statements[..n];
      assert By(worker, statements)[..n] == By(worker, init);
      forall k | 0 <= k < n ensures statements[..k] == init[..k] {}
      LocalCalm(s, worker, init);
      LocalRun(s, worker, init);
    }
  }

  lemma RowOfView(s: State, worker: nat, row: Option<StepStatus>)
    requires worker in s.workers
    requires forall status :: StepIs(s, CurrentId(s.workers[worker]), status) <==> row == Some(status)
    ensures LocalView(s, worker).row == row
  {
    var id := CurrentId(s.workers[worker]);
    if id in s.steps { assert StepIs(s, id, s.steps[id]); }
    if row.Some? { assert StepIs(s, id, row.value); }
  }

  lemma InstallInStep(s: State, worker: nat, u: View)
    requires worker in s.workers
    requires u.status == LocalView(s, worker).status && (LocalView(s, worker).row.Some? ==> u.row.Some?)
    ensures var t, id := Install(s, worker, u), CurrentId(s.workers[worker]);
            && OnlyStep(s, t, worker, id)
            && t.workers[worker] == u.w
            && HistoryOf(t, id) == u.h
            && (forall status :: StepIs(t, id, status) <==> u.row == Some(status))
  {
    Safety.InstallOwn(s, worker, u);
    assert Install(s, worker, u).orders == s.orders;
  }

  lemma EffectInStep(v: View, statement: Statement)
    requires !statement.FinishOrder? && !statement.ReviewOrder?
    ensures Effect(v, statement).status == v.status && (v.row.Some? ==> Effect(v, statement).row.Some?)
    ensures forall status :: Effect(v.(status := status), statement) == Effect(v, statement).(status := status)
  {
  }

  lemma StatementFrame(s: State, worker: nat, statement: Statement, v: View)
    requires worker in s.workers && !statement.FinishOrder? && !statement.ReviewOrder?
    requires LocalView(s, worker).(status := v.status) == v
    ensures var t := Next(s, Execute(worker, statement));
            var u, id := Effect(v, statement), CurrentId(v.w);
            && OnlyStep(s, t, worker, id)
            && t.workers[worker] == u.w
            && HistoryOf(t, id) == u.h
            && (forall status :: StepIs(t, id, status) <==> u.row == Some(status))
  {
    EffectInStep(LocalView(s, worker), statement);
    InstallInStep(s, worker, Effect(LocalView(s, worker), statement));
  }

  /** The six statements of one step when nothing goes wrong. */
  predicate Undisturbed(u: seq<Statement>) {
    && |u| == 6
    && u[0] == InsertStep(Done) && u[1] == SelectStep(true) && u[2] == StartStep(Done)
    && u[3] == SendCommand(true) && u[4] == ReceiveReply(true) && u[5] == RecordCompletion(Done)
  }

  lemma ClaimStatements(v: View)
    requires v.w.pc == Inserting && v.row != Some(Executing) && v.row != Some(Completed)
    ensures var v1 := Effect(v, InsertStep(Done));
            var v2 := Effect(v1, SelectStep(true));
            && v1.w == v.w.(pc := Selecting) && v2.w == v.w.(pc := Starting)
            && Effect(v2, StartStep(Done)) == v.(row := Some(Executing), w := v.w.(pc := Sending))
  {
    assert v.row.Some? ==> v.row.value == Waiting || v.row.value == Faulted;
  }

  lemma ClaimEffect(v: View, u: seq<Statement>)
    requires Undisturbed(u) && v.w.pc == Inserting && v.row != Some(Executing) && v.row != Some(Completed)
    ensures EffectOf(v, u[..0]) == v
    ensures EffectOf(v, u[..1]).w == v.w.(pc := Selecting)
    ensures EffectOf(v, u[..2]).w == v.w.(pc := Starting)
    ensures EffectOf(v, u[..3]) == v.(row := Some(Executing), w := v.w.(pc := Sending))
  {
    hide Effect, EffectOf;
    EffectOfPrefix(v, u, 1);
    EffectOfPrefix(v, u, 2);
    EffectOfPrefix(v, u, 3);
    ClaimStatements(v);
  }

  lemma SendEffect(v: View, u: seq<Statement>, v3: View)
    requires Undisturbed(u) && v.w.at < |v.w.plan|
    requires v3 == EffectOf(v, u[..3]) && v3 == v.(row := Some(Executing), w := v.w.(pc := Sending))
    ensures EffectOf(v, u[..4]).w == v.w.(pc := Awaiting(true))
    ensures EffectOf(v, u[..5]).w == v.w.(pc := Completing)
    ensures var t := EffectOf(v, u[..6]);
            && t.w == NextStep(v.w.(pc := Completing))
            && t.row == Some(Completed)
            && t.h.applied == v.h.applied + [v.w.plan[v.w.at].command]
  {
    CommandEffect(v3);
    var v4 := Effect(v3, SendCommand(true));
    var v5 := Effect(v4, ReceiveReply(true));
    assert EffectOf(v, u[..4]) == v4 by { EffectOfPrefix(v, u, 4); }
    assert EffectOf(v, u[..5]) == v5 by { EffectOfPrefix(v, u, 5); }
    assert EffectOf(v, u[..6]) == Effect(v5, RecordCompletion(Done)) by { EffectOfPrefix(v, u, 6); }
  }

  lemma CommandEffect(v: View)
    requires v.w.pc == Sending && v.w.at < |v.w.plan| && v.row == Some(Executing)
    ensures var v4 := Effect(v, SendCommand(true));
            var v5 := Effect(v4, ReceiveReply(true));
            var v6 := Effect(v5, RecordCompletion(Done));
            && v4.w == v.w.(pc := Awaiting(true))
            && v5.w == v.w.(pc := Completing)
            && v6.w == NextStep(v.w.(pc := Completing))
            && v6.row == Some(Completed)
            && v6.h.applied == v.h.applied + [v.w.plan[v.w.at].command]
  {
  }

  lemma UndisturbedEffect(v: View, u: seq<Statement>)
    requires Undisturbed(u)
    requires v.w.pc == Inserting && v.w.at < |v.w.plan| && v.row != Some(Executing) && v.row != Some(Completed)
    ensures forall k :: 0 <= k < 6 ==> CurrentId(EffectOf(v, u[..k]).w) == CurrentId(v.w)
    ensures EffectOf(v, u[..4]).w.pc == Awaiting(true)
    ensures var t := EffectOf(v, u);
            && t.w == NextStep(v.w.(pc := Completing))
            && t.row == Some(Completed)
            && t.h.applied == v.h.applied + [v.w.plan[v.w.at].command]
  {
    hide Effect, EffectOf;
    ClaimEffect(v, u);
    SendEffect(v, u, EffectOf(v, u[..3]));
    assert u[..6] == u;
    forall k | 0 <= k < 6 ensures CurrentId(EffectOf(v, u[..k]).w) == CurrentId(v.w) {
      if k == 0 {} else if k == 1 {} else if k == 2 {} else if k == 3 {} else if k == 4 {} else {}
    }
  }

  /** A step that is already completed is passed over. */
  lemma SkippedEffect(v: View, u: seq<Statement>)
    requires u == [InsertStep(Done), SelectStep(true)]
    requires v.w.pc == Inserting && v.row == Some(Completed)
    ensures forall k :: 0 <= k < 2 ==> CurrentId(EffectOf(v, u[..k]).w) == CurrentId(v.w)
    ensures EffectOf(v, u) == v.(w := NextStep(v.w.(pc := Selecting)))
  {
    assert u[..2] == u;
    EffectOfPrefix(v, u, 1);
    EffectOfPrefix(v, u, 2);
  }

  // ------------------------------------------------------------ an undisturbed pass

  ghost predicate SameStep(s: State, t: State, id: StepId) {
    HistoryOf(t, id) == HistoryOf(s, id) && forall status :: StepIs(t, id, status) == StepIs(s, id, status)
  }

  /** The step is completed in `t`, by one more application of its command
      unless it already was. */
  ghost predicate Carried(s: State, t: State, order: nat, step: PlanStep) {
    var id := StepId(order, step.key);
    && StepIs(t, id, Completed)
    && HistoryOf(t, id).applied == HistoryOf(s, id).applied + if StepIs(s, id, Completed) then [] else [step.command]
  }

  /** From before step `n` of the plan to the end of the pass. */
  ghost predicate CarriedFrom(s: State, t: State, order: nat, plan: seq<PlanStep>, n: nat) {
    && (forall j :: n <= j < |plan| ==> Carried(s, t, order, plan[j]))
    && (forall id :: (forall j :: n <= j < |plan| ==> id != StepId(order, plan[j].key)) ==> SameStep(s, t, id))
  }

  ghost predicate ReadyFrom(s: State, worker: nat) {
    && worker in s.workers
    && (var w := s.workers[worker];
        && (w.pc == Inserting || w.pc == Finishing)
        && (w.pc == Inserting ==> w.at < |w.plan|)
        && Has(s, w.order, Delivering) && DistinctKeys(w.plan)
        && forall j :: LeftFrom(w) <= j < |w.plan| ==> !StepIs(s, StepId(w.order, w.plan[j].key), Executing))
  }

  lemma CarryOn(s: State, m: State, t: State, order: nat, plan: seq<PlanStep>, n: nat)
    requires n < |plan| && DistinctKeys(plan)
    requires Carried(s, m, order, plan[n])
    requires forall id :: id != StepId(order, plan[n].key) ==> SameStep(s, m, id)
    requires CarriedFrom(m, t, order, plan, n + 1)
    ensures CarriedFrom(s, t, order, plan, n)
  {
    assert SameStep(m, t, StepId(order, plan[n].key));
    forall j | n <= j < |plan| ensures Carried(s, t, order, plan[j]) {
      if j > n {
        assert Carried(m, t, order, plan[j]) && SameStep(s, m, StepId(order, plan[j].key));
      }
    }
    forall id | forall j :: n <= j < |plan| ==> id != StepId(order, plan[j].key)
      ensures SameStep(s, t, id)
    {
      assert id != StepId(order, plan[n].key);
      assert SameStep(s, m, id) && SameStep(m, t, id);
    }
  }

  /** Statements that stay within step `at` and leave it completed carry it. */
  lemma StatementsCarry(s: State, worker: nat, statements: seq<Statement>)
    requires ReadyFrom(s, worker) && s.workers[worker].pc == Inserting
    requires forall i :: 0 <= i < |statements| ==> !statements[i].FinishOrder? && !statements[i].ReviewOrder?
    requires forall k :: 0 <= k < |statements| ==>
               CurrentId(EffectOf(LocalView(s, worker), statements[..k]).w) == CurrentId(s.workers[worker])
    requires var v, u := LocalView(s, worker), EffectOf(LocalView(s, worker), statements);
             && (exists pc :: u.w == NextStep(v.w.(pc := pc))) && u.row == Some(Completed)
             && u.h.applied == v.h.applied + if v.row == Some(Completed) then [] else [v.w.plan[v.w.at].command]
    ensures StepCarried(s, Play(s, By(worker, statements)), worker)
  {
    hide Effect, EffectOf, Play, Next;
    var w, v := s.workers[worker], LocalView(s, worker);
    LocalRun(s, worker, statements);
    var m := Play(s, By(worker, statements));
    assert RowOf(s, CurrentId(w)) == v.row;
    forall j | w.at + 1 <= j < |w.plan| ensures !StepIs(m, StepId(w.order, w.plan[j].key), Executing) {
      assert StepId(w.order, w.plan[j].key) != CurrentId(w);
    }
  }

  /** The worker is past step `at`, which is carried, and nothing else changed. */
  ghost predicate StepCarried(s: State, m: State, worker: nat) {
    && ReadyFrom(s, worker) && s.workers[worker].pc == Inserting
    && m.orders == s.orders && worker in m.workers && m.workers == s.workers[worker := m.workers[worker]]
    && (var w := s.workers[worker];
        && ReadyFrom(m, worker)
        && m.workers[worker] == w.(pc := m.workers[worker].pc, at := m.workers[worker].at)
        && LeftFrom(m.workers[worker]) == w.at + 1
        && Carried(s, m, w.order, w.plan[w.at])
        && forall id :: id != CurrentId(w) ==> SameStep(s, m, id))
  }

  /** One undisturbed step of the plan, whether it still has to run or not. */
  lemma StepCarries(s: State, worker: nat) returns (run: seq<Action>)
    requires ReadyFrom(s, worker) && s.workers[worker].pc == Inserting
    ensures forall i :: 0 <= i < |run| ==> run[i].Execute? && run[i].worker == worker
    ensures Throughout(s, run, Calm)
    ensures StepCarried(s, Play(s, run), worker)
  {
    hide Effect, EffectOf, Play, Next, StepCarried, NextStep, SameStep;
    var v := LocalView(s, worker);
    assert !StepIs(s, CurrentId(v.w), Executing);
    var statements := [InsertStep(Done), SelectStep(true)];
    if v.row == Some(Completed) {
      SkippedEffect(v, statements);
    } else {
      statements := statements + [StartStep(Done), SendCommand(true), ReceiveReply(true), RecordCompletion(Done)];
      UndisturbedEffect(v, statements);
    }
    StatementsCarry(s, worker, statements);
    LocalCalm(s, worker, statements);
    run := By(worker, statements);
  }

  /** Once none of its planned steps is executing, an undisturbed pass over an
      order comes to its final UPDATE: steps already completed are skipped, every
      other command is applied exactly once more. */
  lemma {:induction false} PassFinishes(s: State, worker: nat) returns (run: seq<Action>)
    requires ReadyFrom(s, worker)
    ensures forall i :: 0 <= i < |run| ==> run[i].Execute? && run[i].worker == worker
    ensures Throughout(s, run, Calm)
    ensures var t, w := Play(s, run), s.workers[worker];
            && t.orders == s.orders && worker in t.workers && t.workers == s.workers[worker := t.workers[worker]]
            && t.workers[worker] == w.(pc := Finishing, at := t.workers[worker].at)
            && CarriedFrom(s, t, w.order, w.plan, LeftFrom(w))
    decreases |s.workers[worker].plan| - LeftFrom(s.workers[worker])
  {
    var w := s.workers[worker];
    if w.pc == Finishing {
      run := [];
    } else {
      var first := StepCarries(s, worker);
      var m := Play(s, first);
      var rest := PassFinishes(m, worker);
      PlayConcat(s, first, rest);
      ThroughoutConcat(s, first, rest, Calm);
      run := first + rest;
      CarryOn(s, m, Play(m, rest), w.order, w.plan, w.at);
    }
  }

  /** ... and one more statement delivers it. */
  lemma PassDelivers(s: State, worker: nat) returns (run: seq<Action>)
    requires ReadyFrom(s, worker)
    ensures forall i :: 0 <= i < |run| ==> run[i].Execute? && run[i].worker == worker
    ensures Throughout(s, run, Calm)
    ensures var w := s.workers[worker];
            Has(Play(s, run), w.order, Delivered) && CarriedFrom(s, Play(s, run), w.order, w.plan, LeftFrom(w))
  {
    var w := s.workers[worker];
    var pass := PassFinishes(s, worker);
    var t, finish := Play(s, pass), Execute(worker, FinishOrder(Done));
    PlayConcat(s, pass, [finish]);
    PlayOne(t, finish);
    ThroughoutOne(t, finish, Calm);
    ThroughoutConcat(s, pass, [finish], Calm);
    run := pass + [finish];
    FinishDelivers(t, worker);
    StillCarried(s, t, Play(s, run), w.order, w.plan, LeftFrom(w));
  }

  lemma StillCarried(s: State, m: State, t: State, order: nat, plan: seq<PlanStep>, n: nat)
    requires CarriedFrom(s, m, order, plan, n) && forall id :: SameStep(m, t, id)
    ensures CarriedFrom(s, t, order, plan, n)
  {
    forall j | n <= j < |plan| ensures Carried(s, t, order, plan[j]) {
      assert Carried(s, m, order, plan[j]) && SameStep(m, t, StepId(order, plan[j].key));
    }
    forall id | forall j :: n <= j < |plan| ==> id != StepId(order, plan[j].key) ensures SameStep(s, t, id) {
      assert SameStep(s, m, id) && SameStep(m, t, id);
    }
  }

  function LeftFrom(w: Worker): nat {
    if w.pc == Finishing then |w.plan| else w.at
  }

  lemma FinishDelivers(s: State, worker: nat)
    requires At(s, worker, Finishing) && Has(s, s.workers[worker].order, Delivering)
    ensures var t := Next(s, Execute(worker, FinishOrder(Done)));
            && Has(t, s.workers[worker].order, Delivered)
            && forall id :: SameStep(s, t, id)
  {
  }

  /** `t` is `s` with `worker` at the start of `plan` for `order`, which it has
      claimed. */
  ghost predicate Loaded(s: State, t: State, worker: nat, order: nat, plan: seq<PlanStep>) {
    && order in s.orders && worker in s.workers
    && t.orders == s.orders[order := s.orders[order].(status := Delivering)]
    && t.workers == s.workers[worker :=
        Worker(s.workers[worker].realm, if plan == [] then Finishing else Inserting, order, plan, 0)]
    && t.steps == s.steps && t.history == s.history && t.returned == s.returned && t.finals == s.finals
  }

  lemma ClaimLoads(s: State, worker: nat, order: nat, table: StackTable)
    requires At(s, worker, Idle) && Has(s, order, Pending) && InRealm(s, order, s.workers[worker].realm)
    requires PlanFor(s.orders[order].goods, table).Some?
    ensures var n := Next(Next(s, ClaimOrder(worker, order, Done)), LoadPlan(worker, Ready, table));
            Loaded(s, n, worker, order, PlanFor(s.orders[order].goods, table).value)
  {
    hide PlanFor;
  }

  /** Claim a pending order of the worker's realm and load its plan. */
  lemma ClaimAndLoad(s: State, worker: nat, order: nat, table: StackTable) returns (run: seq<Action>)
    requires At(s, worker, Idle) && Has(s, order, Pending) && InRealm(s, order, s.workers[worker].realm)
    requires PlanFor(s.orders[order].goods, table).Some?
    ensures Loaded(s, Play(s, run), worker, order, PlanFor(s.orders[order].goods, table).value)
    ensures Throughout(s, run, Calm) && SameTable(run, table)
  {
    hide Next, Play, Loaded, PlanFor;
    var claim, load := ClaimOrder(worker, order, Done), LoadPlan(worker, Ready, table);
    ClaimLoads(s, worker, order, table);
    run := [claim] + [load];
    PlayConcat(s, [claim], [load]);
    PlayOne(s, claim);
    PlayOne(Next(s, claim), load);
    ThroughoutOne(s, claim, Calm);
    ThroughoutOne(Next(s, claim), load, Calm);
    ThroughoutConcat(s, [claim], [load], Calm);
  }

  /** From any state: a pending order of an idle worker's realm whose plan loads
      and has no executing step can be claimed and delivered, by calm actions
      alone. */
  lemma PendingOrderCanBeDelivered(s: State, worker: nat, order: nat, table: StackTable) returns (run: seq<Action>)
    requires At(s, worker, Idle) && Has(s, order, Pending) && InRealm(s, order, s.workers[worker].realm)
    requires PlanFor(s.orders[order].goods, table).Some?
    requires var plan := PlanFor(s.orders[order].goods, table).value;
             forall j :: 0 <= j < |plan| ==> !StepIs(s, StepId(order, plan[j].key), Executing)
    ensures Throughout(s, run, Calm) && SameTable(run, table)
    ensures var plan := PlanFor(s.orders[order].goods, table).value;
            Has(Play(s, run), order, Delivered) && CarriedFrom(s, Play(s, run), order, plan, 0)
  {
    hide Next, Play, PlanFor;
    var plan := PlanFor(s.orders[order].goods, table).value;
    PlanKeysDistinct(s.orders[order].goods, table);
    var first := ClaimAndLoad(s, worker, order, table);
    var n := Play(s, first);
    assert ReadyFrom(n, worker);
    var rest := PassDelivers(n, worker);
    PlayConcat(s, first, rest);
    ThroughoutConcat(s, first, rest, Calm);
    run := first + rest;
    SameRowsCarry(s, n, Play(n, rest), order, plan);
  }

  lemma SameRowsCarry(s: State, n: State, t: State, order: nat, plan: seq<PlanStep>)
    requires n.steps == s.steps && n.history == s.history && CarriedFrom(n, t, order, plan, 0)
    ensures CarriedFrom(s, t, order, plan, 0)
  {
    forall j | 0 <= j < |plan| ensures Carried(s, t, order, plan[j]) { assert Carried(n, t, order, plan[j]); }
    forall id | forall j :: 0 <= j < |plan| ==> id != StepId(order, plan[j].key) ensures SameStep(s, t, id) {
      assert SameStep(n, t, id);
    }
  }

  // ------------------------------------------------------------ passes that send nothing

  /** Outside a pass, or giving one up. */
  predicate Parked(s: State, worker: nat) {
    worker in s.workers ==>
      s.workers[worker].pc == Reviewing || s.workers[worker].pc == Idle || s.workers[worker].pc == Booting
  }

  lemma ParkedEffect(v: View, statement: Statement)
    requires v.w.pc == Reviewing || v.w.pc == Idle || v.w.pc == Booting
    ensures var u := Effect(v, statement);
            u.row == v.row && u.h == v.h && (u.w.pc == v.w.pc || u.w.pc == Idle)
  {
  }

  lemma ParkedExecute(s: State, worker: nat, actor: nat, statement: Statement)
    requires Parked(s, worker)
    ensures Parked(DoExecute(s, actor, statement), worker)
    ensures actor == worker ==> var t := DoExecute(s, actor, statement); t.steps == s.steps && t.history == s.history
  {
    if actor in s.workers && actor == worker { ParkedEffect(LocalView(s, worker), statement); }
  }

  lemma ParkedStep(s: State, worker: nat, a: Action)
    requires Parked(s, worker) && !(a.ClaimOrder? && a.worker == worker)
    ensures Parked(Next(s, a), worker)
  {
    hide PlanFor, DoExecute;
    if a.Execute? { ParkedExecute(s, worker, a.worker, a.statement); }
  }

  lemma {:induction false} ParkedRun(s: State, worker: nat, run: seq<Action>)
    requires Parked(s, worker) && forall i :: 0 <= i < |run| ==> !(run[i].ClaimOrder? && run[i].worker == worker)
    ensures Parked(Play(s, run), worker)
  {
    if run != [] {
      ParkedRun(s, worker, run[..|run| - 1]);
      ParkedStep(Play(s, run[..|run| - 1]), worker, run[|run| - 1]);
    }
  }

  /** A pass whose character is not ready, or whose order has an item the world
      does not know or a service the worker does not, never comes to a step:
      until the worker claims again, whatever everybody does, its statements
      touch no step and send no command. */
  lemma UnreadyPassSendsNothing(s: State, worker: nat, character: Character, table: StackTable, run: seq<Action>,
                                statement: Statement)
    requires At(s, worker, Claimed) && s.workers[worker].order in s.orders
    requires var goods := s.orders[s.workers[worker].order].goods;
             || character != Ready
             || (exists item :: item in goods.items && item.id !in table)
             || (goods.service != "" && goods.service != "race_change" && goods.service != "faction_change")
    requires forall i :: 0 <= i < |run| ==> !(run[i].ClaimOrder? && run[i].worker == worker)
    ensures var t := Play(Next(s, LoadPlan(worker, character, table)), run);
            var u := Next(t, Execute(worker, statement));
            && (worker in t.workers ==> !InStep(t.workers[worker]))
            && u.steps == t.steps && u.history == t.history
  {
    hide PlanFor, Play, DoExecute;
    PlanIsRefusedIff(s.orders[s.workers[worker].order].goods, table);
    var m := Next(s, LoadPlan(worker, character, table));
    ParkedRun(m, worker, run);
    ParkedExecute(Play(m, run), worker, worker, statement);
  }
}
