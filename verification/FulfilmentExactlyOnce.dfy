/** End-to-end exactly-once: a delivered order has had every planned command
    applied by the realm exactly once, for any number of workers and crashes. */
module FulfilmentExactlyOnce {
  import opened Common
  import opened DeliveryPlan
  import opened Fulfilment
  import Bounds = FulfilmentBounds
  import Safety = FulfilmentSafety

  /** The plan every pass over an order loads, when it loads one. */
  type Plans = nat -> Option<seq<PlanStep>>

  // ------------------------------------------------------------ hypotheses

  /** The realm applies a command exactly when it does not report an error. */
  ghost predicate HonestRealm(s: State, a: Action) {
    a.Execute? && a.statement.ReceiveReply? && a.worker in s.workers && s.workers[a.worker].pc.Awaiting? ==>
      a.statement.ok == s.workers[a.worker].pc.applied
  }

  /** The realm applies a command it acknowledges; it may also apply one whose
      reply is an error or is lost. */
  ghost predicate NoFalseSuccess(s: State, a: Action) {
    a.Execute? && a.statement.ReceiveReply? && a.worker in s.workers && s.workers[a.worker].pc.Awaiting? ==>
      a.statement.ok ==> s.workers[a.worker].pc.applied
  }

  /** Staff call a step completed only if its command was applied, and retry it
      only if it was not. */
  ghost predicate TruthfulStaff(s: State, a: Action) {
    a.ResolveStep? ==>
      var applied := HistoryOf(s, StepId(a.order, a.key)).applied;
      if a.resolution == MarkCompleted then applied != [] else applied == []
  }

  /** A live worker is between claiming the step and recording how it went. */
  ghost predicate Held(s: State, id: StepId) {
    exists w :: w in s.workers && InCommand(s.workers[w]) && CurrentId(s.workers[w]) == id
  }

  /** Staff do not put back a step whose command a live worker holds. */
  ghost predicate UnattendedRetry(s: State, a: Action) {
    a.ResolveStep? && a.resolution == RetryStep ==> !Held(s, StepId(a.order, a.key))
  }

  /** Staff do not reconcile a step whose command a live worker has yet to send. */
  ghost predicate NotAboutToBeSent(s: State, a: Action) {
    a.ResolveStep? ==>
      forall w :: w in s.workers && s.workers[w].pc == Sending ==> CurrentId(s.workers[w]) != StepId(a.order, a.key)
  }

  ghost predicate LoadsPlan(s: State, a: Action, plans: Plans) {
    a.LoadPlan? && At(s, a.worker, Claimed) && s.workers[a.worker].order in s.orders ==>
      var order := s.workers[a.worker].order;
      var plan := PlanFor(s.orders[order].goods, a.table);
      plan.Some? ==> plans(order) == plan
  }

  ghost predicate Faithful(s: State, a: Action) {
    HonestRealm(s, a) && TruthfulStaff(s, a) && UnattendedRetry(s, a)
  }

  /** As `Faithful`, but a command that was applied may be reported as an error. */
  ghost predicate Careful(s: State, a: Action) {
    NoFalseSuccess(s, a) && TruthfulStaff(s, a) && UnattendedRetry(s, a) && NotAboutToBeSent(s, a)
  }

  /** The `stackable` column never changes. */
  ghost predicate SameTable(run: seq<Action>, table: StackTable) {
    forall i :: 0 <= i < |run| && run[i].LoadPlan? ==> run[i].table == table
  }

  // ------------------------------------------------------------ the invariant

  /** Applications of the command a worker holds that no record covers yet. */
  function Unrecorded(pc: Pc): nat {
    match pc
    case Awaiting(applied) => if applied then 1 else 0
    case Failing(applied) => if applied then 1 else 0
    case Completing => 1
    case _ => 0
  }

  /** A worker holding a command owns its executing row, unless staff have
      marked the step completed after the command was sent. */
  predicate HoldsRow(pc: Pc, row: Option<StepStatus>, h: History) {
    if row == Some(Executing) then |h.applied| == h.denied + Unrecorded(pc) else row == Some(Completed) && pc != Sending
  }

  function RowOf(s: State, id: StepId): Option<StepStatus> {
    if id in s.steps then Some(s.steps[id]) else None
  }

  ghost predicate WorkerInv(s: State, w: Worker, plans: Plans) {
    && (InStep(w) ==> w.at < |w.plan|)
    && (InStep(w) || w.pc == Finishing ==> plans(w.order) == Some(w.plan) && Safety.PrefixDone(s, w))
    && (InCommand(w) ==> HoldsRow(w.pc, RowOf(s, CurrentId(w)), HistoryOf(s, CurrentId(w))))
  }

  /** How often a step's command was applied: once for every application on
      record as a fault, once more when the row is completed, and perhaps once
      more while it is executing. */
  predicate Accounted(row: Option<StepStatus>, h: History) {
    match row
    case Some(Completed) => |h.applied| == h.denied + 1
    case Some(Executing) => h.denied <= |h.applied| <= h.denied + 1
    case _ => |h.applied| == h.denied
  }

  ghost predicate RowIsSound(id: StepId, row: Option<StepStatus>, h: History, plans: Plans) {
    && Accounted(row, h)
    && (forall k :: 0 <= k < |h.applied| ==> IsPlanned(id, h.applied[k], plans))
    && (row.Some? ==> HasKey(id, plans))
  }

  ghost predicate RowInv(s: State, id: StepId, plans: Plans) {
    RowIsSound(id, RowOf(s, id), HistoryOf(s, id), plans)
  }

  ghost predicate IsPlanned(id: StepId, command: Command, plans: Plans) {
    plans(id.order).Some? &&
    exists j :: 0 <= j < |plans(id.order).value| && plans(id.order).value[j].key == id.key
        && plans(id.order).value[j].command == command
  }

  ghost predicate HasKey(id: StepId, plans: Plans) {
    plans(id.order).Some? && exists j :: 0 <= j < |plans(id.order).value| && plans(id.order).value[j].key == id.key
  }

  ghost predicate AllCompleted(s: State, order: nat, plan: seq<PlanStep>) {
    forall j :: 0 <= j < |plan| ==> StepIs(s, StepId(order, plan[j].key), Completed)
  }

  ghost predicate OrderInv(s: State, order: nat, plans: Plans) {
    Has(s, order, Delivered) ==> plans(order).Some? && AllCompleted(s, order, plans(order).value)
  }

  ghost predicate Rivals(v: Worker, w: Worker) {
    InCommand(v) && InCommand(w) && CurrentId(v) == CurrentId(w)
  }

  ghost predicate CommandsAreExclusive(s: State) {
    forall v, w :: v in s.workers && w in s.workers && Rivals(s.workers[v], s.workers[w]) ==> v == w
  }

  ghost predicate OnceInv(s: State, plans: Plans) {
    && CommandsAreExclusive(s)
    && (forall w :: w in s.workers ==> WorkerInv(s, s.workers[w], plans))
    && (forall id :: RowInv(s, id, plans))
    && (forall order :: OrderInv(s, order, plans))
  }

  // ------------------------------------------------------------ one statement

  ghost predicate TrueSuccess(v: View, statement: Statement) {
    statement.ReceiveReply? && v.w.pc.Awaiting? && statement.ok ==> v.w.pc.applied
  }

  /** What a statement may do to the worker that takes it and to its order. */
  ghost predicate MovesPass(v: View, u: View) {
    && u.w.(pc := v.w.pc, at := v.w.at) == v.w
    && (InStep(u.w) ==> u.w.at < |u.w.plan| && (InStep(v.w) || v.w.pc == Finishing))
    && (u.w.pc == Finishing ==> InStep(v.w) || v.w.pc == Finishing)
    && (InCommand(u.w) ==> InStep(v.w) && u.w.at == v.w.at)
    && (InCommand(u.w) && !InCommand(v.w) ==> v.row == Some(Waiting) || v.row == Some(Faulted))
    && (v.status.Some? <==> u.status.Some?)
    && (u.status == Some(Delivered) && v.status != Some(Delivered) ==> v.w.pc == Finishing)
    && (|| Safety.DoneUpTo(u.w) <= Safety.DoneUpTo(v.w)
        || (InStep(v.w) && Safety.DoneUpTo(u.w) == v.w.at + 1 && u.row == Some(Completed)))
  }

  /** ... and to the step it works on. */
  ghost predicate MovesRow(v: View, u: View) {
    && (InCommand(u.w) ==> HoldsRow(u.w.pc, u.row, u.h))
    && Accounted(u.row, u.h)
    && (|| u.h.applied == v.h.applied
        || (InStep(v.w) && v.w.at < |v.w.plan| && u.h.applied == v.h.applied + [v.w.plan[v.w.at].command]))
    && (v.row == Some(Completed) ==> u.row == Some(Completed))
    && (v.row.Some? ==> u.row.Some?)
    && (u.row != v.row || u.h != v.h ==> InStep(v.w))
    && ((u.row != v.row && v.row == Some(Executing)) || u.h != v.h ==> InCommand(v.w))
  }

  lemma EffectOnPass(v: View, statement: Statement)
    requires InStep(v.w) ==> v.w.at < |v.w.plan|
    requires InCommand(v.w) ==> HoldsRow(v.w.pc, v.row, v.h)
    ensures MovesPass(v, Effect(v, statement))
  {
  }

  lemma EffectOnRow(v: View, statement: Statement)
    requires InStep(v.w) ==> v.w.at < |v.w.plan|
    requires InCommand(v.w) ==> HoldsRow(v.w.pc, v.row, v.h)
    requires Accounted(v.row, v.h) && TrueSuccess(v, statement)
    ensures MovesRow(v, Effect(v, statement))
  {
  }

  lemma InstallOwnHistory(s: State, worker: nat, u: View)
    requires worker in s.workers
    ensures var t, id := Install(s, worker, u), CurrentId(s.workers[worker]);
            HistoryOf(t, id) == u.h && forall other :: other != id ==> HistoryOf(t, other) == HistoryOf(s, other)
  {
  }

  lemma InstallRows(s: State, worker: nat, u: View)
    requires worker in s.workers && (LocalView(s, worker).row.Some? ==> u.row.Some?)
    ensures var t, id := Install(s, worker, u), CurrentId(s.workers[worker]);
            RowOf(t, id) == u.row && forall other :: other != id ==> RowOf(t, other) == RowOf(s, other)
  {
  }

  /** `t` is `s` after a statement of `worker` that turned its view into `u`. */
  ghost predicate Took(s: State, t: State, worker: nat, u: View) {
    && worker in s.workers && t.workers == s.workers[worker := u.w]
    && (var v, id := LocalView(s, worker), CurrentId(s.workers[worker]);
        && MovesPass(v, u) && MovesRow(v, u)
        && RowOf(s, id) == v.row && HistoryOf(s, id) == v.h
        && RowOf(t, id) == u.row && HistoryOf(t, id) == u.h
        && (forall other :: other != id ==>
            RowOf(t, other) == RowOf(s, other) && HistoryOf(t, other) == HistoryOf(s, other))
        && (forall order :: Has(t, order, Delivered) ==>
            Has(s, order, Delivered) || (order == v.w.order && v.w.pc == Finishing)))
  }

  lemma ExecuteTakes(s: State, worker: nat, statement: Statement, plans: Plans)
    requires OnceInv(s, plans) && worker in s.workers && TrueSuccess(LocalView(s, worker), statement)
    ensures Took(s, DoExecute(s, worker, statement), worker, Effect(LocalView(s, worker), statement))
  {
    hide Effect, Install;
    var v, t := LocalView(s, worker), DoExecute(s, worker, statement);
    var u := Effect(v, statement);
    assert WorkerInv(s, v.w, plans) && RowInv(s, CurrentId(v.w), plans);
    EffectOnPass(v, statement);
    EffectOnRow(v, statement);
    Safety.InstallOwn(s, worker, u);
    InstallRows(s, worker, u);
    InstallOwnHistory(s, worker, u);
    forall order | Has(t, order, Delivered)
        ensures Has(s, order, Delivered) || (order == v.w.order && v.w.pc == Finishing) {
      if order != v.w.order { Safety.InstallFrame(s, worker, u, order); }
    }
  }

  lemma CompletedStays(s: State, t: State, worker: nat, u: View, id: StepId)
    requires Took(s, t, worker, u) && StepIs(s, id, Completed)
    ensures StepIs(t, id, Completed)
  {
    assert RowOf(s, id) == Some(Completed);
    assert RowOf(t, id) == Some(Completed);
  }

  lemma OwnRow(id: StepId, v: View, u: View, plans: Plans)
    requires RowIsSound(id, v.row, v.h, plans) && MovesRow(v, u)
    requires InStep(v.w)
        ==> HasKey(id, plans) && (v.w.at < |v.w.plan| ==> IsPlanned(id, v.w.plan[v.w.at].command, plans))
    ensures RowIsSound(id, u.row, u.h, plans)
  {
    hide HoldsRow, Accounted, HasKey, IsPlanned;
  }

  lemma TookRow(s: State, t: State, worker: nat, u: View, id: StepId, plans: Plans)
    requires OnceInv(s, plans) && Took(s, t, worker, u)
    ensures RowInv(t, id, plans)
  {
    hide RowIsSound, MovesRow, MovesPass, HoldsRow, Safety.PrefixDone;
    var w := s.workers[worker];
    assert WorkerInv(s, w, plans) && RowInv(s, id, plans);
    if id == CurrentId(w) {
      if InStep(w) { assert plans(id.order).value[w.at].key == id.key; }
      OwnRow(id, LocalView(s, worker), u, plans);
    }
  }

  lemma PrefixStays(s: State, t: State, worker: nat, u: View, w: Worker)
    requires Took(s, t, worker, u) && Safety.PrefixDone(s, w)
    ensures Safety.PrefixDone(t, w)
  {
    hide Took;
    forall j | 0 <= j < Safety.DoneUpTo(w) && j < |w.plan|
        ensures StepIs(t, StepId(w.order, w.plan[j].key), Completed) {
      CompletedStays(s, t, worker, u, StepId(w.order, w.plan[j].key));
    }
  }

  /** What is behind the worker is completed after its statement. */
  lemma PrefixAfter(s: State, t: State, worker: nat, u: View)
    requires Took(s, t, worker, u) && Safety.PrefixDone(s, s.workers[worker])
    ensures Safety.PrefixDone(t, u.w)
  {
    hide MovesRow;
    var w := s.workers[worker];
    forall j | 0 <= j < Safety.DoneUpTo(u.w) && j < |u.w.plan|
      ensures StepIs(t, StepId(u.w.order, u.w.plan[j].key), Completed)
    {
      if j < Safety.DoneUpTo(w) {
        CompletedStays(s, t, worker, u, StepId(w.order, w.plan[j].key));
      } else {
        assert StepId(u.w.order, u.w.plan[j].key) == CurrentId(w);
      }
    }
  }

  lemma TookOwn(s: State, t: State, worker: nat, u: View, plans: Plans)
    requires OnceInv(s, plans) && Took(s, t, worker, u)
    ensures WorkerInv(t, u.w, plans)
  {
    hide HoldsRow, Accounted, Safety.PrefixDone;
    var w := s.workers[worker];
    assert WorkerInv(s, w, plans);
    if InStep(w) || w.pc == Finishing { PrefixAfter(s, t, worker, u); }
  }

  lemma TookOther(s: State, t: State, worker: nat, u: View, w: nat, plans: Plans)
    requires OnceInv(s, plans) && Took(s, t, worker, u)
    requires w in s.workers && w != worker
    ensures WorkerInv(t, s.workers[w], plans) && !Rivals(u.w, s.workers[w])
  {
    var mine, other := s.workers[worker], s.workers[w];
    assert WorkerInv(s, mine, plans) && WorkerInv(s, other, plans);
    if InStep(other) || other.pc == Finishing { PrefixStays(s, t, worker, u, other); }
    if InCommand(other) && CurrentId(other) == CurrentId(mine) { assert !Rivals(mine, other); }
  }

  lemma TookOrder(s: State, t: State, worker: nat, u: View, order: nat, plans: Plans)
    requires OnceInv(s, plans) && Took(s, t, worker, u)
    ensures OrderInv(t, order, plans)
  {
    var w := s.workers[worker];
    assert WorkerInv(s, w, plans) && OrderInv(s, order, plans);
    if Has(t, order, Delivered) {
      var plan := plans(order).value;
      forall j | 0 <= j < |plan| ensures StepIs(t, StepId(order, plan[j].key), Completed) {
        CompletedStays(s, t, worker, u, StepId(order, plan[j].key));
      }
    }
  }

  lemma TookWorkers(s: State, t: State, worker: nat, u: View, plans: Plans)
    requires OnceInv(s, plans) && Took(s, t, worker, u)
    ensures CommandsAreExclusive(t) && forall w :: w in t.workers ==> WorkerInv(t, t.workers[w], plans)
  {
    hide WorkerInv, MovesPass, MovesRow;
    TookOwn(s, t, worker, u, plans);
    forall w | w in t.workers && w != worker
      ensures WorkerInv(t, t.workers[w], plans) && !Rivals(u.w, t.workers[w])
    {
      TookOther(s, t, worker, u, w, plans);
    }
  }

  lemma ExecuteOnce(s: State, worker: nat, statement: Statement, plans: Plans)
    requires OnceInv(s, plans) && worker in s.workers && TrueSuccess(LocalView(s, worker), statement)
    ensures OnceInv(DoExecute(s, worker, statement), plans)
  {
    hide Effect, Install, WorkerInv, RowInv, OrderInv, CommandsAreExclusive, Took;
    var t, u := DoExecute(s, worker, statement), Effect(LocalView(s, worker), statement);
    ExecuteTakes(s, worker, statement, plans);
    TookWorkers(s, t, worker, u, plans);
    forall id ensures RowInv(t, id, plans) { TookRow(s, t, worker, u, id, plans); }
    forall order ensures OrderInv(t, order, plans) { TookOrder(s, t, worker, u, order, plans); }
  }

  // ------------------------------------------------------------ the other actions

  /** Steps and histories alone, workers possibly fewer or moved outside a
      command, and no order newly delivered. */
  lemma KeepsOnce(s: State, t: State, plans: Plans)
    requires OnceInv(s, plans)
    requires t.steps == s.steps && t.history == s.history
    requires forall w :: w in t.workers ==>
               ((w in s.workers && t.workers[w] == s.workers[w])
                   || (!InStep(t.workers[w]) && t.workers[w].pc != Finishing))
    requires forall order :: Has(t, order, Delivered) ==> Has(s, order, Delivered)
    ensures OnceInv(t, plans)
  {
    hide HoldsRow, RowIsSound;
    forall order ensures OrderInv(t, order, plans) { assert OrderInv(s, order, plans); }
    forall id ensures RowInv(t, id, plans) { assert RowInv(s, id, plans); }
    forall w | w in t.workers ensures WorkerInv(t, t.workers[w], plans) {
      if w in s.workers { assert WorkerInv(s, s.workers[w], plans); }
    }
  }

  lemma PlanOnce(s: State, worker: nat, character: Character, plan: Option<seq<PlanStep>>, plans: Plans)
    requires OnceInv(s, plans) && At(s, worker, Claimed)
    requires plan.Some? ==> plans(s.workers[worker].order) == plan
    ensures OnceInv(TakePlan(s, worker, character, plan), plans)
  {
    hide HoldsRow, RowIsSound, PlanFor;
    var t := TakePlan(s, worker, character, plan);
    assert t.steps == s.steps && t.history == s.history && t.orders == s.orders;
    forall order ensures OrderInv(t, order, plans) { assert OrderInv(s, order, plans); }
    forall id ensures RowInv(t, id, plans) { assert RowInv(s, id, plans); }
    forall w | w in t.workers ensures WorkerInv(t, t.workers[w], plans) { assert WorkerInv(s, s.workers[w], plans); }
  }

  /** A truthful reconciliation never takes a completed row back and never calls
      an unapplied step completed; and it leaves alone what a live worker is
      about to send, and puts back nothing that a live worker holds. */
  lemma ResolveOnce(s: State, order: nat, key: string, realm: string, resolution: Resolution, plans: Plans)
    requires OnceInv(s, plans)
    requires TruthfulStaff(s, ResolveStep(order, key, realm, resolution))
    requires UnattendedRetry(s, ResolveStep(order, key, realm, resolution))
    requires NotAboutToBeSent(s, ResolveStep(order, key, realm, resolution))
    ensures OnceInv(DoResolveStep(s, order, key, realm, resolution), plans)
  {
    if Resolvable(s, order, key, realm) {
      var t, own := DoResolveStep(s, order, key, realm, resolution), StepId(order, key);
      assert RowInv(s, own, plans);
      ResolveRows(s, order, key, realm, resolution);
      forall id ensures RowInv(t, id, plans) { assert RowInv(s, id, plans); }
      forall o ensures OrderInv(t, o, plans) {
        assert OrderInv(s, o, plans);
        if o == order { assert Has(t, o, Pending); }
      }
      forall w | w in t.workers ensures WorkerInv(t, t.workers[w], plans) {
        assert WorkerInv(s, s.workers[w], plans);
        if InCommand(s.workers[w]) && CurrentId(s.workers[w]) == own { assert Held(s, own); }
      }
    }
  }

  lemma ResolveRows(s: State, order: nat, key: string, realm: string, resolution: Resolution)
    requires Resolvable(s, order, key, realm)
    ensures var t, id := DoResolveStep(s, order, key, realm, resolution), StepId(order, key);
            && t.workers == s.workers && t.orders == s.orders[order := s.orders[order].(status := Pending)]
            && RowOf(t, id) == Some(if resolution == MarkCompleted then Completed else Waiting)
            && HistoryOf(t, id).applied == HistoryOf(s, id).applied
            && (resolution == MarkCompleted ==> HistoryOf(t, id).denied == Acknowledged(HistoryOf(s, id)).denied)
            && (resolution == RetryStep ==> HistoryOf(t, id).denied == HistoryOf(s, id).denied)
            && forall other :: other != id
                ==> RowOf(t, other) == RowOf(s, other) && HistoryOf(t, other) == HistoryOf(s, other)
  {
  }

  lemma ResetOnce(s: State, worker: nat, db: Db, plans: Plans)
    requires OnceInv(s, plans)
    ensures OnceInv(DoResetInterrupted(s, worker, db), plans)
  {
    hide OnceInv;
    var t := DoResetInterrupted(s, worker, db);
    forall order | Has(t, order, Delivered) ensures Has(s, order, Delivered) {}
    KeepsOnce(s, t, plans);
  }

  lemma ClaimOnce(s: State, worker: nat, order: nat, db: Db, plans: Plans)
    requires OnceInv(s, plans)
    ensures OnceInv(DoClaimOrder(s, worker, order, db), plans)
  {
    hide OnceInv;
    KeepsOnce(s, DoClaimOrder(s, worker, order, db), plans);
  }

  lemma RefundOnce(s: State, order: nat, realm: string, plans: Plans)
    requires OnceInv(s, plans)
    ensures OnceInv(DoRefundOrder(s, order, realm), plans)
  {
    hide OnceInv;
    KeepsOnce(s, DoRefundOrder(s, order, realm), plans);
  }

  lemma RequeueOnce(s: State, order: nat, realm: string, plans: Plans)
    requires OnceInv(s, plans)
    ensures OnceInv(DoRetryOrder(s, order, realm), plans)
  {
    hide OnceInv;
    KeepsOnce(s, DoRetryOrder(s, order, realm), plans);
  }

  lemma PurchaseOnce(s: State, order: nat, realm: string, total: nat, goods: Goods, plans: Plans)
    requires OnceInv(s, plans)
    ensures OnceInv(DoPurchase(s, order, realm, total, goods), plans)
  {
    hide OnceInv;
    KeepsOnce(s, DoPurchase(s, order, realm, total, goods), plans);
  }

  lemma ServerOnce(s: State, worker: nat, realm: string, plans: Plans)
    requires OnceInv(s, plans)
    ensures OnceInv(DoStartServer(s, worker, realm), plans) && OnceInv(DoCrash(s, worker), plans)
  {
    hide OnceInv;
    KeepsOnce(s, DoStartServer(s, worker, realm), plans);
    KeepsOnce(s, DoCrash(s, worker), plans);
  }

  lemma OnceStep(s: State, a: Action, plans: Plans)
    requires OnceInv(s, plans) && Careful(s, a) && LoadsPlan(s, a, plans)
    ensures OnceInv(Next(s, a), plans)
  {
    hide DoClaimOrder, DoResetInterrupted, PlanFor, OnceInv, Effect, Install;
    match a
    case LoadPlan(worker, character, table) =>
      if At(s, worker, Claimed) && s.workers[worker].order in s.orders {
        PlanOnce(s, worker, character, PlanFor(s.orders[s.workers[worker].order].goods, table), plans);
      }
    case Execute(worker, statement) =>
      if worker in s.workers { ExecuteOnce(s, worker, statement, plans); }
    case ResolveStep(order, key, realm, resolution) => ResolveOnce(s, order, key, realm, resolution, plans);
    case ResetInterrupted(worker, db) => ResetOnce(s, worker, db, plans);
    case ClaimOrder(worker, order, db) => ClaimOnce(s, worker, order, db, plans);
    case RefundOrder(order, realm) => RefundOnce(s, order, realm, plans);
    case RetryOrder(order, realm) => RequeueOnce(s, order, realm, plans);
    case Purchase(order, realm, total, goods) => PurchaseOnce(s, order, realm, total, goods, plans);
    case StartServer(worker, realm) => ServerOnce(s, worker, realm, plans);
    case Crash(worker) => ServerOnce(s, worker, "", plans);
  }

  // ------------------------------------------------------------ the theorem

  lemma {:induction false} OnceRun(run: seq<Action>, table: StackTable, plans: Plans)
    requires Throughout(EMPTY, run, Careful) && SameTable(run, table)
    requires var s := Play(EMPTY, run); forall o :: o in s.orders ==> plans(o) == PlanFor(s.orders[o].goods, table)
    ensures OnceInv(Play(EMPTY, run), plans)
  {
    if run != [] {
      var init, last := run[..|run| - 1], run[|run| - 1];
      var s := Play(EMPTY, init);
      forall o | o in s.orders ensures plans(o) == PlanFor(s.orders[o].goods, table) {
        Bounds.OrderStep(s, last, o);
      }
      OnceRun(init, table, plans);
      OnceStep(s, last, plans);
    }
  }

  function PlansOf(s: State, table: StackTable): Plans {
    (order: nat) => if order in s.orders then PlanFor(s.orders[order].goods, table) else None
  }

  /** The pieces of `item` in the mails the realm has applied for a plan. */
  function ReceivedTotal(s: State, order: nat, plan: seq<PlanStep>, item: nat): nat {
    if plan == [] then 0
    else
      var applied := HistoryOf(s, StepId(order, plan[0].key)).applied;
      AppliedPieces(applied, item) + ReceivedTotal(s, order, plan[1..], item)
  }

  function AppliedPieces(applied: seq<Command>, item: nat): nat {
    if applied == [] then 0 else MailedBy(applied[0], item) + AppliedPieces(applied[1..], item)
  }

  lemma {:induction false} ReceivedIsMailed(s: State, order: nat, plan: seq<PlanStep>, item: nat)
    requires forall j :: 0 <= j < |plan| ==> HistoryOf(s, StepId(order, plan[j].key)).applied == [plan[j].command]
    ensures ReceivedTotal(s, order, plan, item) == MailedTotal(plan, item)
  {
    if plan != [] {
      ReceivedIsMailed(s, order, plan[1..], item);
      var applied := HistoryOf(s, StepId(order, plan[0].key)).applied;
      assert applied[1..] == [] && AppliedPieces(applied, item) == MailedBy(plan[0].command, item);
    }
  }

  /** How often the realm has applied `command` for the steps of a plan. */
  function AppliedTimes(s: State, order: nat, plan: seq<PlanStep>, command: Command): nat {
    if plan == [] then 0
    else
      Repeats(HistoryOf(s, StepId(order, plan[0].key)).applied, command) + AppliedTimes(s, order, plan[1..], command)
  }

  function Repeats(applied: seq<Command>, command: Command): nat {
    if applied == [] then 0 else (if applied[0] == command then 1 else 0) + Repeats(applied[1..], command)
  }

  lemma {:induction false} AppliedIsRun(s: State, order: nat, plan: seq<PlanStep>, command: Command)
    requires forall j :: 0 <= j < |plan| ==> HistoryOf(s, StepId(order, plan[j].key)).applied == [plan[j].command]
    ensures AppliedTimes(s, order, plan, command) == Times(plan, command)
  {
    if plan != [] {
      AppliedIsRun(s, order, plan[1..], command);
      var applied := HistoryOf(s, StepId(order, plan[0].key)).applied;
      assert applied[1..] == [] && Repeats(applied, command) == if plan[0].command == command then 1 else 0;
    }
  }

  ghost predicate AppliedExactly(s: State, order: nat, plan: seq<PlanStep>) {
    && (forall j :: 0 <= j < |plan| ==> HistoryOf(s, StepId(order, plan[j].key)).applied == [plan[j].command])
    && (forall key :: (forall j :: 0 <= j < |plan| ==> plan[j].key != key) ==>
        HistoryOf(s, StepId(order, key)).applied == [])
  }

  /** Every planned command was applied once, and once more for every
      application on record as a fault; nothing else was. */
  ghost predicate AppliedAsRecorded(s: State, order: nat, plan: seq<PlanStep>) {
    && (forall j :: 0 <= j < |plan| ==>
          var h := HistoryOf(s, StepId(order, plan[j].key));
          |h.applied| == 1 + h.denied && forall k :: 0 <= k < |h.applied| ==> h.applied[k] == plan[j].command)
    && (forall key :: (forall j :: 0 <= j < |plan| ==> plan[j].key != key) ==>
        HistoryOf(s, StepId(order, key)).applied == [])
  }

  ghost predicate NothingDenied(s: State, order: nat, plan: seq<PlanStep>) {
    forall j :: 0 <= j < |plan| ==> HistoryOf(s, StepId(order, plan[j].key)).denied == 0
  }

  lemma CompletedPlanWasApplied(s: State, order: nat, plan: seq<PlanStep>, plans: Plans)
    requires OnceInv(s, plans) && plans(order) == Some(plan) && DistinctKeys(plan) && AllCompleted(s, order, plan)
    ensures AppliedAsRecorded(s, order, plan)
  {
    forall j | 0 <= j < |plan|
      ensures var h := HistoryOf(s, StepId(order, plan[j].key));
              |h.applied| == 1 + h.denied && forall k :: 0 <= k < |h.applied| ==> h.applied[k] == plan[j].command
    {
      assert RowInv(s, StepId(order, plan[j].key), plans) && StepIs(s, StepId(order, plan[j].key), Completed);
    }
    forall key | forall j :: 0 <= j < |plan| ==> plan[j].key != key
      ensures HistoryOf(s, StepId(order, key)).applied == []
    {
      assert RowInv(s, StepId(order, key), plans);
      var applied := HistoryOf(s, StepId(order, key)).applied;
      assert applied != [] ==> IsPlanned(StepId(order, key), applied[0], plans);
    }
  }

  lemma ExactIffNothingDenied(s: State, order: nat, plan: seq<PlanStep>)
    requires AppliedAsRecorded(s, order, plan)
    ensures AppliedExactly(s, order, plan) <==> NothingDenied(s, order, plan)
  {
    if AppliedExactly(s, order, plan) {
      forall j | 0 <= j < |plan| ensures HistoryOf(s, StepId(order, plan[j].key)).denied == 0 {
        assert |HistoryOf(s, StepId(order, plan[j].key)).applied| == 1;
      }
    }
  }

  /** End to end when replies can be lost: for any number of workers, crashes,
      lost statements, staff retries and refunds, the realm has applied every
      planned command of a delivered order once, plus once for every applied
      command that stood recorded as a fault when the step was tried again. So
      it was applied exactly once if and only if there was none. */
  lemma DeliveredOncePlusDenied(run: seq<Action>, table: StackTable, order: nat)
    requires Throughout(EMPTY, run, Careful) && SameTable(run, table) && Has(Play(EMPTY, run), order, Delivered)
    ensures var s := Play(EMPTY, run);
            var plan := PlanFor(s.orders[order].goods, table);
            && plan.Some?
            && AppliedAsRecorded(s, order, plan.value)
            && (AppliedExactly(s, order, plan.value) <==> NothingDenied(s, order, plan.value))
  {
    var s := Play(EMPTY, run);
    var plans := PlansOf(s, table);
    OnceRun(run, table, plans);
    assert OrderInv(s, order, plans);
    var goods := s.orders[order].goods;
    var plan := PlanFor(goods, table).value;
    PlanKeysDistinct(goods, table);
    CompletedPlanWasApplied(s, order, plan, plans);
    ExactIffNothingDenied(s, order, plan);
  }

  // ------------------------------------------------------------ an honest realm

  /** With an honest realm nothing applied is ever recorded as a fault. */
  ghost predicate HonestInv(s: State) {
    && (forall id :: HistoryOf(s, id).denied == 0)
    && (forall w :: w in s.workers ==> s.workers[w].pc != Failing(true))
  }

  lemma HonestEffect(v: View, statement: Statement)
    requires v.h.denied == 0 && v.w.pc != Failing(true)
    requires statement.ReceiveReply? && v.w.pc.Awaiting? ==> statement.ok == v.w.pc.applied
    ensures Effect(v, statement).h.denied == 0 && Effect(v, statement).w.pc != Failing(true)
  {
  }

  lemma HonestExecute(s: State, worker: nat, statement: Statement)
    requires HonestInv(s) && HonestRealm(s, Execute(worker, statement))
    ensures HonestInv(DoExecute(s, worker, statement))
  {
    if worker in s.workers {
      HonestEffect(LocalView(s, worker), statement);
      InstallOwnHistory(s, worker, Effect(LocalView(s, worker), statement));
    }
  }

  /** No command starts or ends. */
  ghost predicate RunsNothing(s: State, t: State) {
    && t.history == s.history
    && forall w :: w in t.workers ==> !InCommand(t.workers[w]) || (w in s.workers && t.workers[w] == s.workers[w])
  }

  lemma KeepsHonest(s: State, t: State)
    requires HonestInv(s) && RunsNothing(s, t)
    ensures HonestInv(t)
  {
    forall id ensures HistoryOf(t, id) == HistoryOf(s, id) {}
  }

  lemma HonestPlan(s: State, worker: nat, character: Character, plan: Option<seq<PlanStep>>)
    requires HonestInv(s) && worker in s.workers
    ensures HonestInv(TakePlan(s, worker, character, plan))
  {
    KeepsHonest(s, TakePlan(s, worker, character, plan));
  }

  lemma HonestResolve(s: State, order: nat, key: string, realm: string, resolution: Resolution)
    requires HonestInv(s)
    ensures HonestInv(DoResolveStep(s, order, key, realm, resolution))
  {
    if Resolvable(s, order, key, realm) { ResolveRows(s, order, key, realm, resolution); }
  }

  lemma ServersRunNothing(s: State, a: Action)
    requires a.StartServer? || a.Crash? || a.ResetInterrupted? || a.ClaimOrder?
    ensures RunsNothing(s, Next(s, a))
  {
    hide PlanFor, DoExecute, DoResolveStep, DoLoadPlan, DoRetryOrder, DoRefundOrder, DoPurchase;
  }

  lemma OrdersRunNothing(s: State, a: Action)
    requires a.Purchase? || a.RetryOrder? || a.RefundOrder?
    ensures RunsNothing(s, Next(s, a))
  {
    hide PlanFor, DoExecute, DoResolveStep, DoLoadPlan, DoClaimOrder, DoResetInterrupted;
  }

  lemma HonestStep(s: State, a: Action)
    requires HonestInv(s) && HonestRealm(s, a)
    ensures HonestInv(Next(s, a))
  {
    hide PlanFor, DoExecute, HonestInv, DoResolveStep;
    match a
    case LoadPlan(worker, character, table) =>
      if At(s, worker, Claimed) && s.workers[worker].order in s.orders {
        HonestPlan(s, worker, character, PlanFor(s.orders[s.workers[worker].order].goods, table));
      }
    case Execute(worker, statement) => HonestExecute(s, worker, statement);
    case ResolveStep(order, key, realm, resolution) => HonestResolve(s, order, key, realm, resolution);
    case _ =>
      if a.Purchase? || a.RetryOrder? || a.RefundOrder? { OrdersRunNothing(s, a); } else { ServersRunNothing(s, a); }
      KeepsHonest(s, Next(s, a));
  }

  /** Then truthful staff cannot mark a step a worker is about to send. */
  /** A command about to be sent is held by its worker and was not applied yet. */
  lemma AboutToBeSent(s: State, w: nat, plans: Plans)
    requires OnceInv(s, plans) && HonestInv(s) && w in s.workers && s.workers[w].pc == Sending
    ensures Held(s, CurrentId(s.workers[w])) && HistoryOf(s, CurrentId(s.workers[w])).applied == []
  {
    assert WorkerInv(s, s.workers[w], plans) && InCommand(s.workers[w]);
    hide OnceInv, RowInv, Safety.PrefixDone;
    assert HoldsRow(Sending, RowOf(s, CurrentId(s.workers[w])), HistoryOf(s, CurrentId(s.workers[w])));
  }

  lemma FaithfulIsCareful(s: State, a: Action, plans: Plans)
    requires OnceInv(s, plans) && HonestInv(s) && Faithful(s, a)
    ensures Careful(s, a)
  {
    hide OnceInv, HonestInv, Held;
    if a.ResolveStep? {
      forall w | w in s.workers && s.workers[w].pc == Sending
          ensures CurrentId(s.workers[w]) != StepId(a.order, a.key) {
        AboutToBeSent(s, w, plans);
      }
    }
  }

  lemma {:induction false} FaithfulRunIsCareful(run: seq<Action>, table: StackTable)
    requires Throughout(EMPTY, run, Faithful) && SameTable(run, table)
    ensures Throughout(EMPTY, run, Careful) && HonestInv(Play(EMPTY, run))
  {
    if run != [] {
      var init, last := run[..|run| - 1], run[|run| - 1];
      var s := Play(EMPTY, init);
      FaithfulRunIsCareful(init, table);
      OnceRun(init, table, PlansOf(s, table));
      FaithfulIsCareful(s, last, PlansOf(s, table));
      HonestStep(s, last);
    }
  }

  /** End to end with an honest realm: when an order reads 'delivered', the realm
      has applied every planned command exactly once and nothing else for that
      order, the player has received exactly the ordered quantity of every item,
      and the level, gold, service and training the order asks for, and no other,
      were applied once. */
  lemma DeliveredExactlyOnce(run: seq<Action>, table: StackTable, order: nat)
    requires Throughout(EMPTY, run, Faithful) && SameTable(run, table) && Has(Play(EMPTY, run), order, Delivered)
    ensures var s := Play(EMPTY, run);
            var plan := PlanFor(s.orders[order].goods, table);
            && plan.Some?
            && AppliedExactly(s, order, plan.value)
            && (forall item :: ReceivedTotal(s, order, plan.value, item) == TotalOf(s.orders[order].goods.items, item))
            && (forall command: Command :: !command.ItemMail? ==>
                  AppliedTimes(s, order, plan.value, command) == Wanted(s.orders[order].goods, command))
  {
    hide Wanted, AppliedTimes, Times;
    var s := Play(EMPTY, run);
    FaithfulRunIsCareful(run, table);
    DeliveredOncePlusDenied(run, table, order);
    var goods := s.orders[order].goods;
    var plan := PlanFor(goods, table).value;
    forall item ensures ReceivedTotal(s, order, plan, item) == TotalOf(goods.items, item) {
      ReceivedIsMailed(s, order, plan, item);
      PlanMailsWhatWasOrdered(goods, table, item);
    }
    forall command: Command | !command.ItemMail?
      ensures AppliedTimes(s, order, plan, command) == Wanted(goods, command)
    {
      AppliedIsRun(s, order, plan, command);
      PlanRunsWhatWasOrdered(goods, table, command);
    }
  }
}
