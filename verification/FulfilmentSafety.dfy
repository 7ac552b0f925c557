/** Safety of fulfilment: what 'delivered' guarantees about an order's steps under
    one live worker per realm, and what 'refunded' guarantees for any number. */
module FulfilmentSafety {
  import opened Common
  import opened DeliveryPlan
  import opened Fulfilment

  // ------------------------------------------------------------ hypotheses

  /** A server of a realm starts only when no other server of it is alive. */
  ghost predicate Exclusive(s: State, a: Action) {
    a.StartServer? ==> forall w :: w in s.workers ==> s.workers[w].realm != a.realm
  }

  /** A live worker has claimed the order and not given it up yet. */
  ghost predicate Driven(s: State, order: nat) {
    exists w :: w in s.workers && Driving(s.workers[w]) && s.workers[w].order == order
  }

  /** Staff do not put back a step of an order a live worker drives. */
  ghost predicate NoDrivenPutBack(s: State, a: Action) {
    a.ResolveStep? && a.resolution == RetryStep ==> !Driven(s, a.order)
  }

  /** A starting server does not reset an order a live worker drives. */
  ghost predicate NoDrivenReset(s: State, a: Action) {
    a.ResetInterrupted? && At(s, a.worker, Booting) && Written(a.db) ==>
      forall order :: InRealm(s, order, s.workers[a.worker].realm) && Has(s, order, Delivering) ==> !Driven(s, order)
  }

  ghost predicate SparesDriven(s: State, a: Action) {
    NoDrivenPutBack(s, a) && NoDrivenReset(s, a)
  }

  // ------------------------------------------------------------ the pass invariant

  ghost predicate OneWorker(s: State) {
    forall v, w :: v in s.workers && w in s.workers && s.workers[v].realm == s.workers[w].realm ==> v == w
  }

  /** How many steps of its plan a worker has behind it. */
  function DoneUpTo(w: Worker): nat {
    if w.pc == Finishing then |w.plan| else if InStep(w) then w.at else 0
  }

  ghost predicate PrefixDone(s: State, w: Worker) {
    forall j :: 0 <= j < DoneUpTo(w) && j < |w.plan| ==> StepIs(s, StepId(w.order, w.plan[j].key), Completed)
  }

  /** While its order still reads 'delivering', nobody has interfered with the
      pass: everything behind the worker is completed and a command in flight
      still owns its row. */
  ghost predicate PassInv(s: State, w: Worker) {
    && (InStep(w) ==> w.at < |w.plan|)
    && (Driving(w) ==> InRealm(s, w.order, w.realm) && !Has(s, w.order, Delivered))
    && (Driving(w) && Has(s, w.order, Delivering) ==>
          PrefixDone(s, w) && (InCommand(w) ==> StepIs(s, CurrentId(w), Executing)))
  }

  ghost predicate DeliveredInv(s: State, order: nat) {
    Has(s, order, Delivered) ==>
      order in s.finals &&
      forall j :: 0 <= j < |s.finals[order]| ==> StepIs(s, StepId(order, s.finals[order][j].key), Completed)
  }

  ghost predicate SafetyInv(s: State) {
    && OneWorker(s)
    && (forall w :: w in s.workers ==> PassInv(s, s.workers[w]))
    && (forall order :: DeliveredInv(s, order))
  }

  // ------------------------------------------------------------ one statement

  lemma EffectPass(v: View, statement: Statement)
    requires InStep(v.w) ==> v.w.at < |v.w.plan|
    requires Driving(v.w) ==> v.status.Some? && v.status != Some(Delivered)
    requires v.status == Some(Delivering) && InCommand(v.w) ==> v.row == Some(Executing)
    ensures var u := Effect(v, statement);
            && u.w.(pc := v.w.pc, at := v.w.at) == v.w
            && (InStep(u.w) ==> u.w.at < |u.w.plan|)
            && (Driving(u.w) ==> Driving(v.w) && u.status == v.status)
            && (u.status == Some(Delivering) && InCommand(u.w) ==> u.row == Some(Executing) && u.w.at == v.w.at)
            && (v.row == Some(Completed) ==> u.row == Some(Completed))
            && (v.row.Some? ==> u.row.Some?)
            && (v.status.Some? <==> u.status.Some?)
            && (u.status != v.status ==> v.status == Some(Delivering) && Driving(v.w))
            && (u.status == Some(Delivered) && v.status != Some(Delivered) ==> v.w.pc == Finishing)
            && (!Driving(v.w) ==> u == v)
            && (Driving(v.w) && v.status == Some(Delivering) ==>
                  || DoneUpTo(u.w) <= DoneUpTo(v.w)
                  || (InStep(v.w) && DoneUpTo(u.w) == v.w.at + 1 && u.row == Some(Completed)))
  {
  }

  /** A statement of one worker touches one order only. */
  lemma InstallFrame(s: State, worker: nat, u: View, order: nat)
    requires worker in s.workers && order != s.workers[worker].order
    ensures var t := Install(s, worker, u);
            && (order in t.orders <==> order in s.orders) && (order in s.orders ==> t.orders[order] == s.orders[order])
            && (order in t.finals <==> order in s.finals) && (order in s.finals ==> t.finals[order] == s.finals[order])
            && (forall id: StepId, status :: id.order == order ==> StepIs(t, id, status) == StepIs(s, id, status))
  {
  }

  lemma InstallOwn(s: State, worker: nat, u: View)
    requires worker in s.workers && (LocalView(s, worker).row.Some? ==> u.row.Some?)
    requires LocalView(s, worker).status.Some? <==> u.status.Some?
    ensures var w, t := s.workers[worker], Install(s, worker, u);
            && t.workers == s.workers[worker := u.w]
            && (w.order in t.orders <==> w.order in s.orders)
            && (w.order in s.orders ==> t.orders[w.order] == s.orders[w.order].(status := u.status.value))
            && (forall status :: StepIs(t, CurrentId(w), status) <==> u.row == Some(status))
            && (forall id: StepId, status :: id != CurrentId(w) ==> StepIs(t, id, status) == StepIs(s, id, status))
            && (if u.status == Some(Delivered) && !Has(s, w.order, Delivered) && w.order in s.orders
                then w.order in t.finals && t.finals[w.order] == w.plan
                else t.finals == s.finals)
  {
  }

  /** Completed rows of the order survive the statement. */
  lemma InstallKeepsCompleted(s: State, worker: nat, u: View, id: StepId)
    requires worker in s.workers && StepIs(s, id, Completed)
    requires LocalView(s, worker).row == Some(Completed) ==> u.row == Some(Completed)
    ensures StepIs(Install(s, worker, u), id, Completed)
  {
  }

  /** Completed rows below `n` of a plan survive the statement. */
  lemma PlanSurvives(s: State, worker: nat, u: View, order: nat, plan: seq<PlanStep>, n: nat)
    requires worker in s.workers && n <= |plan|
    requires LocalView(s, worker).row == Some(Completed) ==> u.row == Some(Completed)
    requires forall j :: 0 <= j < n ==> StepIs(s, StepId(order, plan[j].key), Completed)
    ensures forall j :: 0 <= j < n ==> StepIs(Install(s, worker, u), StepId(order, plan[j].key), Completed)
  {
    forall j | 0 <= j < n ensures StepIs(Install(s, worker, u), StepId(order, plan[j].key), Completed) {
      InstallKeepsCompleted(s, worker, u, StepId(order, plan[j].key));
    }
  }

  lemma ExecutePass(s: State, worker: nat, statement: Statement)
    requires worker in s.workers && PassInv(s, s.workers[worker])
    ensures PassInv(DoExecute(s, worker, statement), DoExecute(s, worker, statement).workers[worker])
  {
    hide Effect, Install;
    var v := LocalView(s, worker);
    var u := Effect(v, statement);
    EffectPass(v, statement);
    InstallOwn(s, worker, u);
    if Driving(v.w) && v.status == Some(Delivering) { PrefixAfter(s, worker, u); }
  }

  /** What is behind the worker is still completed after its statement. */
  lemma PrefixAfter(s: State, worker: nat, u: View)
    requires worker in s.workers && PrefixDone(s, s.workers[worker])
    requires var v := LocalView(s, worker);
             && u.w.(pc := v.w.pc, at := v.w.at) == v.w && DoneUpTo(v.w) <= |v.w.plan|
             && (v.row == Some(Completed) ==> u.row == Some(Completed)) && (v.row.Some? ==> u.row.Some?)
             && (v.status.Some? <==> u.status.Some?)
             && (|| DoneUpTo(u.w) <= DoneUpTo(v.w)
                 || (InStep(v.w) && DoneUpTo(u.w) == v.w.at + 1 && u.row == Some(Completed)))
    ensures PrefixDone(Install(s, worker, u), u.w)
  {
    hide Install;
    var v, t := LocalView(s, worker), Install(s, worker, u);
    InstallOwn(s, worker, u);
    PlanSurvives(s, worker, u, v.w.order, v.w.plan, DoneUpTo(v.w));
    forall j | 0 <= j < DoneUpTo(u.w) && j < |u.w.plan|
      ensures StepIs(t, StepId(u.w.order, u.w.plan[j].key), Completed)
    {
      if j >= DoneUpTo(v.w) { assert StepId(u.w.order, u.w.plan[j].key) == CurrentId(v.w); }
    }
  }

  lemma ExecuteDelivered(s: State, worker: nat, statement: Statement)
    requires SafetyInv(s) && worker in s.workers
    ensures DeliveredInv(DoExecute(s, worker, statement), s.workers[worker].order)
  {
    hide Effect;
    var v := LocalView(s, worker);
    var u, order := Effect(v, statement), v.w.order;
    assert PassInv(s, v.w) && DeliveredInv(s, order);
    EffectPass(v, statement);
    InstallOwn(s, worker, u);
    if v.w.pc == Finishing && v.status == Some(Delivering) {
      PlanSurvives(s, worker, u, order, v.w.plan, |v.w.plan|);
    }
    if Has(s, order, Delivered) {
      PlanSurvives(s, worker, u, order, s.finals[order], |s.finals[order]|);
    }
  }

  lemma ExecuteSafe(s: State, worker: nat, statement: Statement)
    requires SafetyInv(s)
    ensures SafetyInv(DoExecute(s, worker, statement))
  {
    hide Effect;
    if worker in s.workers {
      var v, t := LocalView(s, worker), DoExecute(s, worker, statement);
      var u := Effect(v, statement);
      assert PassInv(s, v.w);
      EffectPass(v, statement);
      InstallOwn(s, worker, u);
      ExecutePass(s, worker, statement);
      ExecuteDelivered(s, worker, statement);
      forall w | w in t.workers && w != worker ensures PassInv(t, t.workers[w]) {
        ExecuteOther(s, worker, u, w);
      }
      forall order ensures DeliveredInv(t, order) {
        assert DeliveredInv(s, order);
        if order != v.w.order { InstallFrame(s, worker, u, order); }
      }
    }
  }

  lemma ExecuteOther(s: State, worker: nat, u: View, w: nat)
    requires SafetyInv(s) && worker in s.workers && w in s.workers && w != worker
    requires Driving(s.workers[worker]) || u == LocalView(s, worker)
    requires LocalView(s, worker).status.Some? <==> u.status.Some?
    requires LocalView(s, worker).row.Some? ==> u.row.Some?
    ensures PassInv(Install(s, worker, u), s.workers[w])
  {
    var mine, other := s.workers[worker], s.workers[w];
    assert PassInv(s, other) && PassInv(s, mine);
    if Driving(other) {
      if Driving(mine) {
        assert other.order != mine.order;
        InstallFrame(s, worker, u, other.order);
      } else {
        InstallUnchanged(s, worker);
      }
    }
  }

  lemma InstallUnchanged(s: State, worker: nat)
    requires worker in s.workers
    ensures var t := Install(s, worker, LocalView(s, worker));
            && t.orders == s.orders && t.steps == s.steps && t.workers == s.workers && t.finals == s.finals
  {
  }

  // ------------------------------------------------------------ the other actions

  lemma StartSafe(s: State, worker: nat, realm: string)
    requires SafetyInv(s) && forall w :: w in s.workers ==> s.workers[w].realm != realm
    ensures SafetyInv(DoStartServer(s, worker, realm))
  {
    var t := DoStartServer(s, worker, realm);
    forall o ensures DeliveredInv(t, o) { assert DeliveredInv(s, o); }
    forall w | w in t.workers ensures PassInv(t, t.workers[w]) {
      if w in s.workers { assert PassInv(s, s.workers[w]); }
    }
  }

  lemma CrashSafe(s: State, worker: nat)
    requires SafetyInv(s)
    ensures SafetyInv(DoCrash(s, worker))
  {
    var t := DoCrash(s, worker);
    forall o ensures DeliveredInv(t, o) { assert DeliveredInv(s, o); }
    forall w | w in t.workers ensures PassInv(t, t.workers[w]) { assert PassInv(s, s.workers[w]); }
  }

  lemma PurchaseSafe(s: State, order: nat, realm: string, total: nat, goods: Goods)
    requires SafetyInv(s)
    ensures SafetyInv(DoPurchase(s, order, realm, total, goods))
  {
    hide PlanFor;
    var t := DoPurchase(s, order, realm, total, goods);
    assert t.workers == s.workers && t.steps == s.steps && t.finals == s.finals;
    forall o ensures DeliveredInv(t, o) { assert DeliveredInv(s, o); }
    forall w | w in t.workers ensures PassInv(t, t.workers[w]) { assert PassInv(s, s.workers[w]); }
  }

  lemma ResetSafe(s: State, worker: nat, db: Db)
    requires SafetyInv(s)
    ensures SafetyInv(DoResetInterrupted(s, worker, db))
  {
    var t := DoResetInterrupted(s, worker, db);
    forall o ensures DeliveredInv(t, o) { assert DeliveredInv(s, o); }
    forall w | w in t.workers ensures PassInv(t, t.workers[w]) {
      assert PassInv(s, s.workers[w]);
    }
  }

  /** A pass does not notice what happens to the status of another order. */
  lemma StatusPass(s: State, order: nat, status: OrderStatus, w: Worker)
    requires order in s.orders && PassInv(s, w) && (Driving(w) ==> w.order != order)
    ensures PassInv(SetStatus(s, order, status), w)
  {
  }

  lemma DriverRealm(s: State, w: Worker)
    requires PassInv(s, w) && Driving(w)
    ensures InRealm(s, w.order, w.realm)
  {
  }

  lemma ClaimedPass(s: State, w: Worker, order: nat)
    requires InRealm(s, order, w.realm) && !Has(s, order, Delivered)
    ensures PassInv(s, w.(pc := Claimed, order := order, plan := [], at := 0))
  {
  }

  lemma ClaimSafe(s: State, worker: nat, order: nat, db: Db)
    requires SafetyInv(s)
    ensures SafetyInv(DoClaimOrder(s, worker, order, db))
  {
    hide PassInv;
    var t := DoClaimOrder(s, worker, order, db);
    forall o ensures DeliveredInv(t, o) { assert DeliveredInv(s, o); }
    if t != s {
      var m := if Written(db) then SetStatus(s, order, Delivering) else s;
      forall w | w in s.workers ensures PassInv(m, s.workers[w]) {
        if Driving(s.workers[w]) { DriverRealm(s, s.workers[w]); }
        StatusPass(s, order, Delivering, s.workers[w]);
      }
      ClaimedPass(m, s.workers[worker], order);
      SameTables(m, t);
    }
  }

  lemma SameTables(s: State, t: State)
    requires t.orders == s.orders && t.steps == s.steps && t.finals == s.finals
    ensures forall w :: PassInv(t, w) == PassInv(s, w)
    ensures forall order :: DeliveredInv(t, order) == DeliveredInv(s, order)
  {
  }

  lemma PlannedPass(s: State, w: Worker, plan: Option<seq<PlanStep>>)
    requires PassInv(s, w) && w.pc == Claimed
    ensures PassInv(s, w.(pc := Reviewing))
    ensures plan.Some? ==> PassInv(s,
        w.(plan := plan.value, at := 0, pc := if plan.value == [] then Finishing else Inserting))
  {
  }

  lemma PlanSafe(s: State, worker: nat, character: Character, plan: Option<seq<PlanStep>>)
    requires SafetyInv(s) && At(s, worker, Claimed)
    ensures SafetyInv(TakePlan(s, worker, character, plan))
  {
    hide PassInv, DeliveredInv;
    var t := TakePlan(s, worker, character, plan);
    SameTables(s, t);
    PlannedPass(s, s.workers[worker], plan);
    forall o ensures DeliveredInv(t, o) { assert DeliveredInv(s, o); }
    forall w | w in t.workers ensures PassInv(t, t.workers[w]) {
      assert PassInv(s, s.workers[w]);
    }
  }

  /** Changing one order's status, to anything but delivered or delivering,
      invalidates nobody's pass. */
  lemma StatusSafe(s: State, order: nat, status: OrderStatus)
    requires SafetyInv(s) && order in s.orders && !Has(s, order, Delivered) && status != Delivered
    requires status != Delivering
    ensures SafetyInv(SetStatus(s, order, status))
  {
    var t := SetStatus(s, order, status);
    forall o ensures DeliveredInv(t, o) { assert DeliveredInv(s, o); }
    forall w | w in t.workers ensures PassInv(t, t.workers[w]) { assert PassInv(s, s.workers[w]); }
  }

  /** Reconciliation may land at any moment: it takes the order out of
      'delivering', which is all that the pass invariant asks. */
  lemma ResolveSafe(s: State, order: nat, key: string, realm: string, resolution: Resolution)
    requires SafetyInv(s)
    ensures SafetyInv(DoResolveStep(s, order, key, realm, resolution))
  {
    if Resolvable(s, order, key, realm) {
      var t := DoResolveStep(s, order, key, realm, resolution);
      var u := SetStatus(s, order, Pending);
      StatusSafe(s, order, Pending);
      assert t.orders == u.orders && t.workers == u.workers && t.finals == u.finals;
      assert forall id: StepId, status :: id.order != order ==> StepIs(t, id, status) == StepIs(u, id, status);
      forall o ensures DeliveredInv(t, o) { assert DeliveredInv(u, o); }
      forall w | w in t.workers ensures PassInv(t, t.workers[w]) { assert PassInv(u, u.workers[w]); }
    }
  }

  lemma SafeStep(s: State, a: Action)
    requires SafetyInv(s) && Exclusive(s, a)
    ensures SafetyInv(Next(s, a))
  {
    match a
    case Purchase(order, realm, total, goods) => PurchaseSafe(s, order, realm, total, goods);
    case StartServer(worker, realm) => StartSafe(s, worker, realm);
    case Crash(worker) => CrashSafe(s, worker);
    case ResetInterrupted(worker, db) => ResetSafe(s, worker, db);
    case ClaimOrder(worker, order, db) => ClaimSafe(s, worker, order, db);
    case LoadPlan(worker, character, table) =>
      if At(s, worker, Claimed) && s.workers[worker].order in s.orders {
        PlanSafe(s, worker, character, PlanFor(s.orders[s.workers[worker].order].goods, table));
      }
    case Execute(worker, statement) => ExecuteSafe(s, worker, statement);
    case RetryOrder(order, realm) =>
      if Next(s, a) != s { StatusSafe(s, order, Pending); }
    case RefundOrder(order, realm) =>
      if Refundable(s, order, realm) {
        StatusSafe(s, order, Refunded);
        RefundCredits(s, order, realm);
      }
    case ResolveStep(order, key, realm, resolution) => ResolveSafe(s, order, key, realm, resolution);
  }

  lemma RefundCredits(s: State, order: nat, realm: string)
    requires Refundable(s, order, realm) && SafetyInv(SetStatus(s, order, Refunded))
    ensures SafetyInv(DoRefundOrder(s, order, realm))
  {
    var t, u := DoRefundOrder(s, order, realm), SetStatus(s, order, Refunded);
    forall o ensures DeliveredInv(t, o) { assert DeliveredInv(u, o); }
    forall w | w in t.workers ensures PassInv(t, t.workers[w]) { assert PassInv(u, u.workers[w]); }
  }

  lemma {:induction false} SafeRun(run: seq<Action>)
    requires Throughout(EMPTY, run, Exclusive)
    ensures SafetyInv(Play(EMPTY, run))
  {
    if run != [] {
      SafeRun(run[..|run| - 1]);
      SafeStep(Play(EMPTY, run[..|run| - 1]), run[|run| - 1]);
    }
  }

  /** In every interleaving with crashes, lost statements, changing stack tables
      and staff reconciling at any moment, given one live worker per realm: an
      order that reads 'delivered' has every step of the plan it was delivered
      with completed. If the final UPDATE still sees 'delivering', no
      reconciliation fell inside the pass. */
  lemma DeliveredMeansEveryStepCompleted(run: seq<Action>, order: nat)
    requires Throughout(EMPTY, run, Exclusive)
    requires Has(Play(EMPTY, run), order, Delivered)
    ensures var s := Play(EMPTY, run);
            order in s.finals &&
            forall j :: 0 <= j < |s.finals[order]| ==> StepIs(s, StepId(order, s.finals[order][j].key), Completed)
  {
    SafeRun(run);
    assert DeliveredInv(Play(EMPTY, run), order);
  }

  // ------------------------------------------------------------ refunds

  ghost predicate SomeCompleted(s: State, order: nat) {
    exists id: StepId :: id.order == order && StepIs(s, id, Completed)
  }

  /** Out of reach of a refund. */
  ghost predicate Kept(s: State, order: nat) {
    !Has(s, order, Refunded) && (Has(s, order, Delivering) || SomeCompleted(s, order))
  }

  ghost predicate DriverInv(s: State, v: nat) {
    v in s.workers && Driving(s.workers[v]) ==>
      && Kept(s, s.workers[v].order)
      && forall w :: w in s.workers && w != v && Driving(s.workers[w]) && s.workers[w].order == s.workers[v].order ==>
           SomeCompleted(s, s.workers[v].order)
  }

  ghost predicate RowClean(s: State, id: StepId) {
    id in s.steps ==> id.order in s.orders && (Has(s, id.order, Refunded) ==> s.steps[id] != Completed)
  }

  /** An order somebody drives is 'delivering' or has a completed step, and has
      one if two workers drive it; a refunded order has none. */
  ghost predicate RefundInv(s: State) {
    (forall w :: DriverInv(s, w)) && (forall id :: RowClean(s, id))
  }

  /** No completed step is lost, no order leaves 'delivering' and none becomes
      refunded; workers drive what they drove. */
  lemma KeepsRefund(s: State, t: State)
    requires RefundInv(s)
    requires t.steps == s.steps && s.orders.Keys <= t.orders.Keys
    requires forall order :: Has(s, order, Delivering) ==> Has(t, order, Delivering)
    requires forall order :: Has(t, order, Refunded) ==> Has(s, order, Refunded)
    requires forall w :: w in t.workers && Driving(t.workers[w]) ==>
               w in s.workers && Driving(s.workers[w]) && s.workers[w].order == t.workers[w].order
    ensures RefundInv(t)
  {
    assert forall order :: SomeCompleted(s, order) ==> SomeCompleted(t, order) by {
      assert forall id, status :: StepIs(t, id, status) == StepIs(s, id, status);
    }
    forall w ensures DriverInv(t, w) { assert DriverInv(s, w); }
    forall id ensures RowClean(t, id) { assert RowClean(s, id); }
  }

  lemma EffectRefund(v: View, statement: Statement)
    ensures var u := Effect(v, statement);
            && (v.status != Some(Refunded) ==> u.status != Some(Refunded))
            && (v.status.Some? <==> u.status.Some?)
            && (v.row == Some(Completed) ==> u.row == Some(Completed))
            && (v.row.Some? ==> u.row.Some?)
            && (v.status == Some(Delivering) && u.status != Some(Delivering) ==> !Driving(u.w))
            && u.w.order == v.w.order && (Driving(u.w) ==> Driving(v.w))
            && (!Driving(v.w) ==> u == v)
  {
  }

  /** A statement of a driving worker. */
  ghost predicate Steps(s: State, t: State, worker: nat, u: View) {
    && worker in s.workers && Driving(s.workers[worker])
    && t.workers == s.workers[worker := u.w] && u.w.order == s.workers[worker].order
    && t.orders.Keys == s.orders.Keys
    && (forall order, status :: order != s.workers[worker].order ==> Has(t, order, status) == Has(s, order, status))
    && (forall id :: id in s.steps ==> id in t.steps)
    && (forall id :: StepIs(s, id, Completed) ==> StepIs(t, id, Completed))
    && (forall id: StepId :: id.order != s.workers[worker].order ==>
          (id in t.steps <==> id in s.steps) && (id in t.steps ==> t.steps[id] == s.steps[id]))
    && !Has(t, s.workers[worker].order, Refunded)
    && (Has(s, s.workers[worker].order, Delivering) && Driving(u.w) ==> Has(t, s.workers[worker].order, Delivering))
  }

  lemma ExecuteSteps(s: State, worker: nat, statement: Statement)
    requires RefundInv(s) && worker in s.workers && Driving(s.workers[worker])
    ensures Steps(s, DoExecute(s, worker, statement), worker, Effect(LocalView(s, worker), statement))
  {
    hide Effect;
    var v := LocalView(s, worker);
    var u := Effect(v, statement);
    EffectRefund(v, statement);
    assert DriverInv(s, worker);
  }

  lemma StepsRefund(s: State, t: State, worker: nat, u: View)
    requires RefundInv(s) && Steps(s, t, worker, u)
    ensures RefundInv(t)
  {
    var order := s.workers[worker].order;
    assert DriverInv(s, worker);
    if !Has(s, order, Delivering) {
      var id: StepId :| id.order == order && StepIs(s, id, Completed);
      assert RowClean(s, id);
    }
    assert forall o :: SomeCompleted(s, o) ==> SomeCompleted(t, o);
    forall w ensures DriverInv(t, w) {
      assert DriverInv(s, w);
    }
    forall id ensures RowClean(t, id) { assert RowClean(s, id); }
  }

  lemma ExecuteRefund(s: State, worker: nat, statement: Statement)
    requires RefundInv(s)
    ensures RefundInv(DoExecute(s, worker, statement))
  {
    hide Effect, Install, RefundInv, Steps;
    if worker in s.workers {
      var t, u := DoExecute(s, worker, statement), Effect(LocalView(s, worker), statement);
      if Driving(s.workers[worker]) {
        ExecuteSteps(s, worker, statement);
        StepsRefund(s, t, worker, u);
      } else {
        EffectRefund(LocalView(s, worker), statement);
        InstallUnchanged(s, worker);
        KeepsRefund(s, t);
      }
    }
  }

  lemma ResolveRefund(s: State, order: nat, key: string, realm: string, resolution: Resolution)
    requires RefundInv(s) && (resolution == RetryStep ==> !Driven(s, order))
    ensures RefundInv(DoResolveStep(s, order, key, realm, resolution))
  {
    if Resolvable(s, order, key, realm) {
      var t, own := DoResolveStep(s, order, key, realm, resolution), StepId(order, key);
      assert forall id :: id != own && StepIs(s, id, Completed) ==> StepIs(t, id, Completed);
      assert resolution == MarkCompleted ==> StepIs(t, own, Completed);
      assert forall o :: o != order && SomeCompleted(s, o) ==> SomeCompleted(t, o);
      forall w ensures DriverInv(t, w) {
        assert DriverInv(s, w);
        if w in s.workers && Driving(s.workers[w]) && s.workers[w].order == order { assert Driven(s, order); }
      }
      forall id ensures RowClean(t, id) { assert RowClean(s, id); }
    }
  }

  /** One more driver for a 'delivering' order. */
  lemma DriverAdded(s: State, worker: nat, w: Worker)
    requires RefundInv(s) && Has(s, w.order, Delivering)
    requires Driven(s, w.order) ==> SomeCompleted(s, w.order)
    ensures RefundInv(Put(s, worker, w))
  {
    var t := Put(s, worker, w);
    assert SomeCompleted(s, w.order) ==> SomeCompleted(t, w.order) by {
      assert forall id, status :: StepIs(t, id, status) == StepIs(s, id, status);
    }
    forall v ensures DriverInv(t, v) {
      assert DriverInv(s, v);
      if v in s.workers && Driving(s.workers[v]) { assert Driven(s, s.workers[v].order); }
    }
    forall id ensures RowClean(t, id) { assert RowClean(s, id); }
  }

  lemma ClaimRefund(s: State, worker: nat, order: nat, db: Db)
    requires RefundInv(s)
    ensures RefundInv(DoClaimOrder(s, worker, order, db))
  {
    var t := DoClaimOrder(s, worker, order, db);
    if t != s {
      var m := SetStatus(s, order, Delivering);
      assert RefundInv(m) by { hide RefundInv; KeepsRefund(s, m); }
      if Driven(m, order) {
        var w :| w in s.workers && Driving(s.workers[w]) && s.workers[w].order == order;
        assert DriverInv(s, w) && SomeCompleted(m, order);
      }
      DriverAdded(m, worker, s.workers[worker].(pc := Claimed, order := order, plan := [], at := 0));
    }
  }

  lemma ResetRefund(s: State, worker: nat, db: Db)
    requires RefundInv(s) && NoDrivenReset(s, ResetInterrupted(worker, db))
    ensures RefundInv(DoResetInterrupted(s, worker, db))
  {
    var t := DoResetInterrupted(s, worker, db);
    assert t.steps == s.steps;
    assert forall o :: SomeCompleted(s, o) ==> SomeCompleted(t, o) by {
      assert forall id, status :: StepIs(t, id, status) == StepIs(s, id, status);
    }
    forall w ensures DriverInv(t, w) {
      assert DriverInv(s, w);
      if w in s.workers && Driving(s.workers[w]) { assert Driven(s, s.workers[w].order); }
    }
    forall id ensures RowClean(t, id) { assert RowClean(s, id); }
  }

  lemma RefundRefund(s: State, order: nat, realm: string)
    requires RefundInv(s)
    ensures RefundInv(DoRefundOrder(s, order, realm))
  {
    var t := DoRefundOrder(s, order, realm);
    assert forall o :: SomeCompleted(s, o) ==> SomeCompleted(t, o) by {
      assert forall id, status :: StepIs(t, id, status) == StepIs(s, id, status);
    }
    forall w ensures DriverInv(t, w) { assert DriverInv(s, w); }
    forall id ensures RowClean(t, id) { assert RowClean(s, id); }
  }

  lemma ServerRefund(s: State, worker: nat, realm: string)
    requires RefundInv(s)
    ensures RefundInv(DoStartServer(s, worker, realm)) && RefundInv(DoCrash(s, worker))
  {
    hide RefundInv;
    KeepsRefund(s, DoStartServer(s, worker, realm));
    KeepsRefund(s, DoCrash(s, worker));
  }

  lemma OrdersRefund(s: State, a: Action)
    requires RefundInv(s) && (a.Purchase? || a.RetryOrder?)
    ensures RefundInv(Next(s, a))
  {
    hide PlanFor, DoExecute, DoLoadPlan, DoResolveStep, DoRefundOrder, DoClaimOrder, DoResetInterrupted, RefundInv;
    KeepsRefund(s, Next(s, a));
  }

  lemma PlanRefund(s: State, worker: nat, character: Character, plan: Option<seq<PlanStep>>)
    requires RefundInv(s) && At(s, worker, Claimed)
    ensures RefundInv(TakePlan(s, worker, character, plan))
  {
    KeepsRefund(s, TakePlan(s, worker, character, plan));
  }

  lemma RefundStep(s: State, a: Action)
    requires RefundInv(s) && SparesDriven(s, a)
    ensures RefundInv(Next(s, a))
  {
    hide DoExecute, DoClaimOrder, DoResetInterrupted, DoResolveStep, DoRefundOrder, PlanFor, RefundInv, NoDrivenReset;
    match a
    case ResetInterrupted(worker, db) => ResetRefund(s, worker, db);
    case ClaimOrder(worker, order, db) => ClaimRefund(s, worker, order, db);
    case LoadPlan(worker, character, table) =>
      if At(s, worker, Claimed) && s.workers[worker].order in s.orders {
        PlanRefund(s, worker, character, PlanFor(s.orders[s.workers[worker].order].goods, table));
      }
    case Execute(worker, statement) => ExecuteRefund(s, worker, statement);
    case RefundOrder(order, realm) => RefundRefund(s, order, realm);
    case ResolveStep(order, key, realm, resolution) => ResolveRefund(s, order, key, realm, resolution);
    case StartServer(worker, realm) => ServerRefund(s, worker, realm);
    case Crash(worker) => ServerRefund(s, worker, "");
    case _ => OrdersRefund(s, a);
  }

  lemma {:induction false} RefundRun(run: seq<Action>)
    requires Throughout(EMPTY, run, SparesDriven)
    ensures RefundInv(Play(EMPTY, run))
  {
    if run != [] {
      RefundRun(run[..|run| - 1]);
      RefundStep(Play(EMPTY, run[..|run| - 1]), run[|run| - 1]);
    }
  }

  /** For any number of workers: while no live worker's order has a step put back
      or is reset under it, a refunded order never has a completed step, then or
      later. Staff may mark any step completed at any time. */
  lemma RefundedMeansNothingCompleted(run: seq<Action>, order: nat, key: string)
    requires Throughout(EMPTY, run, SparesDriven)
    requires Has(Play(EMPTY, run), order, Refunded)
    ensures !StepIs(Play(EMPTY, run), StepId(order, key), Completed)
  {
    RefundRun(run);
    assert RowClean(Play(EMPTY, run), StepId(order, key));
  }

  /** One live worker per realm, and no put-back of a step of an order it drives. */
  ghost predicate Disciplined(s: State, a: Action) {
    Exclusive(s, a) && NoDrivenPutBack(s, a)
  }

  lemma SoleWorkerResetsNothing(s: State, a: Action)
    requires SafetyInv(s)
    ensures NoDrivenReset(s, a)
  {
    forall w | w in s.workers ensures PassInv(s, s.workers[w]) {}
  }

  /** With one live worker per realm a starting server finds no order driven. */
  lemma {:induction false} DisciplineSpares(run: seq<Action>)
    requires Throughout(EMPTY, run, Disciplined)
    ensures Throughout(EMPTY, run, SparesDriven) && SafetyInv(Play(EMPTY, run))
  {
    if run != [] {
      var init, last := run[..|run| - 1], run[|run| - 1];
      DisciplineSpares(init);
      SoleWorkerResetsNothing(Play(EMPTY, init), last);
      SafeStep(Play(EMPTY, init), last);
    }
  }
}
