/** Order fulfilment as a protocol: every SQL statement or transaction of the
    delivery worker and of the staff actions is one atomic step, and the worker
    carries an explicit program counter, so that a crash, a restart, another
    worker or a member of staff can fall between any two statements. */
module Fulfilment {
  import opened Common
  import opened DeliveryPlan

  datatype OrderStatus = Pending | Delivering | Delivered | Review | Failed | Refunded

  /** 'pending', 'executing', 'completed' and 'failed' of portal_order_steps. */
  datatype StepStatus = Waiting | Executing | Completed | Faulted

  datatype Order = Order(realm: string, total: nat, goods: Goods, status: OrderStatus)

  /** The primary key of portal_order_steps. */
  datatype StepId = StepId(order: nat, key: string)

  /** The statement a worker executes next. */
  datatype Pc =
    | Booting                 // the reset before the delivery loop
    | Idle                    // waiting for the ticker
    | Claimed                 // order claimed, plan not built yet
    | Inserting               // INSERT IGNORE of the step row
    | Selecting               // reading the step's status
    | Starting                // compare-and-set to 'executing'
    | Sending                 // about to run the command
    | Awaiting(applied: bool) // command sent; did the realm apply it?
    | Failing(applied: bool)  // recording a fault; did the realm apply it all the same?
    | Completing              // recording success
    | Finishing               // the final UPDATE of the order
    | Reviewing               // giving the order up for review

  datatype Worker = Worker(realm: string, pc: Pc, order: nat, plan: seq<PlanStep>, at: nat)

  /** What a statement did and what its caller was told: applied and
      acknowledged, applied but reported as an error, or not applied. */
  datatype Db = Done | Lost | Refused

  /** What the worker finds before it can plan an order. */
  datatype Character = Ready | Missing | Online | UnsafeName | Unreadable

  datatype Resolution = RetryStep | MarkCompleted

  /** What happened to one step, for stating properties only. `denied` counts
      the applied commands that stand recorded as faults; staff who mark such a
      step completed take one back. */
  datatype History = History(runs: nat, faults: nat, denied: nat, retries: nat, applied: seq<Command>)

  datatype State = State(
    orders: map<nat, Order>,
    steps: map<StepId, StepStatus>,
    workers: map<nat, Worker>,
    history: map<StepId, History>,
    returned: map<nat, nat>,          // credits given back, by order
    finals: map<nat, seq<PlanStep>>)  // the plan of the pass that delivered the order

  /** The statements of one pass over a plan, with what comes back from the
      database or from the realm. */
  datatype Statement =
    | InsertStep(db: Db)
    | SelectStep(readable: bool)
    | StartStep(db: Db)
    | SendCommand(applied: bool)
    | ReceiveReply(ok: bool)
    | RecordFault(db: Db)
    | RecordCompletion(db: Db)
    | FinishOrder(db: Db)
    | ReviewOrder(db: Db)

  datatype Action =
    | Purchase(order: nat, realm: string, total: nat, goods: Goods)
    | StartServer(worker: nat, realm: string)
    | Crash(worker: nat)
    | ResetInterrupted(worker: nat, db: Db)
    | ClaimOrder(worker: nat, order: nat, db: Db)
    | LoadPlan(worker: nat, character: Character, table: StackTable)
    | Execute(worker: nat, statement: Statement)
    | RetryOrder(order: nat, realm: string)
    | RefundOrder(order: nat, realm: string)
    | ResolveStep(order: nat, key: string, realm: string, resolution: Resolution)

  const NOTHING := History(0, 0, 0, 0, [])

  const EMPTY := State(map[], map[], map[], map[], map[], map[])

  function HistoryOf(s: State, id: StepId): History {
    if id in s.history then s.history[id] else NOTHING
  }

  predicate Has(s: State, order: nat, status: OrderStatus) {
    order in s.orders && s.orders[order].status == status
  }

  predicate StepIs(s: State, id: StepId, status: StepStatus) {
    id in s.steps && s.steps[id] == status
  }

  /** A step the compare-and-set would take, or could take once its row exists. */
  predicate Startable(s: State, id: StepId) {
    id !in s.steps || s.steps[id] == Waiting || s.steps[id] == Faulted
  }

  predicate At(s: State, worker: nat, pc: Pc) {
    worker in s.workers && s.workers[worker].pc == pc
  }

  /** Between claiming an order and giving it up again. */
  predicate Driving(w: Worker) {
    w.pc != Booting && w.pc != Idle
  }

  /** Inside runOrderStep for step `at` of the plan. */
  predicate InStep(w: Worker) {
    w.pc == Inserting || w.pc == Selecting || w.pc == Starting || InCommand(w)
  }

  /** Between a successful compare-and-set and the record of its outcome. */
  predicate InCommand(w: Worker) {
    w.pc == Sending || w.pc.Awaiting? || w.pc.Failing? || w.pc == Completing
  }

  function CurrentKey(w: Worker): string {
    if w.at < |w.plan| then w.plan[w.at].key else ""
  }

  function CurrentId(w: Worker): StepId {
    StepId(w.order, CurrentKey(w))
  }

  predicate Written(db: Db) { db != Refused }

  // ------------------------------------------------------------ state updates

  function SetStatus(s: State, order: nat, status: OrderStatus): State
    requires order in s.orders
  {
    s.(orders := s.orders[order := s.orders[order].(status := status)])
  }

  function SetStep(s: State, id: StepId, status: StepStatus): State {
    s.(steps := s.steps[id := status])
  }

  function Put(s: State, worker: nat, w: Worker): State {
    s.(workers := s.workers[worker := w])
  }

  function Note(s: State, id: StepId, h: History): State {
    s.(history := s.history[id := h])
  }

  function Goto(s: State, worker: nat, pc: Pc): State
    requires worker in s.workers
  {
    Put(s, worker, s.workers[worker].(pc := pc))
  }

  /** Leaving runOrderStep without an error: on to the next step, or to the
      final UPDATE after the last one. */
  function NextStep(w: Worker): Worker {
    if w.at + 1 < |w.plan| then w.(pc := Inserting, at := w.at + 1) else w.(pc := Finishing)
  }

  // ------------------------------------------------------------ server life cycle

  function DoPurchase(s: State, order: nat, realm: string, total: nat, goods: Goods): State {
    if order in s.orders then s
    else s.(orders := s.orders[order := Order(realm, total, goods, Pending)])
  }

  function DoStartServer(s: State, worker: nat, realm: string): State {
    if worker in s.workers then s else Put(s, worker, Worker(realm, Booting, 0, [], 0))
  }

  function DoCrash(s: State, worker: nat): State {
    s.(workers := s.workers - {worker})
  }

  /** Orders a dead worker left in 'delivering' go to review; the loop starts
      whether or not the statement succeeded. */
  function DoResetInterrupted(s: State, worker: nat, db: Db): State {
    if !At(s, worker, Booting) then s
    else
      var orders :=
        if Written(db) then
          map o | o in s.orders ::
            if s.orders[o].status == Delivering && s.orders[o].realm == s.workers[worker].realm
            then s.orders[o].(status := Review) else s.orders[o]
        else s.orders;
      Goto(s.(orders := orders), worker, Idle)
  }

  // ------------------------------------------------------------ the worker

  /** Any pending order of the realm: rows locked elsewhere are skipped, so the
      lowest id is not guaranteed. A lost COMMIT leaves the order 'delivering'
      with nobody driving it. */
  function DoClaimOrder(s: State, worker: nat, order: nat, db: Db): State {
    if !At(s, worker, Idle) || !Has(s, order, Pending) || s.orders[order].realm != s.workers[worker].realm then s
    else
      var t := if Written(db) then SetStatus(s, order, Delivering) else s;
      if db == Done then Put(t, worker, s.workers[worker].(pc := Claimed, order := order, plan := [], at := 0)) else t
  }

  function DoLoadPlan(s: State, worker: nat, character: Character, table: StackTable): State {
    if !At(s, worker, Claimed) || s.workers[worker].order !in s.orders then s
    else TakePlan(s, worker, character, PlanFor(s.orders[s.workers[worker].order].goods, table))
  }

  function TakePlan(s: State, worker: nat, character: Character, plan: Option<seq<PlanStep>>): State
    requires worker in s.workers
  {
    if character != Ready || plan == None then Goto(s, worker, Reviewing)
    else
      Put(s, worker, s.workers[worker].(plan := plan.value, at := 0,
                                        pc := if plan.value == [] then Finishing else Inserting))
  }

  /** What one statement of a pass can see and change: the worker itself, the
      status of its order, the row of its current step and that row's history. */
  datatype View = View(w: Worker, status: Option<OrderStatus>, row: Option<StepStatus>, h: History)

  function LocalView(s: State, worker: nat): View
    requires worker in s.workers
  {
    var w := s.workers[worker];
    var id := CurrentId(w);
    View(w,
         if w.order in s.orders then Some(s.orders[w.order].status) else None,
         if id in s.steps then Some(s.steps[id]) else None,
         HistoryOf(s, id))
  }

  function WithFault(h: History, applied: bool): History {
    h.(faults := h.faults + 1, denied := h.denied + if applied then 1 else 0)
  }

  function Moved(v: View, pc: Pc): View {
    v.(w := v.w.(pc := pc))
  }

  function Effect(v: View, statement: Statement): View {
    match statement
    case InsertStep(db) =>
      if v.w.pc != Inserting then v
      else
        var u := if Written(db) && v.row == None then v.(row := Some(Waiting)) else v;
        Moved(u, if db == Done then Selecting else Reviewing)
    case SelectStep(readable) =>
      if v.w.pc != Selecting then v
      else if !readable || v.row == None then Moved(v, Reviewing)
      else if v.row == Some(Completed) then v.(w := NextStep(v.w))
      else Moved(v, if v.row == Some(Executing) then Reviewing else Starting)
    case StartStep(db) =>
      if v.w.pc != Starting then v
      else
        var changed := Written(db) && (v.row == Some(Waiting) || v.row == Some(Faulted));
        var u := if changed then v.(row := Some(Executing)) else v;
        Moved(u, if db == Done && changed then Sending else Reviewing)
    case SendCommand(applied) =>
      // The command leaves the process; the realm applies it or does not.
      if v.w.pc != Sending then v
      else
        var done := if applied && v.w.at < |v.w.plan| then v.h.applied + [v.w.plan[v.w.at].command] else v.h.applied;
        Moved(v.(h := v.h.(runs := v.h.runs + 1, applied := done)), Awaiting(applied))
    case ReceiveReply(ok) =>
      if !v.w.pc.Awaiting? then v
      else Moved(v, if ok then Completing else Failing(v.w.pc.applied))
    case RecordFault(db) =>
      if !v.w.pc.Failing? then v
      else
        var changed := Written(db) && v.row == Some(Executing);
        var u := if changed then v.(row := Some(Faulted), h := WithFault(v.h, v.w.pc.applied)) else v;
        Moved(u, Reviewing)
    case RecordCompletion(db) =>
      // The completing UPDATE does not look at the number of rows it changed.
      if v.w.pc != Completing then v
      else
        var u := if Written(db) && v.row == Some(Executing) then v.(row := Some(Completed)) else v;
        if db == Done then u.(w := NextStep(v.w)) else Moved(u, Reviewing)
    case FinishOrder(db) =>
      if v.w.pc != Finishing then v
      else
        var u := if Written(db) && v.status == Some(Delivering) then v.(status := Some(Delivered)) else v;
        Moved(u, Idle)
    case ReviewOrder(db) =>
      if v.w.pc != Reviewing then v
      else
        var u := if Written(db) && v.status == Some(Delivering) then v.(status := Some(Review)) else v;
        Moved(u, Idle)
  }

  /** Writing a view back; an order that becomes delivered remembers the plan it
      was delivered with. */
  function Install(s: State, worker: nat, v: View): State
    requires worker in s.workers
  {
    var w := s.workers[worker];
    var id := CurrentId(w);
    var stored := w.order in s.orders && v.status.Some?;
    s.(orders := if stored then s.orders[w.order := s.orders[w.order].(status := v.status.value)] else s.orders,
       steps := if v.row.Some? then s.steps[id := v.row.value] else s.steps,
       workers := s.workers[worker := v.w],
       history := if v.h == HistoryOf(s, id) then s.history else s.history[id := v.h],
       finals := if stored && v.status == Some(Delivered) && s.orders[w.order].status != Delivered
                 then s.finals[w.order := w.plan] else s.finals)
  }

  function DoExecute(s: State, worker: nat, statement: Statement): State {
    if worker !in s.workers then s
    else Install(s, worker, Effect(LocalView(s, worker), statement))
  }

  // ------------------------------------------------------------ staff

  predicate InRealm(s: State, order: nat, realm: string) {
    order in s.orders && s.orders[order].realm == realm
  }

  function DoRetryOrder(s: State, order: nat, realm: string): State {
    if InRealm(s, order, realm) && (Has(s, order, Review) || Has(s, order, Failed))
    then SetStatus(s, order, Pending) else s
  }

  /** Only completed steps stop a refund; an executing one does not. */
  predicate Refundable(s: State, order: nat, realm: string) {
    && InRealm(s, order, realm)
    && (Has(s, order, Pending) || Has(s, order, Review) || Has(s, order, Failed))
    && forall id :: id in s.steps && id.order == order ==> s.steps[id] != Completed
  }

  function Returned(s: State, order: nat): nat {
    if order in s.returned then s.returned[order] else 0
  }

  function DoRefundOrder(s: State, order: nat, realm: string): State {
    if Refundable(s, order, realm)
    then SetStatus(s, order, Refunded).(returned := s.returned[order := Returned(s, order) + s.orders[order].total])
    else s
  }

  /** Reconciliation looks at the order's status only to exclude delivered and
      refunded orders, and never at the step's own status. */
  predicate Resolvable(s: State, order: nat, key: string, realm: string) {
    InRealm(s, order, realm) && StepId(order, key) in s.steps && !Has(s, order, Delivered) && !Has(s, order, Refunded)
  }

  /** The last application on record, if every one was recorded as a fault. */
  function Acknowledged(h: History): History {
    if |h.applied| == h.denied > 0 then h.(denied := h.denied - 1) else h
  }

  function DoResolveStep(s: State, order: nat, key: string, realm: string, resolution: Resolution): State {
    if !Resolvable(s, order, key, realm) then s
    else
      var id := StepId(order, key);
      var h := HistoryOf(s, id);
      var t := SetStatus(s, order, Pending);
      match resolution
      case MarkCompleted => Note(SetStep(t, id, Completed), id, Acknowledged(h))
      case RetryStep => Note(SetStep(t, id, Waiting), id, h.(retries := h.retries + 1))
  }

  // ------------------------------------------------------------ runs

  /** One step of the system. An action whose actor is not at the right
      statement changes nothing. */
  function Next(s: State, a: Action): State {
    match a
    case Purchase(order, realm, total, goods) => DoPurchase(s, order, realm, total, goods)
    case StartServer(worker, realm) => DoStartServer(s, worker, realm)
    case Crash(worker) => DoCrash(s, worker)
    case ResetInterrupted(worker, db) => DoResetInterrupted(s, worker, db)
    case ClaimOrder(worker, order, db) => DoClaimOrder(s, worker, order, db)
    case LoadPlan(worker, character, table) => DoLoadPlan(s, worker, character, table)
    case Execute(worker, statement) => DoExecute(s, worker, statement)
    case RetryOrder(order, realm) => DoRetryOrder(s, order, realm)
    case RefundOrder(order, realm) => DoRefundOrder(s, order, realm)
    case ResolveStep(order, key, realm, resolution) => DoResolveStep(s, order, key, realm, resolution)
  }

  /** The state after a run. */
  function Play(s: State, run: seq<Action>): State {
    if run == [] then s else Next(Play(s, run[..|run| - 1]), run[|run| - 1])
  }

  /** `ok` holds of every action in the state it is taken in. */
  ghost predicate Throughout(s: State, run: seq<Action>, ok: (State, Action) -> bool) {
    run == [] || (Throughout(s, run[..|run| - 1], ok) && ok(Play(s, run[..|run| - 1]), run[|run| - 1]))
  }
}
