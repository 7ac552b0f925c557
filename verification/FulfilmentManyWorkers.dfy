/** Delivered orders for any number of workers: as long as no step of an order is
    put back under a live worker that drives it, 'delivered' means that every
    step of the delivering plan is completed. */
module FulfilmentManyWorkers {
  import opened Common
  import opened DeliveryPlan
  import opened Fulfilment
  import opened FulfilmentSafety
  import ExactlyOnce = FulfilmentExactlyOnce

  // ------------------------------------------------------------ the invariant

  /** A command in flight still has its row, or staff have marked it completed. */
  predicate RowIsHeld(row: Option<StepStatus>) {
    row == Some(Executing) || row == Some(Completed)
  }

  ghost predicate WorkerInv(s: State, w: Worker) {
    && (InStep(w) ==> w.at < |w.plan|)
    && (InStep(w) || w.pc == Finishing ==> PrefixDone(s, w))
    && (InCommand(w) ==> RowIsHeld(ExactlyOnce.RowOf(s, CurrentId(w))))
  }

  ghost predicate CrowdInv(s: State) {
    && ExactlyOnce.CommandsAreExclusive(s)
    && (forall w :: w in s.workers ==> WorkerInv(s, s.workers[w]))
    && (forall order :: DeliveredInv(s, order))
  }

  // ------------------------------------------------------------ one statement

  ghost predicate Moves(v: View, u: View) {
    && u.w.(pc := v.w.pc, at := v.w.at) == v.w
    && (InStep(u.w) ==> u.w.at < |u.w.plan|)
    && (InStep(u.w) || u.w.pc == Finishing ==> InStep(v.w) || v.w.pc == Finishing)
    && (InCommand(u.w) ==> RowIsHeld(u.row) && InStep(v.w) && u.w.at == v.w.at)
    && (InCommand(u.w) && !InCommand(v.w) ==> !RowIsHeld(v.row))
    && (v.row == Some(Completed) ==> u.row == Some(Completed))
    && (v.row.Some? ==> u.row.Some?)
    && (RowIsHeld(v.row) && !InCommand(v.w) ==> u.row == v.row)
    && (v.status.Some? <==> u.status.Some?)
    && (u.status == Some(Delivered) && v.status != Some(Delivered) ==> v.w.pc == Finishing)
    && (|| DoneUpTo(u.w) <= DoneUpTo(v.w)
        || (InStep(v.w) && DoneUpTo(u.w) == v.w.at + 1 && u.row == Some(Completed)))
  }

  lemma EffectMoves(v: View, statement: Statement)
    requires InStep(v.w) ==> v.w.at < |v.w.plan|
    requires InCommand(v.w) ==> RowIsHeld(v.row)
    ensures Moves(v, Effect(v, statement))
  {
  }

  /** `t` is `s` after a statement of `worker` that turned its view into `u`. */
  ghost predicate Took(s: State, t: State, worker: nat, u: View) {
    && worker in s.workers && t.workers == s.workers[worker := u.w] && Moves(LocalView(s, worker), u)
    && (var w, id := s.workers[worker], CurrentId(s.workers[worker]);
        && ExactlyOnce.RowOf(t, id) == u.row
        && (forall other :: other != id ==> ExactlyOnce.RowOf(t, other) == ExactlyOnce.RowOf(s, other))
        && (forall order :: Has(t, order, Delivered) ==>
              Has(s, order, Delivered)
                  || (order == w.order && w.pc == Finishing && order in t.finals && t.finals[order] == w.plan))
        && (forall order :: Has(s, order, Delivered) && order in s.finals ==>
              order in t.finals && t.finals[order] == s.finals[order]))
  }

  lemma ExecuteTakes(s: State, worker: nat, statement: Statement)
    requires CrowdInv(s) && worker in s.workers
    ensures Took(s, DoExecute(s, worker, statement), worker, Effect(LocalView(s, worker), statement))
  {
    hide Effect, Install;
    var v, t := LocalView(s, worker), DoExecute(s, worker, statement);
    var u := Effect(v, statement);
    assert WorkerInv(s, v.w);
    EffectMoves(v, statement);
    InstallOwn(s, worker, u);
    ExactlyOnce.InstallRows(s, worker, u);
    forall order | order != v.w.order
      ensures Has(t, order, Delivered) == Has(s, order, Delivered)
      ensures order in s.finals ==> order in t.finals && t.finals[order] == s.finals[order]
    {
      InstallFrame(s, worker, u, order);
    }
  }

  lemma CompletedStays(s: State, t: State, worker: nat, u: View, id: StepId)
    requires Took(s, t, worker, u) && StepIs(s, id, Completed)
    ensures StepIs(t, id, Completed)
  {
    assert ExactlyOnce.RowOf(s, id) == Some(Completed);
    assert ExactlyOnce.RowOf(t, id) == Some(Completed);
  }

  lemma TookOwn(s: State, t: State, worker: nat, u: View)
    requires CrowdInv(s) && Took(s, t, worker, u)
    ensures WorkerInv(t, u.w)
  {
    var w := s.workers[worker];
    assert WorkerInv(s, w);
    if InStep(u.w) || u.w.pc == Finishing {
      forall j | 0 <= j < DoneUpTo(u.w) && j < |u.w.plan|
        ensures StepIs(t, StepId(u.w.order, u.w.plan[j].key), Completed)
      {
        if j < DoneUpTo(w) {
          CompletedStays(s, t, worker, u, StepId(w.order, w.plan[j].key));
        } else {
          assert StepId(u.w.order, u.w.plan[j].key) == CurrentId(w);
        }
      }
    }
  }

  lemma TookOther(s: State, t: State, worker: nat, u: View, w: nat)
    requires CrowdInv(s) && Took(s, t, worker, u) && w in s.workers && w != worker
    ensures WorkerInv(t, s.workers[w]) && !ExactlyOnce.Rivals(u.w, s.workers[w])
  {
    var mine, other := s.workers[worker], s.workers[w];
    assert WorkerInv(s, mine) && WorkerInv(s, other);
    if InStep(other) || other.pc == Finishing {
      forall j | 0 <= j < DoneUpTo(other) && j < |other.plan|
        ensures StepIs(t, StepId(other.order, other.plan[j].key), Completed)
      {
        CompletedStays(s, t, worker, u, StepId(other.order, other.plan[j].key));
      }
    }
    if InCommand(other) && CurrentId(other) == CurrentId(mine) { assert !ExactlyOnce.Rivals(mine, other); }
  }

  lemma TookOrder(s: State, t: State, worker: nat, u: View, order: nat)
    requires CrowdInv(s) && Took(s, t, worker, u)
    ensures DeliveredInv(t, order)
  {
    var w := s.workers[worker];
    assert WorkerInv(s, w) && DeliveredInv(s, order);
    if Has(t, order, Delivered) {
      var plan := t.finals[order];
      forall j | 0 <= j < |plan| ensures StepIs(t, StepId(order, plan[j].key), Completed) {
        CompletedStays(s, t, worker, u, StepId(order, plan[j].key));
      }
    }
  }

  lemma ExecuteCrowd(s: State, worker: nat, statement: Statement)
    requires CrowdInv(s) && worker in s.workers
    ensures CrowdInv(DoExecute(s, worker, statement))
  {
    hide Effect, Install, WorkerInv, DeliveredInv, Moves;
    var t, u := DoExecute(s, worker, statement), Effect(LocalView(s, worker), statement);
    ExecuteTakes(s, worker, statement);
    TookOwn(s, t, worker, u);
    forall w | w in t.workers && w != worker
      ensures WorkerInv(t, t.workers[w]) && !ExactlyOnce.Rivals(u.w, t.workers[w])
    {
      TookOther(s, t, worker, u, w);
    }
    forall order ensures DeliveredInv(t, order) { TookOrder(s, t, worker, u, order); }
  }

  // ------------------------------------------------------------ the other actions

  /** Rows alone, and workers as they were or at the start of something. */
  lemma KeepsCrowd(s: State, t: State)
    requires CrowdInv(s) && t.steps == s.steps && t.finals == s.finals
    requires forall w :: w in t.workers ==>
               || (w in s.workers && t.workers[w] == s.workers[w])
               || (!InStep(t.workers[w]) && t.workers[w].pc != Finishing)
    requires forall order :: Has(t, order, Delivered) ==> Has(s, order, Delivered)
    ensures CrowdInv(t)
  {
    hide RowIsHeld;
    forall order ensures DeliveredInv(t, order) { assert DeliveredInv(s, order); }
    forall w | w in t.workers ensures WorkerInv(t, t.workers[w]) {
      if w in s.workers { assert WorkerInv(s, s.workers[w]); }
    }
  }

  lemma PlanCrowd(s: State, worker: nat, character: Character, plan: Option<seq<PlanStep>>)
    requires CrowdInv(s) && At(s, worker, Claimed)
    ensures CrowdInv(TakePlan(s, worker, character, plan))
  {
    hide RowIsHeld;
    var t := TakePlan(s, worker, character, plan);
    assert t.steps == s.steps && t.orders == s.orders && t.finals == s.finals;
    forall order ensures DeliveredInv(t, order) { assert DeliveredInv(s, order); }
    forall w | w in t.workers ensures WorkerInv(t, t.workers[w]) { assert WorkerInv(s, s.workers[w]); }
  }

  lemma ResolveCrowd(s: State, order: nat, key: string, realm: string, resolution: Resolution)
    requires CrowdInv(s) && (resolution == RetryStep ==> !Driven(s, order))
    ensures CrowdInv(DoResolveStep(s, order, key, realm, resolution))
  {
    if Resolvable(s, order, key, realm) {
      var t, own := DoResolveStep(s, order, key, realm, resolution), StepId(order, key);
      ExactlyOnce.ResolveRows(s, order, key, realm, resolution);
      assert t.finals == s.finals;
      forall o ensures DeliveredInv(t, o) { assert DeliveredInv(s, o); }
      forall w | w in t.workers ensures WorkerInv(t, t.workers[w]) {
        assert WorkerInv(s, s.workers[w]);
        if Driving(s.workers[w]) && s.workers[w].order == order { assert Driven(s, order); }
      }
    }
  }

  lemma NobodyExecutes(s: State, worker: nat, statement: Statement)
    requires worker !in s.workers
    ensures DoExecute(s, worker, statement) == s
  {
  }

  lemma ServerCrowd(s: State, worker: nat, realm: string)
    requires CrowdInv(s)
    ensures CrowdInv(DoStartServer(s, worker, realm)) && CrowdInv(DoCrash(s, worker))
  {
    hide CrowdInv;
    KeepsCrowd(s, DoStartServer(s, worker, realm));
    KeepsCrowd(s, DoCrash(s, worker));
  }

  lemma ResetCrowd(s: State, worker: nat, db: Db)
    requires CrowdInv(s)
    ensures CrowdInv(DoResetInterrupted(s, worker, db))
  {
    hide CrowdInv;
    KeepsCrowd(s, DoResetInterrupted(s, worker, db));
  }

  lemma ClaimCrowd(s: State, worker: nat, order: nat, db: Db)
    requires CrowdInv(s)
    ensures CrowdInv(DoClaimOrder(s, worker, order, db))
  {
    hide CrowdInv;
    KeepsCrowd(s, DoClaimOrder(s, worker, order, db));
  }

  lemma OrdersCrowd(s: State, a: Action)
    requires CrowdInv(s) && (a.Purchase? || a.RetryOrder? || a.RefundOrder?)
    ensures CrowdInv(Next(s, a))
  {
    hide PlanFor, DoExecute, DoLoadPlan, DoResolveStep, DoClaimOrder, DoResetInterrupted, CrowdInv;
    KeepsCrowd(s, Next(s, a));
  }

  lemma CrowdStep(s: State, a: Action)
    requires CrowdInv(s) && NoDrivenPutBack(s, a)
    ensures CrowdInv(Next(s, a))
  {
    hide DoExecute, DoClaimOrder, DoResetInterrupted, DoResolveStep, DoStartServer, DoCrash, PlanFor, CrowdInv;
    match a
    case LoadPlan(worker, character, table) =>
      if At(s, worker, Claimed) && s.workers[worker].order in s.orders {
        PlanCrowd(s, worker, character, PlanFor(s.orders[s.workers[worker].order].goods, table));
      }
    case Execute(worker, statement) =>
      if worker in s.workers { ExecuteCrowd(s, worker, statement); } else { NobodyExecutes(s, worker, statement); }
    case ResolveStep(order, key, realm, resolution) => ResolveCrowd(s, order, key, realm, resolution);
    case StartServer(worker, realm) => ServerCrowd(s, worker, realm);
    case Crash(worker) => ServerCrowd(s, worker, "");
    case ResetInterrupted(worker, db) => ResetCrowd(s, worker, db);
    case ClaimOrder(worker, order, db) => ClaimCrowd(s, worker, order, db);
    case _ => OrdersCrowd(s, a);
  }

  lemma {:induction false} CrowdRun(run: seq<Action>)
    requires Throughout(EMPTY, run, NoDrivenPutBack)
    ensures CrowdInv(Play(EMPTY, run))
  {
    if run != [] {
      CrowdRun(run[..|run| - 1]);
      CrowdStep(Play(EMPTY, run[..|run| - 1]), run[|run| - 1]);
    }
  }

  /** For any number of workers of any realms, crashes, lost statements, changing
      stack tables and resets at any moment: an order that reads 'delivered' has
      every step of the plan it was delivered with completed, as long as nobody
      puts back a step of an order a live worker drives. */
  lemma DeliveredByAnyOfManyIsCompleted(run: seq<Action>, order: nat)
    requires Throughout(EMPTY, run, NoDrivenPutBack)
    requires Has(Play(EMPTY, run), order, Delivered)
    ensures var s := Play(EMPTY, run);
            order in s.finals &&
            forall j :: 0 <= j < |s.finals[order]| ==> StepIs(s, StepId(order, s.finals[order][j].key), Completed)
  {
    CrowdRun(run);
    assert DeliveredInv(Play(EMPTY, run), order);
  }
}
