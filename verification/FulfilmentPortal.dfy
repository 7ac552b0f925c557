/** The tables the worker and the staff endpoints share, updated in place, one
    method per SQL statement or transaction; and the worker's own code as the
    sequence of statements it issues. */
module FulfilmentPortal {
  import opened Common
  import opened DeliveryPlan
  import opened Fulfilment
  import opened FulfilmentRuns
  import opened FulfilmentExactlyOnce

  /** How the statements and the command of one step turn out. */
  datatype Luck = Luck(insert: Db, readable: bool, start: Db, applied: bool, ok: bool, record: Db)

  /** Every statement succeeds, and the realm applies the command and says so. */
  predicate Good(luck: Luck) {
    luck.insert == Done && luck.readable && luck.start == Done && luck.applied && luck.ok && luck.record == Done
  }

  /** Only the row of step `id` may have changed. */
  ghost predicate OtherRowsSame(s: State, t: State, id: StepId) {
    t.orders == s.orders && forall other :: other != id ==> RowOf(t, other) == RowOf(s, other)
  }

  /** A pending order of the realm. */
  predicate Open(orders: map<nat, Order>, order: nat, realm: string) {
    order in orders && orders[order].status == Pending && orders[order].realm == realm
  }

  /** The character is gone, online or not safe to name, or the order has an item
      the world does not know or a service the worker does not. */
  ghost predicate Unplannable(character: Character, goods: Goods, table: StackTable) {
    || character != Ready
    || (exists item :: item in goods.items && item.id !in table)
    || (goods.service != "" && goods.service != "race_change" && goods.service != "faction_change")
  }

  /** A plan mails what was ordered and runs the other commands asked for. */
  ghost predicate Promises(plan: seq<PlanStep>, goods: Goods) {
    && (forall id :: MailedTotal(plan, id) == TotalOf(goods.items, id))
    && (forall command: Command :: !command.ItemMail? ==> Times(plan, command) == Wanted(goods, command))
  }

  lemma PlanIsPromise(goods: Goods, table: StackTable)
    ensures PlanFor(goods, table).Some? ==> Promises(PlanFor(goods, table).value, goods)
    ensures PlanFor(goods, table) == None <==> Unplannable(Ready, goods, table)
  {
    hide MailedTotal, TotalOf, Times, Wanted;
    PromiseKept(goods, table);
    hide PlanFor;
    PlanIsRefusedIff(goods, table);
  }

  class Portal {
    var orders: map<nat, Order>
    var steps: map<StepId, StepStatus>
    var workers: map<nat, Worker>
    ghost var history: map<StepId, History>
    ghost var returned: map<nat, nat>
    ghost var finals: map<nat, seq<PlanStep>>

    ghost function Snapshot(): State
      reads this
    {
      State(orders, steps, workers, history, returned, finals)
    }

    constructor ()
      ensures Snapshot() == EMPTY
    {
      orders, steps, workers := map[], map[], map[];
      history, returned, finals := map[], map[], map[];
    }

    // ---------------------------------------------------------- server

    method ResetInterrupted(worker: nat, db: Db)
      requires At(Snapshot(), worker, Booting)
      modifies this
      ensures Snapshot() == Next(old(Snapshot()), Action.ResetInterrupted(worker, db))
      ensures steps == old(steps) && workers == old(workers)[worker := old(workers)[worker].(pc := Idle)]
      ensures orders.Keys == old(orders).Keys && forall o :: o in orders ==>
                orders[o] == if && db != Refused && old(orders)[o].status == Delivering
                                && old(orders)[o].realm == old(workers)[worker].realm
                             then old(orders)[o].(status := Review) else old(orders)[o]
    {
      var w := workers[worker];
      if db != Refused {
        orders := map o | o in orders ::
          if orders[o].status == Delivering && orders[o].realm == w.realm then orders[o].(status := Review)
              else orders[o];
      }
      workers := workers[worker := w.(pc := Idle)];
    }

    method ClaimOrder(worker: nat, order: nat, db: Db) returns (claimed: bool)
      requires At(Snapshot(), worker, Idle)
      modifies this
      ensures Snapshot() == Next(old(Snapshot()), Action.ClaimOrder(worker, order, db))
      ensures claimed <==> db == Done && Open(old(orders), order, old(workers)[worker].realm)
      ensures orders == if db != Refused && Open(old(orders), order, old(workers)[worker].realm)
                        then old(orders)[order := old(orders)[order].(status := Delivering)] else old(orders)
      ensures steps == old(steps)
      ensures workers == if claimed
                         then old(workers)[worker :=
                             old(workers)[worker].(pc := Claimed, order := order, plan := [], at := 0)]
                         else old(workers)
    {
      var w := workers[worker];
      claimed := false;
      if order in orders && orders[order].status == Pending && orders[order].realm == w.realm {
        if db != Refused {
          orders := orders[order := orders[order].(status := Delivering)];
        }
        if db == Done {
          workers := workers[worker := w.(pc := Claimed, order := order, plan := [], at := 0)];
          claimed := true;
        }
      }
    }

    method LoadPlan(worker: nat, character: Character, table: StackTable)
      requires At(Snapshot(), worker, Claimed) && workers[worker].order in orders
      modifies this
      ensures Snapshot() == Next(old(Snapshot()), Action.LoadPlan(worker, character, table))
      ensures worker in workers
      ensures || workers[worker].pc == Reviewing || workers[worker].pc == Finishing
              || (workers[worker].pc == Inserting && workers[worker].at < |workers[worker].plan|)
      ensures orders == old(orders) && steps == old(steps) && history == old(history)
      ensures Unplannable(character, orders[old(workers)[worker].order].goods, table) ==>
                workers == old(workers)[worker := old(workers)[worker].(pc := Reviewing)]
      ensures !Unplannable(character, orders[old(workers)[worker].order].goods, table) ==>
                && workers[worker].pc != Reviewing && workers[worker].at == 0
                && Promises(workers[worker].plan, orders[old(workers)[worker].order].goods)
      ensures var plan := PlanFor(orders[old(workers[worker].order)].goods, table);
              character == Ready && plan.Some? ==>
                workers[worker] == old(workers[worker]).(plan := plan.value, at := 0,
                                                         pc := if plan.value == [] then Finishing else Inserting)
    {
      hide Promises;
      var w := workers[worker];
      if character != Ready {
        workers := workers[worker := w.(pc := Reviewing)];
        return;
      }
      var plan := BuildPlan(orders[w.order].goods, table);
      PlanIsPromise(orders[w.order].goods, table);
      match plan {
        case None => workers := workers[worker := w.(pc := Reviewing)];
        case Some(commands) =>
          workers := workers[worker :=
              w.(plan := commands, at := 0, pc := if commands == [] then Finishing else Inserting)];
      }
    }

    // ---------------------------------------------------------- one step

    method InsertStep(worker: nat, db: Db)
      requires At(Snapshot(), worker, Inserting)
      modifies this
      ensures Snapshot() == Next(old(Snapshot()), Execute(worker, Statement.InsertStep(db)))
      ensures worker in workers
          && workers[worker] == old(workers[worker]).(pc := if db == Done then Selecting else Reviewing)
      ensures orders == old(orders) && history == old(history)
      ensures var id := CurrentId(old(workers)[worker]);
              steps == if db != Refused && id !in old(steps) then old(steps)[id := Waiting] else old(steps)
    {
      hide Next, Install;
      ExecuteIs(Snapshot(), worker, Statement.InsertStep(db));
      var w := workers[worker];
      var id := CurrentId(w);
      if db != Refused && id !in steps {
        steps := steps[id := Waiting];
      }
      workers := workers[worker := w.(pc := if db == Done then Selecting else Reviewing)];
    }

    method SelectStep(worker: nat, readable: bool)
      requires At(Snapshot(), worker, Selecting)
      modifies this
      ensures Snapshot() == Next(old(Snapshot()), Execute(worker, Statement.SelectStep(readable)))
      ensures orders == old(orders) && steps == old(steps) && history == old(history) && worker in workers
      ensures var w, id := old(workers)[worker], CurrentId(old(workers)[worker]);
              workers[worker] == if !readable || id !in steps || steps[id] == Executing then w.(pc := Reviewing)
                                 else if steps[id] == Completed then NextStep(w) else w.(pc := Starting)
    {
      hide Next, Install;
      ExecuteIs(Snapshot(), worker, Statement.SelectStep(readable));
      var w := workers[worker];
      var id := CurrentId(w);
      if !readable || id !in steps {
        workers := workers[worker := w.(pc := Reviewing)];
        return;
      }
      if steps[id] == Completed {
        workers := workers[worker := NextStep(w)];
        return;
      }
      if steps[id] == Executing {
        workers := workers[worker := w.(pc := Reviewing)];
        return;
      }
      workers := workers[worker := w.(pc := Starting)];
    }

    method StartStep(worker: nat, db: Db)
      requires At(Snapshot(), worker, Starting)
      modifies this
      ensures Snapshot() == Next(old(Snapshot()), Execute(worker, Statement.StartStep(db)))
      ensures orders == old(orders) && history == old(history) && worker in workers
      ensures var w, id := old(workers)[worker], CurrentId(old(workers)[worker]);
              var free := id in old(steps) && (old(steps)[id] == Waiting || old(steps)[id] == Faulted);
              && steps == (if db != Refused && free then old(steps)[id := Executing] else old(steps))
              && workers[worker] == w.(pc := if db == Done && free then Sending else Reviewing)
    {
      hide Next, Install;
      ExecuteIs(Snapshot(), worker, Statement.StartStep(db));
      var w := workers[worker];
      var id := CurrentId(w);
      var changed := 0;
      if db != Refused && id in steps && (steps[id] == Waiting || steps[id] == Faulted) {
        steps := steps[id := Executing];
        changed := 1;
      }
      workers := workers[worker := w.(pc := if db == Done && changed == 1 then Sending else Reviewing)];
    }

    method SendCommand(worker: nat, applied: bool)
      requires At(Snapshot(), worker, Sending)
      modifies this
      ensures Snapshot() == Next(old(Snapshot()), Execute(worker, Statement.SendCommand(applied)))
      ensures worker in workers && workers[worker] == old(workers[worker]).(pc := Awaiting(applied))
      ensures orders == old(orders) && steps == old(steps)
      ensures var w, id := old(workers)[worker], CurrentId(old(workers)[worker]);
              HistoryOf(Snapshot(), id).applied == HistoryOf(old(Snapshot()), id).applied
                + if applied && w.at < |w.plan| then [w.plan[w.at].command] else []
    {
      hide Next, Install;
      ExecuteIs(Snapshot(), worker, Statement.SendCommand(applied));
      var w := workers[worker];
      var id := CurrentId(w);
      ghost var h := HistoryOf(Snapshot(), id);
      ghost var done := if applied && w.at < |w.plan| then h.applied + [w.plan[w.at].command] else h.applied;
      history := history[id := h.(runs := h.runs + 1, applied := done)];
      workers := workers[worker := w.(pc := Awaiting(applied))];
    }

    method ReceiveReply(worker: nat, ok: bool)
      requires worker in workers && workers[worker].pc.Awaiting?
      modifies this
      ensures Snapshot() == Next(old(Snapshot()), Execute(worker, Statement.ReceiveReply(ok)))
      ensures worker in workers
          && workers[worker]
          == old(workers[worker]).(pc := if ok then Completing else Failing(old(workers[worker]).pc.applied))
      ensures orders == old(orders) && steps == old(steps) && history == old(history)
    {
      hide Next, Install;
      ExecuteIs(Snapshot(), worker, Statement.ReceiveReply(ok));
      var w := workers[worker];
      workers := workers[worker := w.(pc := if ok then Completing else Failing(w.pc.applied))];
    }

    method RecordFault(worker: nat, db: Db)
      requires worker in workers && workers[worker].pc.Failing?
      modifies this
      ensures Snapshot() == Next(old(Snapshot()), Execute(worker, Statement.RecordFault(db)))
      ensures worker in workers && workers[worker] == old(workers[worker]).(pc := Reviewing)
      ensures orders == old(orders)
      ensures var id := CurrentId(old(workers)[worker]);
              steps == if db != Refused && id in old(steps) && old(steps)[id] == Executing
                       then old(steps)[id := Faulted] else old(steps)
    {
      hide Next, Install;
      ExecuteIs(Snapshot(), worker, Statement.RecordFault(db));
      var w := workers[worker];
      var id := CurrentId(w);
      if db != Refused && id in steps && steps[id] == Executing {
        steps := steps[id := Faulted];
        ghost var h := HistoryOf(Snapshot(), id);
        history := history[id := WithFault(h, w.pc.applied)];
      }
      workers := workers[worker := w.(pc := Reviewing)];
    }

    method RecordCompletion(worker: nat, db: Db)
      requires At(Snapshot(), worker, Completing)
      modifies this
      ensures Snapshot() == Next(old(Snapshot()), Execute(worker, Statement.RecordCompletion(db)))
      ensures worker in workers
      ensures workers[worker] == if db == Done then NextStep(old(workers[worker]))
          else old(workers[worker]).(pc := Reviewing)
      ensures orders == old(orders) && history == old(history)
      ensures var id := CurrentId(old(workers)[worker]);
              steps == if db != Refused && id in old(steps) && old(steps)[id] == Executing
                       then old(steps)[id := Completed] else old(steps)
    {
      hide Next, Install;
      ExecuteIs(Snapshot(), worker, Statement.RecordCompletion(db));
      var w := workers[worker];
      var id := CurrentId(w);
      if db != Refused && id in steps && steps[id] == Executing {
        steps := steps[id := Completed];
      }
      workers := workers[worker := if db == Done then NextStep(w) else w.(pc := Reviewing)];
    }

    method FinishOrder(worker: nat, db: Db)
      requires At(Snapshot(), worker, Finishing)
      modifies this
      ensures Snapshot() == Next(old(Snapshot()), Execute(worker, Statement.FinishOrder(db)))
      ensures steps == old(steps) && history == old(history)
      ensures workers == old(workers)[worker := old(workers)[worker].(pc := Idle)]
      ensures var order := old(workers)[worker].order;
              orders == if db != Refused && order in old(orders) && old(orders)[order].status == Delivering
                        then old(orders)[order := old(orders)[order].(status := Delivered)] else old(orders)
    {
      hide Next, Install, Effect;
      FinishIs(Snapshot(), worker, db);
      var w := workers[worker];
      if db != Refused && w.order in orders && orders[w.order].status == Delivering {
        orders := orders[w.order := orders[w.order].(status := Delivered)];
        finals := finals[w.order := w.plan];
      }
      workers := workers[worker := w.(pc := Idle)];
    }

    method ReviewOrder(worker: nat, db: Db)
      requires At(Snapshot(), worker, Reviewing)
      modifies this
      ensures Snapshot() == Next(old(Snapshot()), Execute(worker, Statement.ReviewOrder(db)))
      ensures steps == old(steps) && history == old(history)
      ensures workers == old(workers)[worker := old(workers)[worker].(pc := Idle)]
      ensures var order := old(workers)[worker].order;
              orders == if db != Refused && order in old(orders) && old(orders)[order].status == Delivering
                        then old(orders)[order := old(orders)[order].(status := Review)] else old(orders)
    {
      hide Next, Install, Effect;
      ReviewIs(Snapshot(), worker, db);
      var w := workers[worker];
      if db != Refused && w.order in orders && orders[w.order].status == Delivering {
        orders := orders[w.order := orders[w.order].(status := Review)];
      }
      workers := workers[worker := w.(pc := Idle)];
    }

    // ---------------------------------------------------------- staff

    method RetryOrder(order: nat, realm: string) returns (changed: bool)
      modifies this
      ensures Snapshot() == Next(old(Snapshot()), Action.RetryOrder(order, realm))
      ensures changed <==> order in old(orders) && old(orders)[order].realm == realm
                           && (old(orders)[order].status == Review || old(orders)[order].status == Failed)
      ensures orders == if changed then old(orders)[order := old(orders)[order].(status := Pending)] else old(orders)
      ensures steps == old(steps)
    {
      changed := false;
      if order in orders && orders[order].realm == realm
          && (orders[order].status == Review || orders[order].status == Failed) {
        orders := orders[order := orders[order].(status := Pending)];
        changed := true;
      }
    }

    method RefundOrder(order: nat, realm: string) returns (refunded: bool)
      modifies this
      ensures Snapshot() == Next(old(Snapshot()), Action.RefundOrder(order, realm))
      ensures refunded <==> && order in old(orders) && old(orders)[order].realm == realm
                            && old(orders)[order].status in {Pending, Review, Failed}
                            && forall id :: id in old(steps) && id.order == order ==> old(steps)[id] != Completed
      ensures orders == if refunded then old(orders)[order := old(orders)[order].(status := Refunded)] else old(orders)
      ensures steps == old(steps)
      ensures Returned(Snapshot(), order) == Returned(old(Snapshot()), order)
                                                   + if refunded then old(orders)[order].total else 0
    {
      refunded := false;
      if order !in orders || orders[order].realm != realm {
        return;
      }
      var status := orders[order].status;
      if status != Pending && status != Review && status != Failed {
        return;
      }
      var completed := set id | id in steps && id.order == order && steps[id] == Completed;
      if |completed| > 0 {
        var id :| id in completed;
        return;
      }
      assert forall id :: id in steps && id.order == order ==> id !in completed;
      returned := returned[order := Returned(Snapshot(), order) + orders[order].total];
      orders := orders[order := orders[order].(status := Refunded)];
      refunded := true;
    }

    method ResolveStep(order: nat, key: string, realm: string, resolution: Resolution) returns (resolved: bool)
      modifies this
      ensures Snapshot() == Next(old(Snapshot()), Action.ResolveStep(order, key, realm, resolution))
      ensures resolved <==> && order in old(orders) && old(orders)[order].realm == realm
                            && StepId(order, key) in old(steps)
                            && old(orders)[order].status != Delivered
                            && old(orders)[order].status != OrderStatus.Refunded
      ensures orders == if resolved then old(orders)[order := old(orders)[order].(status := Pending)] else old(orders)
      ensures var status := if resolution == MarkCompleted then Completed else Waiting;
              steps == if resolved then old(steps)[StepId(order, key) := status] else old(steps)
    {
      var id := StepId(order, key);
      resolved := false;
      if order !in orders || orders[order].realm != realm || id !in steps {
        return;
      }
      if orders[order].status == Delivered || orders[order].status == Refunded {
        return;
      }
      var next := Waiting;
      ghost var h := HistoryOf(Snapshot(), id);
      if resolution == MarkCompleted {
        next := Completed;
        history := history[id := Acknowledged(h)];
      } else {
        history := history[id := h.(retries := h.retries + 1)];
      }
      steps := steps[id := next];
      orders := orders[order := orders[order].(status := Pending)];
      resolved := true;
    }

    // ---------------------------------------------------------- the worker's code

    /** The first half of runOrderStep: make sure the row exists, look at it and
        claim it. */
    method ClaimStep(worker: nat, luck: Luck) returns (ghost run: seq<Action>)
      requires At(Snapshot(), worker, Inserting)
      modifies this
      ensures Snapshot() == Play(old(Snapshot()), run) && WorkerRun(run, worker)
      ensures worker in workers
      ensures || workers[worker] == NextStep(old(workers[worker]))
              || workers[worker] == old(workers[worker]).(pc := Sending)
              || workers[worker] == old(workers[worker]).(pc := Reviewing)
      ensures OtherRowsSame(old(Snapshot()), Snapshot(), old(CurrentId(workers[worker])))
      ensures Good(luck) ==>
                var id := old(CurrentId(workers[worker]));
                match old(RowOf(Snapshot(), CurrentId(workers[worker])))
                case Some(Completed) =>
                    RowOf(Snapshot(), id) == Some(Completed) && workers[worker] == NextStep(old(workers[worker]))
                case Some(Executing) => workers[worker].pc == Reviewing
                case _ => RowOf(Snapshot(), id) == Some(Executing) && workers[worker].pc == Sending
    {
      hide Next, Play, Effect, OtherRowsSame;
      ghost var s := Snapshot();
      InsertStep(worker, luck.insert);
      run := First(s, Execute(worker, Statement.InsertStep(luck.insert)));
      ghost var s1 := Snapshot();
      Inserted(s, worker, luck.insert);
      if workers[worker].pc == Reviewing {
        return;
      }
      SelectStep(worker, luck.readable);
      run := Then(s, run, Execute(worker, Statement.SelectStep(luck.readable)));
      ghost var s2 := Snapshot();
      Selected(s1, worker, luck.readable);
      SameRowsChain(s, s1, s2, CurrentId(s.workers[worker]));
      if workers[worker].pc != Starting {
        return;
      }
      StartStep(worker, luck.start);
      run := Then(s, run, Execute(worker, Statement.StartStep(luck.start)));
      Started(s2, worker, luck.start);
      SameRowsChain(s, s2, Snapshot(), CurrentId(s.workers[worker]));
    }

    /** The second half: run the command and record how it went. */
    method PerformCommand(worker: nat, luck: Luck) returns (ghost run: seq<Action>)
      requires At(Snapshot(), worker, Sending)
      modifies this
      ensures Snapshot() == Play(old(Snapshot()), run) && WorkerRun(run, worker)
      ensures worker in workers
      ensures workers[worker] == if luck.ok && luck.record == Done then NextStep(old(workers[worker]))
                                 else old(workers[worker]).(pc := Reviewing)
      ensures OtherRowsSame(old(Snapshot()), Snapshot(), old(CurrentId(workers[worker])))
      ensures Good(luck) && old(RowOf(Snapshot(), CurrentId(workers[worker]))) == Some(Executing) ==>
                RowOf(Snapshot(), old(CurrentId(workers[worker]))) == Some(Completed)
    {
      hide Next, Play, Effect, OtherRowsSame, RowOf;
      ghost var s, id := Snapshot(), CurrentId(workers[worker]);
      SendCommand(worker, luck.applied);
      run := First(s, Execute(worker, Statement.SendCommand(luck.applied)));
      Sent(s, worker, luck.applied);
      ghost var s1 := Snapshot();
      ReceiveReply(worker, luck.ok);
      run := Then(s, run, Execute(worker, Statement.ReceiveReply(luck.ok)));
      Replied(s1, worker, luck.ok);
      ghost var s2 := Snapshot();
      SameRowsChain(s, s1, s2, id);
      if !luck.ok {
        RecordFault(worker, luck.record);
        run := Then(s, run, Execute(worker, Statement.RecordFault(luck.record)));
        StatementRow(s2, worker, Statement.RecordFault(luck.record));
        SameRowsChain(s, s2, Snapshot(), id);
        return;
      }
      RecordCompletion(worker, luck.record);
      run := Then(s, run, Execute(worker, Statement.RecordCompletion(luck.record)));
      Recorded(s2, worker, luck.record);
      SameRowsChain(s, s2, Snapshot(), id);
    }

    /** runOrderStep: the statements of one step, in order, stopping at the
        first error. `run` is what it did. */
    method RunOrderStep(worker: nat, luck: Luck) returns (ok: bool, ghost run: seq<Action>)
      requires At(Snapshot(), worker, Inserting)
      modifies this
      ensures Snapshot() == Play(old(Snapshot()), run) && WorkerRun(run, worker)
      ensures worker in workers
      ensures workers[worker] == if ok then NextStep(old(workers[worker])) else old(workers[worker]).(pc := Reviewing)
      ensures OtherRowsSame(old(Snapshot()), Snapshot(), old(CurrentId(workers[worker])))
      ensures Good(luck) && old(RowOf(Snapshot(), CurrentId(workers[worker]))) != Some(Executing) ==>
                ok && RowOf(Snapshot(), old(CurrentId(workers[worker]))) == Some(Completed)
    {
      ghost var s := Snapshot();
      run := ClaimStep(worker, luck);
      if workers[worker].pc == Sending {
        ghost var rest := PerformCommand(worker, luck);
        PlayConcat(s, run, rest);
        run := run + rest;
      }
      ok := workers[worker].pc != Reviewing;
    }

    /** fulfillOrder after a successful claim: load the plan, run every step,
        finish or give up for review. Whatever the database, the realm and the
        character do, it ends idle, having taken only its own steps; and when
        nothing goes wrong and no planned step is executing, it ends with the
        order delivered and every planned step completed. */
    method FulfillOrder(worker: nat, character: Character, table: StackTable, luck: nat -> Luck, last: Db)
      returns (ghost run: seq<Action>)
      requires At(Snapshot(), worker, Claimed) && workers[worker].order in orders
      modifies this
      ensures Snapshot() == Play(old(Snapshot()), run) && WorkerRun(run, worker)
      ensures At(Snapshot(), worker, Idle)
      ensures var order := old(workers[worker].order);
              NothingGoesWrong(old(Snapshot()), order, character, table, luck, last) ==>
                Has(Snapshot(), order, Delivered)
                && AllCompleted(Snapshot(), order, PlanFor(old(orders[workers[worker].order].goods), table).value)
      ensures var order := old(workers)[worker].order;
              Unplannable(character, old(orders)[order].goods, table) ==>
                && steps == old(steps) && history == old(history)
                && orders == if last != Refused && old(orders)[order].status == Delivering
                             then old(orders)[order := old(orders)[order].(status := Review)] else old(orders)
    {
      hide Next, Play, PlanFor, OtherRowsSame, RowOf, NothingGoesWrong, OnItsWay, AllCompleted, Good, LocalView, Effect;
      hide Promises, Unplannable;
      ghost var s, order := Snapshot(), workers[worker].order;
      ghost var well := NothingGoesWrong(s, order, character, table, luck, last);
      ghost var plan := PlanFor(orders[order].goods, table);
      LoadPlan(worker, character, table);
      run := First(s, Action.LoadPlan(worker, character, table));
      if workers[worker].pc == Reviewing {
        if well { SetsOut(s, Snapshot(), worker, character, table, luck, last); }
        ReviewOrder(worker, last);
        run := Then(s, run, Execute(worker, Statement.ReviewOrder(last)));
        return;
      }
      var failed := false;
      if well { SetsOut(s, Snapshot(), worker, character, table, luck, last); }
      while !failed && workers[worker].pc == Inserting
        invariant worker in workers && Snapshot() == Play(s, run) && WorkerRun(run, worker)
        invariant if failed then workers[worker].pc == Reviewing
                  else
                    || workers[worker].pc == Finishing
                    || (workers[worker].pc == Inserting && workers[worker].at < |workers[worker].plan|)
        invariant well ==> !failed && OnItsWay(s, Snapshot(), worker, order, plan)
        decreases if failed then 0
            else 1, |workers[worker].plan| - workers[worker].at, if workers[worker].pc == Inserting then 1 else 0
      {
        ghost var before := Snapshot();
        if well { NextIsGood(s, before, worker, order, character, table, luck, last); }
        ghost var rest;
        var ok;
        ok, rest := RunOrderStep(worker, luck(workers[worker].at));
        PlayConcat(s, run, rest);
        run := run + rest;
        failed := !ok;
        if well { FurtherOn(s, before, Snapshot(), worker, order, plan); }
      }
      if failed {
        ReviewOrder(worker, last);
        run := Then(s, run, Execute(worker, Statement.ReviewOrder(last)));
      } else {
        ghost var m := Snapshot();
        FinishOrder(worker, last);
        run := Then(s, run, Execute(worker, Statement.FinishOrder(last)));
        if well { Arrives(s, m, worker, order, character, table, luck, last); }
      }
    }
  }

  /** Every outcome is good, and no planned step of the order is executing. */
  ghost predicate NothingGoesWrong(s: State, order: nat, character: Character, table: StackTable,
      luck: nat -> Luck, last: Db) {
    && Has(s, order, Delivering) && character == Ready && last == Done
    && PlanFor(s.orders[order].goods, table).Some?
    && (var plan := PlanFor(s.orders[order].goods, table).value;
        forall j :: 0 <= j < |plan| ==> Good(luck(j)) && RowOf(s, StepId(order, plan[j].key)) != Some(Executing))
  }

  /** The worker stands inside the plan: what is behind it is completed, what is
      before it is as it was. */
  ghost predicate OnItsWay(s: State, t: State, worker: nat, order: nat, plan: Option<seq<PlanStep>>) {
    && worker in t.workers && t.orders == s.orders
    && (var w := t.workers[worker];
        && w.order == order && plan == Some(w.plan) && DistinctKeys(w.plan)
        && (w.pc == Finishing || (w.pc == Inserting && w.at < |w.plan|))
        && (forall j :: 0 <= j < LeftFrom(w) && j < |w.plan| ==>
            RowOf(t, StepId(order, w.plan[j].key)) == Some(Completed))
        && (forall j :: LeftFrom(w) <= j < |w.plan| ==>
              RowOf(t, StepId(order, w.plan[j].key)) == RowOf(s, StepId(order, w.plan[j].key))))
  }

  lemma SetsOut(s: State, t: State, worker: nat, character: Character, table: StackTable, luck: nat -> Luck, last: Db)
    requires At(s, worker, Claimed) && worker in t.workers && t.orders == s.orders && t.steps == s.steps
    requires NothingGoesWrong(s, s.workers[worker].order, character, table, luck, last)
    requires var w, plan := s.workers[worker], PlanFor(s.orders[s.workers[worker].order].goods, table);
             character == Ready && plan.Some? ==>
               t.workers[worker] == w.(plan := plan.value, at := 0,
                                         pc := if plan.value == [] then Finishing else Inserting)
    ensures var order := s.workers[worker].order; OnItsWay(s, t, worker, order, PlanFor(s.orders[order].goods, table))
    ensures t.workers[worker].pc != Reviewing
  {
    hide PlanFor;
    PlanKeysDistinct(s.orders[s.workers[worker].order].goods, table);
  }

  lemma NextIsGood(s: State, m: State, worker: nat, order: nat, character: Character, table: StackTable,
      luck: nat -> Luck, last: Db)
    requires NothingGoesWrong(s, order, character, table, luck, last)
    requires OnItsWay(s, m, worker, order, PlanFor(s.orders[order].goods, table)) && m.workers[worker].pc == Inserting
    ensures Good(luck(m.workers[worker].at)) && RowOf(m, CurrentId(m.workers[worker])) != Some(Executing)
  {
    hide PlanFor;
  }

  lemma FurtherOn(s: State, m: State, t: State, worker: nat, order: nat, plan: Option<seq<PlanStep>>)
    requires OnItsWay(s, m, worker, order, plan) && m.workers[worker].pc == Inserting
    requires OtherRowsSame(m, t, CurrentId(m.workers[worker]))
        && RowOf(t, CurrentId(m.workers[worker])) == Some(Completed)
    requires worker in t.workers && t.workers[worker] == NextStep(m.workers[worker])
    ensures OnItsWay(s, t, worker, order, plan)
  {
    var w, next := m.workers[worker], t.workers[worker];
    forall j | 0 <= j < LeftFrom(next) && j < |w.plan|
        ensures RowOf(t, StepId(order, w.plan[j].key)) == Some(Completed) {
      if j < w.at { assert StepId(order, w.plan[j].key) != CurrentId(w); }
    }
    forall j | LeftFrom(next) <= j < |w.plan|
      ensures RowOf(t, StepId(order, w.plan[j].key)) == RowOf(s, StepId(order, w.plan[j].key))
    {
      assert StepId(order, w.plan[j].key) != CurrentId(w);
    }
  }

  lemma Arrives(s: State, m: State, worker: nat, order: nat, character: Character, table: StackTable,
      luck: nat -> Luck, last: Db)
    requires NothingGoesWrong(s, order, character, table, luck, last)
    requires OnItsWay(s, m, worker, order, PlanFor(s.orders[order].goods, table)) && m.workers[worker].pc == Finishing
    ensures var t := Next(m, Execute(worker, FinishOrder(last)));
            Has(t, order, Delivered) && AllCompleted(t, order, PlanFor(s.orders[order].goods, table).value)
  {
    hide PlanFor, Next;
    FinishIs(m, worker, last);
    var t, plan := Next(m, Execute(worker, FinishOrder(last))), PlanFor(s.orders[order].goods, table).value;
    forall j | 0 <= j < |plan| ensures StepIs(t, StepId(order, plan[j].key), Completed) {
      assert RowOf(m, StepId(order, plan[j].key)) == Some(Completed);
    }
  }

  /** Every action of the run is a statement of `worker`'s own pass. */
  ghost predicate WorkerRun(run: seq<Action>, worker: nat) {
    forall i :: 0 <= i < |run| ==> (run[i].Execute? || run[i].LoadPlan?) && run[i].worker == worker
  }

  // ------------------------------------------------------------ one statement, one row

  lemma StatementRow(s: State, worker: nat, statement: Statement)
    requires worker in s.workers && !statement.FinishOrder? && !statement.ReviewOrder?
    ensures var t, id := Next(s, Execute(worker, statement)), CurrentId(s.workers[worker]);
            OtherRowsSame(s, t, id) && RowOf(t, id) == Effect(LocalView(s, worker), statement).row
  {
    EffectInStep(LocalView(s, worker), statement);
    var u := Effect(LocalView(s, worker), statement);
    InstallInStep(s, worker, u);
    InstallRows(s, worker, u);
  }

  lemma SameRowsChain(s: State, m: State, t: State, id: StepId)
    requires OtherRowsSame(s, m, id) && OtherRowsSame(m, t, id)
    ensures OtherRowsSame(s, t, id)
  {
  }

  lemma Inserted(s: State, worker: nat, db: Db)
    requires At(s, worker, Inserting)
    ensures var t, id := Next(s, Execute(worker, InsertStep(db))), CurrentId(s.workers[worker]);
            OtherRowsSame(s, t, id) && RowOf(t, id) == if db != Refused && RowOf(s, id) == None
                then Some(Waiting) else RowOf(s, id)
  {
    StatementRow(s, worker, InsertStep(db));
  }

  lemma Selected(s: State, worker: nat, readable: bool)
    requires At(s, worker, Selecting)
    ensures var t, id := Next(s, Execute(worker, SelectStep(readable))), CurrentId(s.workers[worker]);
            && OtherRowsSame(s, t, id) && RowOf(t, id) == RowOf(s, id)
            && worker in t.workers
            && (readable ==>
                  match RowOf(s, id)
                  case None => t.workers[worker].pc == Reviewing
                  case Some(Completed) => t.workers[worker] == NextStep(s.workers[worker])
                  case Some(Executing) => t.workers[worker].pc == Reviewing
                  case _ => t.workers[worker].pc == Starting)
  {
    StatementRow(s, worker, SelectStep(readable));
  }

  lemma Started(s: State, worker: nat, db: Db)
    requires At(s, worker, Starting)
    ensures var t, id := Next(s, Execute(worker, StartStep(db))), CurrentId(s.workers[worker]);
            && OtherRowsSame(s, t, id)
            && worker in t.workers
            && (db == Done && (RowOf(s, id) == Some(Waiting) || RowOf(s, id) == Some(Faulted)) ==>
                  RowOf(t, id) == Some(Executing) && t.workers[worker].pc == Sending)
  {
    StatementRow(s, worker, StartStep(db));
  }

  lemma Sent(s: State, worker: nat, applied: bool)
    requires At(s, worker, Sending)
    ensures var t, id := Next(s, Execute(worker, SendCommand(applied))), CurrentId(s.workers[worker]);
            OtherRowsSame(s, t, id) && RowOf(t, id) == RowOf(s, id)
  {
    StatementRow(s, worker, SendCommand(applied));
  }

  lemma Replied(s: State, worker: nat, ok: bool)
    requires worker in s.workers
    ensures var t, id := Next(s, Execute(worker, ReceiveReply(ok))), CurrentId(s.workers[worker]);
            OtherRowsSame(s, t, id) && RowOf(t, id) == RowOf(s, id)
  {
    StatementRow(s, worker, ReceiveReply(ok));
  }

  lemma Recorded(s: State, worker: nat, db: Db)
    requires At(s, worker, Completing)
    ensures var t, id := Next(s, Execute(worker, RecordCompletion(db))), CurrentId(s.workers[worker]);
            && OtherRowsSame(s, t, id)
            && (db == Done && RowOf(s, id) == Some(Executing) ==> RowOf(t, id) == Some(Completed))
  {
    StatementRow(s, worker, RecordCompletion(db));
  }

  /** A statement inside a step writes its worker, and its row and history when
      they changed. */
  lemma ExecuteIs(s: State, worker: nat, statement: Statement)
    requires worker in s.workers && !statement.FinishOrder? && !statement.ReviewOrder?
    ensures var v, id := LocalView(s, worker), CurrentId(s.workers[worker]);
            var u := Effect(v, statement);
            Next(s, Execute(worker, statement)) ==
              s.(steps := if u.row == v.row || u.row == None then s.steps else s.steps[id := u.row.value],
                 workers := s.workers[worker := u.w],
                 history := if u.h == v.h then s.history else s.history[id := u.h])
  {
    hide Effect;
    var v := LocalView(s, worker);
    EffectInStep(v, statement);
    var t := Install(s, worker, Effect(v, statement));
    assert t.orders == s.orders && t.finals == s.finals;
  }

  /** The last statement of a pass writes the order if it still reads
      'delivering'. */
  lemma FinishIs(s: State, worker: nat, db: Db)
    requires At(s, worker, Finishing)
    ensures var w := s.workers[worker];
            var idle := s.workers[worker := w.(pc := Idle)];
            Next(s, Execute(worker, FinishOrder(db))) ==
              if db != Refused && Has(s, w.order, Delivering)
              then SetStatus(s, w.order, Delivered).(workers := idle, finals := s.finals[w.order := w.plan])
              else s.(workers := idle)
  {
    var t := Next(s, Execute(worker, FinishOrder(db)));
    assert t.steps == s.steps && t.history == s.history;
  }

  lemma ReviewIs(s: State, worker: nat, db: Db)
    requires At(s, worker, Reviewing)
    ensures var w := s.workers[worker];
            var idle := s.workers[worker := w.(pc := Idle)];
            Next(s, Execute(worker, ReviewOrder(db))) ==
              if db != Refused && Has(s, w.order, Delivering)
              then SetStatus(s, w.order, Review).(workers := idle) else s.(workers := idle)
  {
    var t := Next(s, Execute(worker, ReviewOrder(db)));
    assert t.steps == s.steps && t.history == s.history;
  }

  lemma First(s: State, a: Action) returns (run: seq<Action>)
    ensures run == [a] && Play(s, run) == Next(s, a)
  {
    run := [a];
    PlayOne(s, a);
  }

  lemma Then(s: State, run: seq<Action>, a: Action) returns (longer: seq<Action>)
    ensures longer == run + [a] && Play(s, longer) == Next(Play(s, run), a)
  {
    longer := run + [a];
    PlayConcat(s, run, [a]);
    PlayOne(Play(s, run), a);
  }
}
