/** What every service call keeps, and how stored orders may change from one call to the next. */
module LedgerInvariants {
  import opened Common
  import opened OrderStateMachine
  import opened OrderLifecycle
  import opened Ledger

  /** One row's log replays to its status, and climbs in rank while it does. */
  ghost predicate RowLogged(o: Orders, id: nat)
    requires id < |o.executions|
  {
    Replays(o.History(id), o.executions[id].status) && Climbs(o.History(id))
  }

  ghost predicate Logged(o: Orders) {
    && (forall id :: 0 <= id < |o.executions| ==> RowLogged(o, id))
    && (forall t :: t in o.log ==> t.execution < |o.executions|)
  }

  /** No exchange id is known before the exchange has answered. */
  ghost predicate NamedLate(o: Orders) {
    forall id :: 0 <= id < |o.executions| && Rank(o.executions[id].status) < Rank(Accepted) ==>
      o.executions[id].exchangeOrderId.None?
  }

  /** One execution per client order id, and one per (signal, account). */
  ghost predicate Distinct(o: Orders) {
    forall i, j :: 0 <= i < j < |o.executions| ==>
      && o.executions[i].clientOrderId != o.executions[j].clientOrderId
      && (o.executions[i].signal != o.executions[j].signal || o.executions[i].account != o.executions[j].account)
  }

  ghost predicate OrdersInv(o: Orders) {
    Logged(o) && NamedLate(o) && Distinct(o)
  }

  /** What may become of one row: only its status and a still missing exchange id change,
      the status never falls in rank, and a terminal one stays. */
  ghost predicate RowEvolves(e: Execution, e': Execution) {
    && e' == e.(status := e'.status, exchangeOrderId := e'.exchangeOrderId)
    && Rank(e.status) <= Rank(e'.status)
    && (Terminal(e.status) ==> e' == e)
    && (e.exchangeOrderId.Some? ==> e'.exchangeOrderId == e.exchangeOrderId)
  }

  /** Rows and log entries are only ever added, and rows evolve. */
  ghost predicate Evolves(o: Orders, o': Orders) {
    && |o.executions| <= |o'.executions|
    && o.log <= o'.log
    && (forall id :: 0 <= id < |o.executions| ==> RowEvolves(o.executions[id], o'.executions[id]))
  }

  lemma Reflexive(o: Orders)
    ensures Evolves(o, o)
  {
  }

  lemma EvolvesTransitive(a: Orders, b: Orders, c: Orders)
    requires Evolves(a, b) && Evolves(b, c)
    ensures Evolves(a, c)
  {
    forall id | 0 <= id < |a.executions| ensures RowEvolves(a.executions[id], c.executions[id]) {
      assert RowEvolves(a.executions[id], b.executions[id]);
      assert RowEvolves(b.executions[id], c.executions[id]);
    }
  }

  /** A fresh row: CREATED, unnamed, and with keys no stored row has. */
  ghost predicate Fresh(o: Orders, e: Execution) {
    && e.status == Created && e.exchangeOrderId.None?
    && (forall i :: 0 <= i < |o.executions| ==>
          && o.executions[i].clientOrderId != e.clientOrderId
          && (o.executions[i].signal != e.signal || o.executions[i].account != e.account))
  }

  lemma InsertKeepsLogged(o: Orders, e: Execution)
    requires Logged(o) && e.status == Created
    ensures Logged(o.Insert(e))
  {
    var id := |o.executions|;
    var o' := o.Insert(e);
    AbsentFromLog(o.log, id);
    NumberedLogMaximum(o.log, id);
    forall other | 0 <= other < |o'.executions| ensures RowLogged(o', other) {
      RecordedHistory(Orders(o'.executions, o.log), id, None, Created, other);
      if other < id {
        assert RowLogged(o, other);
        assert o'.History(other) == o.History(other);
      } else {
        assert o'.History(other) == [Transition(id, 1, None, Created)];
      }
    }
  }

  lemma InsertKeeps(o: Orders, e: Execution)
    requires OrdersInv(o) && Fresh(o, e)
    ensures OrdersInv(o.Insert(e)) && Evolves(o, o.Insert(e))
  {
    InsertKeepsLogged(o, e);
    Reflexive(o);
  }

  lemma AdvanceKeepsLogged(o: Orders, id: nat, to: Status, name: Option<string>)
    requires Logged(o) && id < |o.executions|
    requires to in Allowed(o.executions[id].status) && to != o.executions[id].status
    ensures Logged(o.Advance(id, to, name))
  {
    var o' := o.Advance(id, to, name);
    var from := o.executions[id].status;
    assert RowLogged(o, id);
    AllowedEdgesClimb(from, to);
    NumberedLogMaximum(o.log, id);
    forall other | 0 <= other < |o'.executions| ensures RowLogged(o', other) {
      RecordedHistory(Orders(o'.executions, o.log), id, Some(from), to, other);
      assert RowLogged(o, other);
      if other == id {
        MoveReplays(o.History(id), Transition(id, o.NextSequence(id), Some(from), to), from);
      } else {
        assert o'.History(other) == o.History(other);
      }
    }
  }

  lemma AdvanceKeeps(o: Orders, id: nat, to: Status, name: Option<string>)
    requires OrdersInv(o) && id < |o.executions|
    requires to in Allowed(o.executions[id].status) && to != o.executions[id].status
    requires name.Some? ==> o.executions[id].exchangeOrderId.None? && Rank(to) >= Rank(Accepted)
    ensures OrdersInv(o.Advance(id, to, name)) && Evolves(o, o.Advance(id, to, name))
  {
    AdvanceKeepsLogged(o, id, to, name);
    AllowedEdgesClimb(o.executions[id].status, to);
    assert RowEvolves(o.executions[id], o.Advance(id, to, name).executions[id]);
  }

  lemma InsertThenAdvanceKeeps(o: Orders, e: Execution, to: Status)
    requires OrdersInv(o) && Fresh(o, e)
    requires to in Allowed(Created)
    ensures var o' := o.Insert(e).Advance(|o.executions|, to, None); OrdersInv(o') && Evolves(o, o')
  {
    InsertKeeps(o, e);
    AdvanceKeeps(o.Insert(e), |o.executions|, to, None);
    EvolvesTransitive(o, o.Insert(e), o.Insert(e).Advance(|o.executions|, to, None));
  }

  lemma SubmittedKeeps(o: Orders, e: Execution)
    requires OrdersInv(o) && Fresh(o, e)
    ensures OrdersInv(InsertedThenSubmitted(o, e)) && Evolves(o, InsertedThenSubmitted(o, e))
  {
    var passed := o.Insert(e).Advance(|o.executions|, RiskPassed, None);
    InsertThenAdvanceKeeps(o, e, RiskPassed);
    AdvanceKeeps(passed, |o.executions|, Submitted, None);
    EvolvesTransitive(o, passed, InsertedThenSubmitted(o, e));
  }

  lemma FilledKeeps(o: Orders, e: Execution)
    requires OrdersInv(o) && Fresh(o, e)
    ensures OrdersInv(InsertedThenFilled(o, e)) && Evolves(o, InsertedThenFilled(o, e))
  {
    var submitted := InsertedThenSubmitted(o, e);
    SubmittedKeeps(o, e);
    AdvanceKeeps(submitted, |o.executions|, Filled, Some(MockExchangeId(e.clientOrderId)));
    EvolvesTransitive(o, submitted, InsertedThenFilled(o, e));
  }

  /** Between calls every row is waiting on the exchange or finished. */
  ghost predicate Settled(o: Orders) {
    forall id :: 0 <= id < |o.executions| ==> Rank(o.executions[id].status) >= Rank(Submitted)
  }

  lemma ApplyEventKeeps(o: Orders, user: nat, a: nat, ev: OrderEvent, hint: nat)
    requires OrdersInv(o) && Settled(o)
    ensures var o' := ApplyEvent(o, user, a, ev, hint).orders; OrdersInv(o') && Settled(o') && Evolves(o, o')
  {
    var r := ApplyEvent(o, user, a, ev, hint);
    Reflexive(o);
    if r.result.Ok? && r.result.value.Transitioned? {
      var id := r.result.value.id;
      var e := o.executions[id];
      AllowedEdgesClimb(e.status, ev.status);
      AdvanceKeeps(o, id, ev.status, if e.exchangeOrderId.None? then ev.exchangeOrderId else None);
    }
  }

  lemma {:induction false} ReconcileRowsKeeps(o: Orders, user: nat, a: nat, ids: seq<nat>, lookup: Lookup)
    requires OrdersInv(o) && Settled(o)
    ensures var o' := ReconcileRows(o, user, a, ids, lookup);
            OrdersInv(o') && Settled(o') && Evolves(o, o') && |o'.executions| == |o.executions|
    decreases |ids|
  {
    Reflexive(o);
    if ids != [] {
      var next := o;
      if lookup(ids[0]).Some? {
        next := ApplyEvent(o, user, a, lookup(ids[0]).value, ids[0]).orders;
        ApplyEventKeeps(o, user, a, lookup(ids[0]).value, ids[0]);
      }
      ReconcileRowsKeeps(next, user, a, ids[1..], lookup);
      EvolvesTransitive(o, next, ReconcileRows(next, user, a, ids[1..], lookup));
    }
  }

  lemma RecordAcceptedKeeps(o: Orders, id: nat, reply: Reply)
    requires OrdersInv(o) && Settled(o)
    ensures var o' := RecordAccepted(o, id, reply).orders; OrdersInv(o') && Settled(o') && Evolves(o, o')
  {
    Reflexive(o);
    if RecordAccepted(o, id, reply).ok {
      AdvanceKeeps(o, id, Accepted, reply.orderId);
    }
  }

  lemma RecordFailureKeeps(o: Orders, id: nat)
    requires OrdersInv(o) && Settled(o)
    ensures var o' := RecordFailure(o, id); OrdersInv(o') && Settled(o') && Evolves(o, o')
  {
    Reflexive(o);
    if id < |o.executions| && o.executions[id].status == Submitted {
      AdvanceKeeps(o, id, Failed, None);
    }
  }

  /** Rows refer to accounts and signals that exist, and to the account's owner. */
  ghost predicate Referential(w: World) {
    forall id :: 0 <= id < |w.orders.executions| ==>
      var e := w.orders.executions[id];
      e.account < |w.accounts| && e.signal < |w.signals| && e.owner == w.accounts[e.account].owner
  }

  ghost predicate WorldInv(w: World) {
    OrdersInv(w.orders) && Settled(w.orders) && Referential(w)
  }

  /** Accounts keep their owners, and neither accounts nor signals disappear. */
  ghost predicate Extends(w: World, w': World) {
    && |w.accounts| <= |w'.accounts| && |w.signals| <= |w'.signals|
    && (forall a :: 0 <= a < |w.accounts| ==> w'.accounts[a].owner == w.accounts[a].owner)
  }

  lemma SameOrdersKeep(w: World, w': World)
    requires WorldInv(w) && Extends(w, w') && w'.orders == w.orders
    ensures WorldInv(w') && Evolves(w.orders, w'.orders)
  {
    Reflexive(w.orders);
    assert Referential(w') by {
      forall id | 0 <= id < |w'.orders.executions|
        ensures var e := w'.orders.executions[id];
                e.account < |w'.accounts| && e.signal < |w'.signals| && e.owner == w'.accounts[e.account].owner
      {
        assert w'.orders.executions[id] == w.orders.executions[id];
      }
    }
  }

  /** Rows that evolved, plus at most one new row that refers properly. */
  lemma OneNewRowKeeps(w: World, w': World)
    requires WorldInv(w) && Extends(w, w')
    requires OrdersInv(w'.orders) && Settled(w'.orders) && Evolves(w.orders, w'.orders)
    requires |w'.orders.executions| <= |w.orders.executions| + 1
    requires |w'.orders.executions| > |w.orders.executions| ==>
               var e := w'.orders.executions[|w.orders.executions|];
               e.account < |w'.accounts| && e.signal < |w'.signals| && e.owner == w'.accounts[e.account].owner
    ensures WorldInv(w')
  {
    forall id | 0 <= id < |w'.orders.executions|
      ensures var e := w'.orders.executions[id];
              e.account < |w'.accounts| && e.signal < |w'.signals| && e.owner == w'.accounts[e.account].owner
    {
      if id < |w.orders.executions| {
        assert RowEvolves(w.orders.executions[id], w'.orders.executions[id]);
      }
    }
  }

  /** The three ways a call may add a row. */
  ghost predicate AddsRow(o: Orders, o': Orders, e: Execution) {
    || o' == InsertedThenFailed(o, e)
    || o' == InsertedThenRejected(o, e)
    || o' == InsertedThenSubmitted(o, e)
    || o' == InsertedThenFilled(o, e)
  }

  /** The row an addition leaves behind, and that it leaves the others alone. */
  lemma AddedRows(o: Orders, e: Execution)
    ensures InsertedThenFailed(o, e).executions == o.executions + [e.(status := Failed)]
    ensures InsertedThenRejected(o, e).executions == o.executions + [e.(status := Rejected)]
    ensures InsertedThenSubmitted(o, e).executions == o.executions + [e.(status := Submitted)]
    ensures InsertedThenFilled(o, e).executions
         == o.executions + [e.(status := Filled, exchangeOrderId := Some(MockExchangeId(e.clientOrderId)))]
  {
    var id := |o.executions|;
    var passed := o.Insert(e).Advance(id, RiskPassed, None);
    assert passed.executions == o.executions + [e.(status := RiskPassed)];
    var sent := passed.Advance(id, Submitted, None);
    assert sent.executions == o.executions + [e.(status := Submitted)];
  }

  lemma AppendedStaysSettled(o: Orders, o': Orders, e: Execution)
    requires Settled(o) && o'.executions == o.executions + [e] && Rank(e.status) >= Rank(Submitted)
    ensures Settled(o')
  {
  }

  lemma StoppedRowKeeps(o: Orders, e: Execution, to: Status)
    requires OrdersInv(o) && Settled(o) && Fresh(o, e) && (to == Failed || to == Rejected)
    ensures var o' := o.Insert(e).Advance(|o.executions|, to, None); OrdersInv(o') && Settled(o') && Evolves(o, o')
  {
    InsertThenAdvanceKeeps(o, e, to);
    AddedRows(o, e);
    AppendedStaysSettled(o, o.Insert(e).Advance(|o.executions|, to, None), e.(status := to));
  }

  lemma SentRowKeeps(o: Orders, e: Execution)
    requires OrdersInv(o) && Settled(o) && Fresh(o, e)
    ensures var o' := InsertedThenSubmitted(o, e); OrdersInv(o') && Settled(o') && Evolves(o, o')
  {
    SubmittedKeeps(o, e);
    AddedRows(o, e);
    AppendedStaysSettled(o, InsertedThenSubmitted(o, e), e.(status := Submitted));
  }

  lemma FilledRowKeeps(o: Orders, e: Execution)
    requires OrdersInv(o) && Settled(o) && Fresh(o, e)
    ensures var o' := InsertedThenFilled(o, e); OrdersInv(o') && Settled(o') && Evolves(o, o')
  {
    FilledKeeps(o, e);
    AddedRows(o, e);
    AppendedStaysSettled(o, InsertedThenFilled(o, e),
                         e.(status := Filled, exchangeOrderId := Some(MockExchangeId(e.clientOrderId))));
  }

  lemma AddedRowKeeps(o: Orders, o': Orders, e: Execution)
    requires OrdersInv(o) && Settled(o) && Fresh(o, e) && AddsRow(o, o', e)
    ensures OrdersInv(o') && Settled(o') && Evolves(o, o')
  {
    if o' == InsertedThenFailed(o, e) {
      StoppedRowKeeps(o, e, Failed);
    } else if o' == InsertedThenRejected(o, e) {
      StoppedRowKeeps(o, e, Rejected);
    } else if o' == InsertedThenSubmitted(o, e) {
      SentRowKeeps(o, e);
    } else {
      FilledRowKeeps(o, e);
    }
  }

  lemma AddedRow(o: Orders, o': Orders, e: Execution)
    requires AddsRow(o, o', e)
    ensures |o'.executions| == |o.executions| + 1
    ensures var e' := o'.executions[|o.executions|];
            e' == e.(status := e'.status, exchangeOrderId := e'.exchangeOrderId)
  {
    AddedRows(o, e);
  }

  lemma AddedRowWorld(w: World, w': World, e: Execution)
    requires WorldInv(w) && Extends(w, w') && Fresh(w.orders, e) && AddsRow(w.orders, w'.orders, e)
    requires e.account < |w'.accounts| && e.signal < |w'.signals| && e.owner == w'.accounts[e.account].owner
    ensures WorldInv(w') && Evolves(w.orders, w'.orders)
  {
    AddedRowKeeps(w.orders, w'.orders, e);
    AddedRow(w.orders, w'.orders, e);
    OneNewRowKeeps(w, w');
  }

  lemma PlaceOrderAdds(w: World, e: Execution)
    requires e.account < |w.accounts|
    ensures var w' := PlaceOrder(w, e);
            AddsRow(w.orders, w'.orders, e) && w'.accounts == w.accounts && w'.signals == w.signals
  {
  }

  lemma EngineRowFresh(w: World, user: nat, sid: nat, a: nat, side: Side, quantity: real)
    requires sid < |w.signals| && a < |w.accounts|
    requires ExistingFor(w.orders.executions, sid, a).None?
    requires ClientIdTaken(w.orders.executions, EngineClientId(w.signals[sid], w.accounts[a])).None?
    ensures Fresh(w.orders, EngineExecution(w, user, sid, a, side, quantity))
  {
  }

  ghost predicate AddsEngineRow(w: World, w': World, user: nat, sid: nat, a: nat) {
    && sid < |w.signals| && Owned(w, user, a)
    && exists e :: && Fresh(w.orders, e) && AddsRow(w.orders, w'.orders, e)
                   && e.account == a && e.signal == sid && e.owner == user
  }

  /** The engine returns the world it was given, with a position row added, or with an order
      placed for keys that no stored row has. */
  lemma ExecuteShape(w: World, user: nat, sid: nat, a: nat)
    ensures var w' := ExecuteSignal(w, user, sid, a).world;
            || w' == w
            || (&& !w.stop && sid < |w.signals| && Owned(w, user, a)
                && (w.signals[sid].target.Some? || w.signals[sid].quantity.Some?)
                && ExistingFor(w.orders.executions, sid, a).None?
                && var p := Resolve(w, w.signals[sid], a);
                   || w' == p.world
                   || (&& ClientIdTaken(w.orders.executions, EngineClientId(w.signals[sid], w.accounts[a])).None?
                       && w' == PlaceOrder(p.world, EngineExecution(w, user, sid, a, p.side, p.quantity))))
  {
  }

  lemma PlacedIsEngineRow(w: World, p: World, e: Execution)
    requires p.accounts == w.accounts && p.signals == w.signals && p.orders == w.orders
    requires Fresh(w.orders, e) && e.signal < |w.signals| && Owned(w, e.owner, e.account)
    ensures var w' := PlaceOrder(p, e);
            AddsEngineRow(w, w', e.owner, e.signal, e.account) && w'.accounts == w.accounts && w'.signals == w.signals
  {
    PlaceOrderAdds(p, e);
  }

  /** Either the engine adds one fresh row for this signal and account, or orders stay as they are. */
  lemma ExecuteSignalOrders(w: World, user: nat, sid: nat, a: nat)
    ensures var w' := ExecuteSignal(w, user, sid, a).world;
            && w'.accounts == w.accounts && w'.signals == w.signals
            && (w'.orders == w.orders || AddsEngineRow(w, w', user, sid, a))
  {
    var w' := ExecuteSignal(w, user, sid, a).world;
    ExecuteShape(w, user, sid, a);
    if w' != w && w' != Resolve(w, w.signals[sid], a).world {
      var p := Resolve(w, w.signals[sid], a);
      EngineRowFresh(w, user, sid, a, p.side, p.quantity);
      PlacedIsEngineRow(w, p.world, EngineExecution(w, user, sid, a, p.side, p.quantity));
    }
  }

  /** create_or_get touches nothing but a new signal, a missing risk row and one new row. */
  lemma CreateOrGetShape(w: World, user: nat, req: SubmitRequest)
    requires req.account < |w.accounts|
    ensures var w' := CreateOrGet(w, user, req).world;
            && w' == w.(orders := w'.orders, signals := w'.signals, risk := w'.risk)
            && (forall b :: RiskOn(w', b) == RiskOn(w, b))
            && (|| (w'.orders == w.orders && w'.signals == w.signals)
                || (&& w'.signals == w.signals + [SubmitSignal(user, req)]
                    && var e := SubmitExecution(w, user, req);
                       && ClientIdTaken(w.orders.executions, e.clientOrderId).None?
                       && (|| w'.orders == InsertedThenRejected(w.orders, e)
                           || w'.orders == InsertedThenSubmitted(w.orders, e))))
  {
    if ClientIdTaken(w.orders.executions, req.clientOrderId).None? {
      var w1 := EnsureRisk(w, req.account).(signals := w.signals + [SubmitSignal(user, req)]);
      assert forall b :: RiskOn(w1, b) == RiskOn(w, b);
    }
  }

  /** Everything that held of the account, the switches and the approvals when a row was added. */
  ghost predicate SubmitAllowed(w: World, user: nat, req: SubmitRequest, now: real) {
    && !w.stop && Owned(w, user, req.account)
    && w.accounts[req.account].mode == Testnet && w.accounts[req.account].exchange != Mock
    && w.adapters && AccountOn(w, req.account) && RiskOn(w, req.account) && req.account in w.secrets && req.confirmed
    && var latest := LatestApproval(w.approvals, user, req.account);
       latest.Some? && Covers(w.approvals[latest.value], req, now)
  }

  lemma SubmitShape(w: World, user: nat, req: SubmitRequest, now: real)
    ensures var w' := Submit(w, user, req, now).world;
            && w' == w.(orders := w'.orders, signals := w'.signals, risk := w'.risk)
            && (forall b :: RiskOn(w', b) == RiskOn(w, b))
            && (|| (w'.orders == w.orders && w'.signals == w.signals)
                || (&& SubmitAllowed(w, user, req, now)
                    && w'.signals == w.signals + [SubmitSignal(user, req)]
                    && var e := SubmitExecution(w, user, req);
                       && ClientIdTaken(w.orders.executions, e.clientOrderId).None?
                       && (|| w'.orders == InsertedThenRejected(w.orders, e)
                           || w'.orders == InsertedThenSubmitted(w.orders, e))))
  {
    if Owned(w, user, req.account) {
      var w1 := EnsureRisk(w, req.account);
      CreateOrGetShape(w1, user, req);
      assert SubmitExecution(w1, user, req) == SubmitExecution(w, user, req);
    }
  }

  predicate IsAnswer(c: Call) { c.Answer? || c.AnswerFailed? || c.Deliver? || c.Reconcile? }

  predicate TouchesOrders(c: Call) {
    c.Execute? || c.SubmitOrder? || IsAnswer(c)
  }

  lemma QuietStep(w: World, c: Call)
    requires !TouchesOrders(c)
    ensures Step(w, c).orders == w.orders && Extends(w, Step(w, c))
  {
  }

  lemma ExecuteKeeps(w: World, user: nat, sid: nat, a: nat)
    requires WorldInv(w)
    ensures var w' := ExecuteSignal(w, user, sid, a).world; WorldInv(w') && Evolves(w.orders, w'.orders)
  {
    var w' := ExecuteSignal(w, user, sid, a).world;
    ExecuteSignalOrders(w, user, sid, a);
    if AddsEngineRow(w, w', user, sid, a) {
      var e :| && Fresh(w.orders, e) && AddsRow(w.orders, w'.orders, e)
               && e.account == a && e.signal == sid && e.owner == user;
      AddedRowWorld(w, w', e);
    } else {
      SameOrdersKeep(w, w');
    }
  }

  lemma SubmitKeeps(w: World, user: nat, req: SubmitRequest, now: real)
    requires WorldInv(w)
    ensures var w' := Submit(w, user, req, now).world; WorldInv(w') && Evolves(w.orders, w'.orders)
  {
    var w' := Submit(w, user, req, now).world;
    SubmitShape(w, user, req, now);
    if w'.orders == w.orders {
      SameOrdersKeep(w, w');
    } else {
      AddedRowWorld(w, w', SubmitExecution(w, user, req));
    }
  }

  /** What an answer of the exchange leaves of the orders. */
  ghost predicate Kept(o: Orders, o': Orders) {
    OrdersInv(o') && Settled(o') && Evolves(o, o') && |o'.executions| == |o.executions|
  }

  lemma AnsweredKeep(w: World, o: Orders)
    requires WorldInv(w) && Kept(w.orders, o)
    ensures WorldInv(w.(orders := o))
  {
    OneNewRowKeeps(w, w.(orders := o));
  }

  lemma ReconcileKeeps(w: World, user: nat, a: nat, lookup: Lookup)
    requires WorldInv(w)
    ensures var w' := ReconcilePending(w, user, a, lookup);
            w' == w.(orders := w'.orders) && Kept(w.orders, w'.orders)
  {
    Reflexive(w.orders);
    ReconcileRowsKeeps(w.orders, user, a, PendingIds(w.orders.executions, user, a), lookup);
  }

  lemma ReplyKeeps(w: World, id: nat, reply: Reply)
    requires WorldInv(w)
    ensures Kept(w.orders, RecordAccepted(w.orders, id, reply).orders) && Kept(w.orders, RecordFailure(w.orders, id))
  {
    RecordAcceptedKeeps(w.orders, id, reply);
    RecordFailureKeeps(w.orders, id);
  }

  lemma DeliveryKeeps(w: World, user: nat, a: nat, ev: OrderEvent, hint: nat)
    requires WorldInv(w)
    ensures Kept(w.orders, ApplyEvent(w.orders, user, a, ev, hint).orders)
  {
    ApplyEventKeeps(w.orders, user, a, ev, hint);
  }

  /** The orders an answer of the exchange leaves; it touches nothing else. */
  function OrdersAnswered(w: World, c: Call): Orders
    requires IsAnswer(c)
  {
    match c
    case Answer(id, reply) => RecordAccepted(w.orders, id, reply).orders
    case AnswerFailed(id) => RecordFailure(w.orders, id)
    case Deliver(user, a, ev, hint) => ApplyEvent(w.orders, user, a, ev, hint).orders
    case Reconcile(user, a, lookup) => ReconcilePending(w, user, a, lookup).orders
  }

  lemma AnswerTouchesOrders(w: World, c: Call)
    requires IsAnswer(c)
    ensures Step(w, c) == w.(orders := OrdersAnswered(w, c))
  {
  }

  lemma AnsweredIsKept(w: World, c: Call)
    requires WorldInv(w) && IsAnswer(c)
    ensures Kept(w.orders, OrdersAnswered(w, c))
  {
    match c {
      case Answer(id, reply) => ReplyKeeps(w, id, reply);
      case AnswerFailed(id) => ReplyKeeps(w, id, Refused);
      case Deliver(user, a, ev, hint) => DeliveryKeeps(w, user, a, ev, hint);
      case Reconcile(user, a, lookup) => ReconcileKeeps(w, user, a, lookup);
    }
  }

  lemma AnswersKeep(w: World, c: Call)
    requires WorldInv(w) && IsAnswer(c)
    ensures WorldInv(Step(w, c)) && Evolves(w.orders, Step(w, c).orders)
    ensures |Step(w, c).orders.executions| == |w.orders.executions|
  {
    AnswerTouchesOrders(w, c);
    AnsweredIsKept(w, c);
    AnsweredKeep(w, OrdersAnswered(w, c));
  }

  lemma QuietKeeps(w: World, c: Call)
    requires WorldInv(w) && !TouchesOrders(c)
    ensures WorldInv(Step(w, c)) && Evolves(w.orders, Step(w, c).orders)
  {
    QuietStep(w, c);
    SameOrdersKeep(w, Step(w, c));
  }

  lemma StepKeeps(w: World, c: Call)
    requires WorldInv(w)
    ensures WorldInv(Step(w, c)) && Evolves(w.orders, Step(w, c).orders)
  {
    match c {
      case Execute(user, sid, a) => ExecuteKeeps(w, user, sid, a);
      case SubmitOrder(user, req, now) => SubmitKeeps(w, user, req, now);
      case _ =>
        if TouchesOrders(c) { AnswersKeep(w, c); } else { QuietKeeps(w, c); }
    }
  }

  lemma {:induction false} ReachableInv(ws: seq<World>, cs: seq<Call>, i: nat)
    requires IsRun(ws, cs) && i < |ws|
    ensures WorldInv(ws[i])
  {
    if i > 0 {
      ReachableInv(ws, cs, i - 1);
      StepKeeps(ws[i - 1], cs[i - 1]);
    }
  }

  lemma {:induction false} RunEvolves(ws: seq<World>, cs: seq<Call>, i: nat, j: nat)
    requires IsRun(ws, cs) && i <= j < |ws|
    ensures Evolves(ws[i].orders, ws[j].orders)
    decreases j
  {
    if i == j {
      Reflexive(ws[i].orders);
    } else {
      RunEvolves(ws, cs, i, j - 1);
      ReachableInv(ws, cs, j - 1);
      StepKeeps(ws[j - 1], cs[j - 1]);
      EvolvesTransitive(ws[i].orders, ws[j - 1].orders, ws[j].orders);
    }
  }

  lemma {:induction false} ClimbsApart(log: seq<Transition>, i: nat, j: nat)
    requires Climbs(log) && i < j < |log|
    ensures Rank(log[i].to) < Rank(log[j].to)
  {
    if i + 1 < j {
      ClimbsApart(log, i, j - 1);
    }
  }

  /** Log replay, bounded progress and the late exchange id, in every reachable state. */
  lemma ReachableHistories(ws: seq<World>, cs: seq<Call>, i: nat, id: nat)
    requires IsRun(ws, cs) && i < |ws| && id < |ws[i].orders.executions|
    ensures var log := ws[i].orders.History(id);
            && Replays(log, ws[i].orders.executions[id].status)
            && |log| <= 6
            && (forall j, k :: 0 <= j < k < |log| ==> Rank(log[j].to) < Rank(log[k].to))
    ensures Rank(ws[i].orders.executions[id].status) < Rank(Accepted) ==>
              ws[i].orders.executions[id].exchangeOrderId.None?
  {
    ReachableInv(ws, cs, i);
    assert RowLogged(ws[i].orders, id);
    var log := ws[i].orders.History(id);
    ClimbingLogIsShort(log, |log| - 1);
    forall j, k | 0 <= j < k < |log| ensures Rank(log[j].to) < Rank(log[k].to) {
      ClimbsApart(log, j, k);
    }
  }

  /** Over a run: a set exchange id never changes, a terminal row never changes, no row
      changes hands, and every log only grows at its end. */
  lemma RowsOverRuns(ws: seq<World>, cs: seq<Call>, i: nat, j: nat, id: nat)
    requires IsRun(ws, cs) && i <= j < |ws| && id < |ws[i].orders.executions|
    ensures id < |ws[j].orders.executions|
    ensures RowEvolves(ws[i].orders.executions[id], ws[j].orders.executions[id])
    ensures ws[i].orders.History(id) <= ws[j].orders.History(id)
  {
    RunEvolves(ws, cs, i, j);
    var l, l' := ws[i].orders.log, ws[j].orders.log;
    LogOfAppend(l, l'[|l|..], id);
    assert l' == l + l'[|l|..];
  }

  /** Client order ids and (signal, account) pairs name at most one execution. */
  lemma ReachableKeysUnique(ws: seq<World>, cs: seq<Call>, k: nat, i: nat, j: nat)
    requires IsRun(ws, cs) && k < |ws|
    requires i < |ws[k].orders.executions| && j < |ws[k].orders.executions|
    requires var a, b := ws[k].orders.executions[i], ws[k].orders.executions[j];
             a.clientOrderId == b.clientOrderId || (a.signal == b.signal && a.account == b.account)
    ensures i == j
  {
    ReachableInv(ws, cs, k);
  }
}
