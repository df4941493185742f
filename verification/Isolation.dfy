/** Whose rows a call may touch: events stay with the tenant, account and exchange they came for,
    and no user's call changes anything of an account that is not the user's own. */
module Isolation {
  import opened Common
  import opened OrderStateMachine
  import opened OrderLifecycle
  import opened Ledger
  import opened LedgerInvariants
  import opened Positions
  import opened Interlocks
  import opened Outcomes

  /** A row and its log, unchanged. */
  ghost predicate SameRow(o: Orders, o': Orders, i: nat)
    requires i < |o.executions|
  {
    i < |o'.executions| && o'.executions[i] == o.executions[i] && o'.History(i) == o.History(i)
  }

  lemma AdvanceLeavesOthers(o: Orders, id: nat, to: Status, name: Option<string>, i: nat)
    requires id < |o.executions| && i < |o.executions| && i != id
    ensures SameRow(o, o.Advance(id, to, name), i)
  {
    var o' := o.Advance(id, to, name);
    RecordedHistory(Orders(o'.executions, o.log), id, Some(o.executions[id].status), to, i);
    assert o'.History(i) == o.History(i);
  }

  lemma InsertLeavesOthers(o: Orders, e: Execution, i: nat)
    requires i < |o.executions|
    ensures SameRow(o, o.Insert(e), i)
  {
    RecordedHistory(Orders(o.executions + [e], o.log), |o.executions|, None, Created, i);
    assert o.Insert(e).History(i) == o.History(i);
  }

  /** The event is for this row: of this user, account and exchange, and naming it by either id. */
  predicate IsFor(e: Execution, user: nat, a: nat, ev: OrderEvent) {
    && e.owner == user && e.account == a && e.exchange == ev.exchange
    && (|| (ev.clientOrderId.Some? && ev.clientOrderId.value == e.clientOrderId)
        || (ev.exchangeOrderId.Some? && e.exchangeOrderId.Some?
            && ev.exchangeOrderId.value == e.exchangeOrderId.value))
  }

  /** An event changes at most one row, one that it is for; and every row it is not for keeps its
      status, its name and its log. */
  lemma EventStaysHome(o: Orders, user: nat, a: nat, ev: OrderEvent, hint: nat, i: nat)
    requires i < |o.executions| && !IsFor(o.executions[i], user, a, ev)
    ensures SameRow(o, ApplyEvent(o, user, a, ev, hint).orders, i)
  {
    var r := ApplyEvent(o, user, a, ev, hint);
    if r.result.Ok? && r.result.value.Transitioned? {
      var id, e := r.result.value.id, o.executions[r.result.value.id];
      assert Matches(e, user, a, ev);
      AdvanceLeavesOthers(o, id, ev.status, if e.exchangeOrderId.None? then ev.exchangeOrderId else None, i);
    }
  }

  /** What an event does to the row it finds: nothing if it says nothing new or nothing allowed, and
      otherwise it moves the row, names it if it has no exchange id yet, and logs that. */
  lemma EventOutcome(o: Orders, user: nat, a: nat, ev: OrderEvent, id: nat)
    requires id < |o.executions| && IsFor(o.executions[id], user, a, ev)
    ensures var r, e := ApplyEvent(o, user, a, ev, id), o.executions[id];
            && (ev.status == e.status ==> r == Applied(o, Ok(Duplicate(id))))
            && (ev.status != e.status && ev.status !in Allowed(e.status) ==> r == Applied(o, Ok(Stale(id))))
            && (ev.status != e.status && ev.status in Allowed(e.status) ==>
                  && r.result == Ok(Transitioned(id))
                  && MovedRow(o, r.orders, id, ev.status,
                              if e.exchangeOrderId.Some? then e.exchangeOrderId else ev.exchangeOrderId))
  {
    assert FindExecution(o.executions, user, a, ev, id) == Some(id);
  }

  /** An event that is for no row changes nothing and says so. */
  lemma EventForNoRow(o: Orders, user: nat, a: nat, ev: OrderEvent, hint: nat)
    requires forall i :: 0 <= i < |o.executions| ==> !IsFor(o.executions[i], user, a, ev)
    ensures var anonymous := ev.clientOrderId.None? && ev.exchangeOrderId.None?;
            ApplyEvent(o, user, a, ev, hint) == Applied(o, if anonymous then Err(NoIdentifier) else Ok(NotFound))
  {
  }

  lemma {:induction false} ReconcileStaysHome(o: Orders, user: nat, a: nat, ids: seq<nat>, lookup: Lookup, i: nat)
    requires i < |o.executions| && (o.executions[i].owner != user || o.executions[i].account != a)
    ensures SameRow(o, ReconcileRows(o, user, a, ids, lookup), i)
    decreases |ids|
  {
    if ids != [] {
      if lookup(ids[0]).None? {
        ReconcileStaysHome(o, user, a, ids[1..], lookup, i);
      } else {
        var ev := lookup(ids[0]).value;
        EventStaysHome(o, user, a, ev, ids[0], i);
        ReconcileStaysHome(ApplyEvent(o, user, a, ev, ids[0]).orders, user, a, ids[1..], lookup, i);
      }
    }
  }

  /** An event delivered on the stream of one user's account, or looked up for it, leaves every row
      of another user, another account or another exchange as it is, log included. */
  lemma EventsStayHome(w: World, c: Call, i: nat)
    requires (c.Deliver? || c.Reconcile?) && i < |w.orders.executions|
    requires || w.orders.executions[i].owner != c.user || w.orders.executions[i].account != c.account
             || (c.Deliver? && w.orders.executions[i].exchange != c.event.exchange)
    ensures SameRow(w.orders, Step(w, c).orders, i)
    ensures Step(w, c) == w.(orders := Step(w, c).orders)
  {
    match c {
      case Deliver(user, a, ev, hint) => EventStaysHome(w.orders, user, a, ev, hint, i);
      case Reconcile(user, a, lookup) => LookupsStayHome(w, user, a, lookup, i);
    }
  }

  lemma LookupsStayHome(w: World, user: nat, a: nat, lookup: Lookup, i: nat)
    requires i < |w.orders.executions| && (w.orders.executions[i].owner != user || w.orders.executions[i].account != a)
    ensures var w' := ReconcilePending(w, user, a, lookup);
            w' == w.(orders := w'.orders) && SameRow(w.orders, w'.orders, i)
  {
    ReconcileStaysHome(w.orders, user, a, PendingIds(w.orders.executions, user, a), lookup, i);
  }

  // ---- what reconciliation does to the rows it is about -----------------------------------

  /** Every answer is about the row it was asked for, and brings no second name for it. */
  ghost predicate AnswersItsRow(o: Orders, user: nat, a: nat, lookup: Lookup) {
    forall i :: 0 <= i < |o.executions| && lookup(i).Some? ==>
      lookup(i).value.exchange == o.executions[i].exchange
      && lookup(i).value.clientOrderId == Some(o.executions[i].clientOrderId)
  }

  lemma AnswerMovesItsRow(o: Orders, user: nat, a: nat, ev: OrderEvent, id: nat)
    requires id < |o.executions| && IsFor(o.executions[id], user, a, ev)
    ensures var o' := ApplyEvent(o, user, a, ev, id).orders;
            && |o'.executions| == |o.executions|
            && o'.executions[id].status
               == (if ev.status in Allowed(o.executions[id].status) then ev.status else o.executions[id].status)
            && o'.executions[id].clientOrderId == o.executions[id].clientOrderId
            && o'.executions[id].exchange == o.executions[id].exchange
            && forall i :: 0 <= i < |o.executions| && i != id ==> o'.executions[i] == o.executions[i]
  {
    assert FindExecution(o.executions, user, a, ev, id) == Some(id);
  }

  predicate NoRepeats(ids: seq<nat>) {
    forall i, j :: 0 <= i < j < |ids| ==> ids[i] != ids[j]
  }

  lemma {:induction false} ReconciledRows(o: Orders, user: nat, a: nat, ids: seq<nat>, lookup: Lookup, id: nat)
    requires AnswersItsRow(o, user, a, lookup) && id < |o.executions|
    requires NoRepeats(ids)
    requires forall i :: 0 <= i < |ids| ==>
               ids[i] < |o.executions| && o.executions[ids[i]].owner == user && o.executions[ids[i]].account == a
    ensures var o', s := ReconcileRows(o, user, a, ids, lookup), o.executions[id].status;
            && |o'.executions| == |o.executions|
            && o'.executions[id].status
               == (if id in ids && lookup(id).Some? && lookup(id).value.status in Allowed(s)
                   then lookup(id).value.status else s)
    decreases |ids|
  {
    if ids != [] {
      var next := o;
      if lookup(ids[0]).Some? {
        next := ApplyEvent(o, user, a, lookup(ids[0]).value, ids[0]).orders;
        AnswerMovesItsRow(o, user, a, lookup(ids[0]).value, ids[0]);
      }
      ReconciledRows(next, user, a, ids[1..], lookup, id);
      assert id in ids <==> id == ids[0] || id in ids[1..];
    }
  }

  lemma {:induction false} PendingIdsDistinct(es: seq<Execution>, user: nat, a: nat)
    ensures NoRepeats(PendingIds(es, user, a))
  {
    if es != [] {
      var n := |es| - 1;
      PendingIdsDistinct(es[..n], user, a);
      var front := PendingIds(es[..n], user, a);
      assert forall i :: 0 <= i < |front| ==> front[i] in front;
    }
  }

  /** Reconciliation asks for every row of the account that waits on the exchange, and moves each by
      its own answer if that is allowed; it does nothing unless the account is the user's own, active,
      in TESTNET on a real exchange, switched off, and has an API key. */
  lemma ReconcileOutcome(w: World, user: nat, a: nat, lookup: Lookup, id: nat)
    requires AnswersItsRow(w.orders, user, a, lookup) && id < |w.orders.executions|
    ensures var e, e' := w.orders.executions[id], ReconcilePending(w, user, a, lookup).orders.executions;
            var asked := && a < |w.accounts| && w.accounts[a].owner == user && w.accounts[a].active
                         && w.accounts[a].mode == Testnet && w.accounts[a].exchange != Mock
                         && !w.accounts[a].tradingEnabled && a in w.secrets
                         && e.owner == user && e.account == a
                         && (e.status == Submitted || e.status == Accepted || e.status == PartiallyFilled);
            && id < |e'|
            && e'[id].status == (if asked && lookup(id).Some? && lookup(id).value.status in Allowed(e.status)
                                 then lookup(id).value.status else e.status)
  {
    var ids := PendingIds(w.orders.executions, user, a);
    PendingIdsDistinct(w.orders.executions, user, a);
    forall i | 0 <= i < |ids|
      ensures ids[i] < |w.orders.executions|
              && w.orders.executions[ids[i]].owner == user && w.orders.executions[ids[i]].account == a
    {
      assert ids[i] in ids;
    }
    ReconciledRows(w.orders, user, a, ids, lookup, id);
  }

  // ---- tenants -----------------------------------------------------------------------------

  /** The user a call is made by; operators and the exchange's answers have none. */
  function Actor(c: Call): Option<nat> {
    match c
    case CreateAccount(user, _, _, _, _) => Some(user)
    case ChangeAccount(user, _, _, _, _) => Some(user)
    case DeleteAccount(user, _) => Some(user)
    case SetApiKey(user, _) => Some(user)
    case DeleteApiKey(user, _) => Some(user)
    case CreateSignal(sig) => Some(sig.owner)
    case Execute(user, _, _) => Some(user)
    case ReadRisk(user, _) => Some(user)
    case ChangeRisk(user, _, _) => Some(user)
    case RecordApproval(_, entry, _) => Some(entry.user)
    case SubmitOrder(user, _, _) => Some(user)
    case Deliver(user, _, _, _) => Some(user)
    case Reconcile(user, _, _) => Some(user)
    case SyncPosition(user, _, _, _, _) => Some(user)
    case Stop(_) => None
    case Answer(_, _) => None
    case AnswerFailed(_) => None
    case SetAdapters(_) => None
  }

  /** The account row, its key, its settings, and its approvals. */
  ghost predicate SameSettings(w: World, w': World, a: nat) {
    && a < |w.accounts| && a < |w'.accounts| && w'.accounts[a] == w.accounts[a]
    && (a in w'.secrets <==> a in w.secrets)
    && (a in w'.risk <==> a in w.risk) && (a in w.risk ==> w'.risk[a] == w.risk[a])
    && w.approvals <= w'.approvals
    && forall n :: |w.approvals| <= n < |w'.approvals| ==> w'.approvals[n].account != a
  }

  ghost predicate SamePositions(w: World, w': World, a: nat) {
    forall s: string :: && ((a, s) in w'.positions <==> (a, s) in w.positions)
                        && PositionOf(w', a, s) == PositionOf(w, a, s)
  }

  /** Its orders, with their logs; and no order was added to it. */
  ghost predicate SameOrders(w: World, w': World, a: nat) {
    && |w.orders.executions| <= |w'.orders.executions|
    && (forall i :: 0 <= i < |w.orders.executions| && w.orders.executions[i].account == a ==>
          SameRow(w.orders, w'.orders, i))
    && forall i :: |w.orders.executions| <= i < |w'.orders.executions| ==> w'.orders.executions[i].account != a
  }

  /** Nothing of the account changed. */
  ghost predicate Isolated(w: World, w': World, a: nat) {
    SameSettings(w, w', a) && SamePositions(w, w', a) && SameOrders(w, w', a)
  }

  lemma AddedLeavesOthers(o: Orders, o': Orders, e: Execution, i: nat)
    requires AddsRow(o, o', e) && i < |o.executions|
    ensures SameRow(o, o', i)
  {
    var id, born := |o.executions|, o.Insert(e);
    InsertLeavesOthers(o, e, i);
    if o' == InsertedThenFailed(o, e) {
      AdvanceLeavesOthers(born, id, Failed, None, i);
    } else if o' == InsertedThenRejected(o, e) {
      AdvanceLeavesOthers(born, id, Rejected, None, i);
    } else {
      var passed := born.Advance(id, RiskPassed, None);
      var sent := passed.Advance(id, Submitted, None);
      AdvanceLeavesOthers(born, id, RiskPassed, None, i);
      AdvanceLeavesOthers(passed, id, Submitted, None, i);
      AdvanceLeavesOthers(sent, id, Filled, Some(MockExchangeId(e.clientOrderId)), i);
    }
  }

  lemma AddedElsewhere(w: World, w': World, e: Execution, a: nat)
    requires AddsRow(w.orders, w'.orders, e) && e.account != a
    ensures SameOrders(w, w', a)
  {
    AddedRow(w.orders, w'.orders, e);
    forall i | 0 <= i < |w.orders.executions| ensures SameRow(w.orders, w'.orders, i) {
      AddedLeavesOthers(w.orders, w'.orders, e, i);
    }
  }

  /** The engine may give the account a settings row and a position; no other account's change. */
  ghost predicate OnlyAt(w: World, w': World, b: nat) {
    && w' == w.(orders := w'.orders, risk := w'.risk, positions := w'.positions)
    && (forall a :: a != b ==> (a in w'.risk <==> a in w.risk) && (a in w.risk ==> w'.risk[a] == w.risk[a]))
    && (forall k: (nat, string) :: k.0 != b ==>
          (k in w'.positions <==> k in w.positions) && (k in w.positions ==> w'.positions[k] == w.positions[k]))
  }

  lemma EnsuredOnlyAt(w: World, b: nat)
    ensures OnlyAt(w, EnsureRisk(w, b), b)
  {
  }

  lemma OnlyAtTwice(w: World, p: World, w': World, b: nat)
    requires OnlyAt(w, p, b) && OnlyAt(p, w', b)
    ensures OnlyAt(w, w', b)
  {
  }

  lemma PlacedOnlyAt(w: World, e: Execution)
    requires e.account < |w.accounts|
    ensures OnlyAt(w, PlaceOrder(w, e), e.account)
  {
    var w1, w' := EnsureRisk(w, e.account), PlaceOrder(w, e);
    EnsuredOnlyAt(w, e.account);
    assert w' == w1.(orders := w'.orders, positions := w'.positions);
    assert OnlyAt(w1, w', e.account);
    OnlyAtTwice(w, w1, w', e.account);
  }

  lemma ResolvedOnlyAt(w: World, sig: Signal, b: nat)
    requires sig.target.Some? || sig.quantity.Some?
    ensures var p := Resolve(w, sig, b).world;
            OnlyAt(w, p, b) && p.accounts == w.accounts && p.orders == w.orders && p.signals == w.signals
  {
  }

  lemma ExecutedOnlyAt(w: World, user: nat, sid: nat, b: nat)
    ensures OnlyAt(w, ExecuteSignal(w, user, sid, b).world, b)
  {
    var w' := ExecuteSignal(w, user, sid, b).world;
    ExecuteShape(w, user, sid, b);
    if w' != w {
      var p := Resolve(w, w.signals[sid], b);
      ResolvedOnlyAt(w, w.signals[sid], b);
      if w' != p.world {
        PlacedOnlyAt(p.world, EngineExecution(w, user, sid, b, p.side, p.quantity));
        OnlyAtTwice(w, p.world, w', b);
      }
    }
  }

  lemma OnlyAtElsewhere(w: World, w': World, b: nat, a: nat)
    requires OnlyAt(w, w', b) && a != b && a < |w.accounts|
    ensures SameSettings(w, w', a) && SamePositions(w, w', a)
  {
  }

  lemma ExecuteStaysHome(w: World, user: nat, sid: nat, b: nat, a: nat)
    requires a < |w.accounts| && w.accounts[a].owner != user
    ensures Isolated(w, ExecuteSignal(w, user, sid, b).world, a)
  {
    var w' := ExecuteSignal(w, user, sid, b).world;
    ExecuteSignalOrders(w, user, sid, b);
    if a != b {
      ExecutedOnlyAt(w, user, sid, b);
      OnlyAtElsewhere(w, w', b, a);
      ExecutedOrders(w, w', user, sid, b, a);
    } else {
      ForeignAccountRefused(w, user, sid, b);
    }
  }

  lemma ForeignAccountRefused(w: World, user: nat, sid: nat, b: nat)
    requires !Owned(w, user, b)
    ensures ExecuteSignal(w, user, sid, b).world == w
  {
  }

  lemma ExecutedOrders(w: World, w': World, user: nat, sid: nat, b: nat, a: nat)
    requires a != b && (w'.orders == w.orders || AddsEngineRow(w, w', user, sid, b))
    ensures SameOrders(w, w', a)
  {
    if AddsEngineRow(w, w', user, sid, b) {
      var e :| && Fresh(w.orders, e) && AddsRow(w.orders, w'.orders, e)
               && e.account == b && e.signal == sid && e.owner == user;
      AddedElsewhere(w, w', e, a);
    }
  }

  lemma SubmitStaysHome(w: World, user: nat, req: SubmitRequest, now: real, a: nat)
    requires a < |w.accounts| && w.accounts[a].owner != user
    ensures Isolated(w, Submit(w, user, req, now).world, a)
  {
    SubmitShape(w, user, req, now);
    var w' := Submit(w, user, req, now).world;
    if w'.orders != w.orders {
      AddedElsewhere(w, w', SubmitExecution(w, user, req), a);
    }
    SubmitRisk(w, user, req, now, a);
  }

  lemma CreateOrGetRisk(w: World, user: nat, req: SubmitRequest)
    requires req.account < |w.accounts| && req.account in w.risk
    ensures CreateOrGet(w, user, req).world.risk == w.risk
  {
  }

  lemma SubmitRisk(w: World, user: nat, req: SubmitRequest, now: real, a: nat)
    requires a < |w.accounts| && w.accounts[a].owner != user
    ensures var w' := Submit(w, user, req, now).world;
            (a in w'.risk <==> a in w.risk) && (a in w.risk ==> w'.risk[a] == w.risk[a])
  {
    if Owned(w, user, req.account) {
      CreateOrGetRisk(EnsureRisk(w, req.account), user, req);
      EnsuredOnlyAt(w, req.account);
    }
  }

  lemma EventsLeaveTenant(w: World, c: Call, a: nat)
    requires WorldInv(w) && (c.Deliver? || c.Reconcile?) && a < |w.accounts| && w.accounts[a].owner != c.user
    ensures Isolated(w, Step(w, c), a)
  {
    AnswersKeep(w, c);
    forall i | 0 <= i < |w.orders.executions| && w.orders.executions[i].account == a
      ensures SameRow(w.orders, Step(w, c).orders, i)
    {
      EventsStayHome(w, c, i);
    }
  }

  lemma AccountsStayHome(w: World, user: nat, b: nat, mode: Option<Mode>, trading: Option<bool>, active: Option<bool>,
                         a: nat)
    requires a < |w.accounts| && w.accounts[a].owner != user
    ensures var w' := UpdateAccount(w, user, b, mode, trading, active);
            SameSettings(w, w', a) && SamePositions(w, w', a)
  {
  }

  lemma PatchStaysHome(w: World, user: nat, b: nat, p: RiskPatch, a: nat)
    requires a < |w.accounts| && w.accounts[a].owner != user
    ensures SameSettings(w, PatchRisk(w, user, b, p), a) && SamePositions(w, PatchRisk(w, user, b, p), a)
  {
  }

  lemma ApprovalStaysHome(w: World, role: Role, entry: Approval, acknowledged: bool, a: nat)
    requires a < |w.accounts| && w.accounts[a].owner != entry.user
    ensures var w' := Approve(w, role, entry, acknowledged).world;
            SameSettings(w, w', a) && SamePositions(w, w', a)
  {
  }

  lemma SmallStayHome(w: World, c: Call, a: nat)
    requires c.CreateAccount? || c.SetApiKey? || c.DeleteApiKey? || c.CreateSignal? || c.ReadRisk? || c.SyncPosition?
    requires a < |w.accounts| && w.accounts[a].owner != Actor(c).value
    ensures SameSettings(w, Step(w, c), a) && SamePositions(w, Step(w, c), a)
  {
  }

  lemma SettingsStayHome(w: World, c: Call, a: nat)
    requires !TouchesOrders(c) && Actor(c).Some? && a < |w.accounts| && w.accounts[a].owner != Actor(c).value
    ensures SameSettings(w, Step(w, c), a) && SamePositions(w, Step(w, c), a)
  {
    match c {
      case ChangeAccount(user, b, mode, trading, active) => AccountsStayHome(w, user, b, mode, trading, active, a);
      case DeleteAccount(user, b) => AccountsStayHome(w, user, b, None, Some(false), Some(false), a);
      case ChangeRisk(user, b, p) => PatchStaysHome(w, user, b, p, a);
      case RecordApproval(role, entry, acknowledged) => ApprovalStaysHome(w, role, entry, acknowledged, a);
      case _ =>
        SmallStayHome(w, c, a);
    }
  }

  lemma QuietStaysHome(w: World, c: Call, a: nat)
    requires !TouchesOrders(c) && Actor(c).Some? && a < |w.accounts| && w.accounts[a].owner != Actor(c).value
    ensures Isolated(w, Step(w, c), a)
  {
    QuietStep(w, c);
    SettingsStayHome(w, c, a);
  }

  /** Tenant isolation: no call made by one user changes an account of another, its key, settings,
      approvals, positions, orders or logs, nor adds an order to it. */
  lemma TenantIsolation(w: World, c: Call, a: nat)
    requires WorldInv(w) && Actor(c).Some? && a < |w.accounts| && w.accounts[a].owner != Actor(c).value
    ensures Isolated(w, Step(w, c), a)
  {
    match c {
      case Execute(user, sid, b) => ExecuteStaysHome(w, user, sid, b, a);
      case SubmitOrder(user, req, now) => SubmitStaysHome(w, user, req, now, a);
      case Deliver(user, b, ev, hint) => EventsLeaveTenant(w, c, a);
      case Reconcile(user, b, lookup) => EventsLeaveTenant(w, c, a);
      case _ => QuietStaysHome(w, c, a);
    }
  }
}
