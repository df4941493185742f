/** The trading services on a live ledger: fields updated in place, order rows written through
    a session that flushes and commits where the services do. */
module LedgerService {
  import opened Common
  import opened Text
  import opened OrderStateMachine
  import opened OrderLifecycle
  import opened Ledger

  function EngineReasons(w: World, e: Execution): seq<RiskReason>
    requires e.account < |w.accounts|
  {
    CheckOrderRisk(w.accounts[e.account], EnsureRisk(w, e.account).risk[e.account], e.symbol, e.quantity, e.price,
        false)
  }

  lemma PlaceOrderFails(w: World, e: Execution)
    requires e.account < |w.accounts| && (EngineReasons(w, e) != [] || e.quantity <= 0.0)
    ensures PlaceOrder(w, e) == EnsureRisk(w, e.account).(orders := InsertedThenFailed(w.orders, e))
  {
  }

  lemma PlaceOrderFills(w: World, e: Execution, filled: World)
    requires e.account < |w.accounts| && EngineReasons(w, e) == [] && e.quantity > 0.0
    requires filled == EnsureRisk(w, e.account).(orders := InsertedThenFilled(w.orders, e))
    ensures PlaceOrder(w, e)
         == SetPosition(filled, e.account, e.symbol, PositionOf(filled, e.account, e.symbol) +
             Signed(e.side, e.quantity))
  {
  }

  class LiveLedger {
    const db: OrderSession
    var accounts: seq<Account>
    var signals: seq<Signal>
    var positions: map<(nat, string), real>
    var risk: map<nat, RiskSetting>
    var stop: bool
    var approvals: seq<Approval>
    var secrets: set<nat>
    var adapters: bool

    ghost function State(): World
      reads this, db
    {
      World(accounts, signals, db.State().Now(), positions, risk, stop, approvals, secrets, adapters)
    }

    /** Between calls nothing is pending: what is visible is what is durable. */
    ghost predicate Valid()
      reads this, db
    {
      db.State().Clean()
    }

    constructor ()
      ensures Valid() && fresh(db) && State() == EmptyWorld
    {
      db := new OrderSession();
      accounts, signals, positions, risk := [], [], map[], map[];
      stop, approvals, secrets, adapters := false, [], {}, false;
    }

    method GetOrCreatePosition(a: nat, symbol: string) returns (quantity: real)
      requires db.State().saved == |db.executions|
      modifies this`positions, db
      ensures State() == EnsurePosition(old(State()), a, symbol)
      ensures quantity == PositionOf(old(State()), a, symbol)
      ensures (a, symbol) in positions
      ensures db.executions == old(db.executions) && db.saved == |db.executions|
      ensures old(Valid()) ==> Valid()
    {
      if (a, symbol) !in positions {
        positions := positions[(a, symbol) := 0.0];
        CommitIsDurable(db.State());
        db.CommitRows();
      }
      quantity := positions[(a, symbol)];
    }

    method ApplyFill(a: nat, symbol: string, side: Side, quantity: real)
      requires db.State().saved == |db.executions|
      modifies this`positions, db
      ensures State() ==
          SetPosition(old(State()), a, symbol, PositionOf(old(State()), a, symbol) + Signed(side, quantity))
      ensures Valid()
    {
      var current := GetOrCreatePosition(a, symbol);
      if side == Buy {
        positions := positions[(a, symbol) := current + quantity];
      } else {
        positions := positions[(a, symbol) := current - quantity];
      }
      CommitIsDurable(db.State());
      db.CommitRows();
    }

    method GetOrCreateRiskSettings(a: nat) returns (settings: RiskSetting)
      requires db.State().saved == |db.executions|
      modifies this`risk, db
      ensures State() == EnsureRisk(old(State()), a)
      ensures a in risk && settings == risk[a]
      ensures db.executions == old(db.executions) && db.saved == |db.executions|
      ensures old(Valid()) ==> Valid()
    {
      if a !in risk {
        risk := risk[a := DefaultRisk];
        CommitIsDurable(db.State());
        db.CommitRows();
      }
      settings := risk[a];
    }

    method ResolveSideAndQuantity(sig: Signal, a: nat) returns (side: Side, quantity: real)
      requires Valid() && (sig.target.Some? || sig.quantity.Some?)
      modifies this`positions, db
      ensures Valid()
      ensures State() == Resolve(old(State()), sig, a).world
      ensures side == Resolve(old(State()), sig, a).side && quantity == Resolve(old(State()), sig, a).quantity
    {
      if sig.target.None? { return sig.side, sig.quantity.value; }
      var current := GetOrCreatePosition(a, sig.symbol);
      var delta := CalculateDelta(current, sig.target.value);
      side, quantity := OrElse(delta.side, sig.side), delta.quantity;
    }

    /** db.add, db.flush and the initial log entry. */
    method CreateRow(e: Execution) returns (id: nat)
      requires Valid() && e.status == Created
      modifies db
      ensures id == |old(db.executions)| < |db.executions| && db.executions[id] == e
      ensures db.State().Now() == old(db.State().Now()).Insert(e) && db.saved == |db.executions|
    {
      CreationInserts(db.State(), e);
      id := db.AddExecution(e);
      db.FlushRows();
      var _ := db.RecordInitialState(id);
    }

    method Advance(id: nat, to: Status)
      requires id < |db.executions| == db.saved && to in Allowed(db.executions[id].status)
      modifies db
      ensures db.State().Now() == old(db.State().Now()).Advance(id, to, None)
      ensures Valid() && db.executions == old(db.executions)[id := old(db.executions)[id].(status := to)]
    {
      var _ := db.TransitionExecution(id, to);
      CommitIsDurable(db.State());
      db.CommitRows();
    }

    method FillRow(id: nat)
      requires id < |db.executions| == db.saved && db.executions[id].status == Submitted
      modifies db
      ensures db.State().Now()
           == old(db.State().Now()).Advance(id, Filled, Some(MockExchangeId(old(db.executions)[id].clientOrderId)))
      ensures db.saved == |db.executions|
    {
      ghost var before := db.State().Now();
      db.NameExchangeOrder(id, MockExchangeId(db.executions[id].clientOrderId));
      var _ := db.TransitionExecution(id, Filled);
      assert db.State().Now().executions
          == before.Advance(id, Filled, Some(MockExchangeId(before.executions[id].clientOrderId))).executions;
    }

    /** The risk reasons against one order, on the account's settings or fresh ones. */
    method RiskReasons(e: Execution, allowNonSimulation: bool) returns (reasons: seq<RiskReason>)
      requires e.account < |accounts| && db.State().saved == |db.executions|
      modifies this`risk, db
      ensures State() == EnsureRisk(old(State()), e.account)
      ensures reasons == CheckOrderRisk(accounts[e.account], EnsureRisk(old(State()), e.account).risk[e.account],
                                        e.symbol, e.quantity, e.price, allowNonSimulation)
      ensures db.executions == old(db.executions) && db.saved == |db.executions|
      ensures old(Valid()) ==> Valid()
    {
      var settings := GetOrCreateRiskSettings(e.account);
      reasons := CheckOrderRisk(accounts[e.account], settings, e.symbol, e.quantity, e.price, allowNonSimulation);
    }

    /** RISK_PASSED and then SUBMITTED for a row just inserted. */
    method WalkToSubmitted(id: nat, ghost o: Orders, ghost e: Execution)
      requires db.State().Now() == o.Insert(e) && id == |o.executions| && db.saved == |db.executions|
      requires e.status == Created
      modifies db
      ensures db.State().Now() == InsertedThenSubmitted(o, e) && Valid()
    {
      var _ := db.TransitionExecution(id, RiskPassed);
      Advance(id, Submitted);
    }

    /** The same, committed one by one, and then FILLED under the mock exchange's id. */
    method WalkToFilled(id: nat, ghost o: Orders, ghost e: Execution)
      requires db.State().Now() == o.Insert(e) && id == |o.executions| && db.saved == |db.executions|
      requires e.status == Created
      modifies db
      ensures db.State().Now() == InsertedThenFilled(o, e) && db.saved == |db.executions|
    {
      Advance(id, RiskPassed);
      Advance(id, Submitted);
      FillRow(id);
    }

    /** Fail a row just inserted. */
    method WalkToFailed(id: nat, to: Status, ghost o: Orders, ghost e: Execution)
      requires db.State().Now() == o.Insert(e) && id == |o.executions| && db.saved == |db.executions|
      requires e.status == Created && (to == Failed || to == Rejected)
      modifies db
      ensures db.State().Now() == (if to == Failed then InsertedThenFailed(o, e)
          else InsertedThenRejected(o, e)) && Valid()
    {
      Advance(id, to);
    }

    /** The new row, committed, and what the risk check says about it. */
    method OpenExecution(e: Execution) returns (id: nat, reasons: seq<RiskReason>)
      requires Valid() && e.status == Created && e.account < |accounts|
      modifies this`risk, db
      ensures Valid() && id == old(|db.executions|) < |db.executions| && db.executions[id] == e
      ensures State() == EnsureRisk(old(State()), e.account).(orders := old(State()).orders.Insert(e))
      ensures reasons == EngineReasons(old(State()), e)
    {
      id := CreateRow(e);
      CommitIsDurable(db.State());
      db.CommitRows();
      reasons := RiskReasons(e, false);
    }

    method FailPlaced(id: nat, e: Execution, ghost w: World)
      requires Valid() && db.saved == |db.executions| && id == |w.orders.executions| && e.status == Created
      requires e.account < |w.accounts| && (EngineReasons(w, e) != [] || e.quantity <= 0.0)
      requires State() == EnsureRisk(w, e.account).(orders := w.orders.Insert(e))
      modifies db
      ensures Valid() && State() == PlaceOrder(w, e)
    {
      WalkToFailed(id, Failed, w.orders, e);
      PlaceOrderFails(w, e);
    }

    method FillPlaced(id: nat, e: Execution, ghost w: World)
      requires Valid() && db.saved == |db.executions| && id == |w.orders.executions| && e.status == Created
      requires e.account < |w.accounts| && EngineReasons(w, e) == [] && e.quantity > 0.0
      requires State() == EnsureRisk(w, e.account).(orders := w.orders.Insert(e))
      modifies this`positions, db
      ensures Valid() && State() == PlaceOrder(w, e)
    {
      WalkToFilled(id, w.orders, e);
      PlaceOrderFills(w, e, State());
      ApplyFill(e.account, e.symbol, e.side, e.quantity);
    }

    /** From the committed CREATED row to FAILED or FILLED. */
    method PlaceExecution(e: Execution) returns (id: nat)
      requires Valid() && e.status == Created && e.account < |accounts|
      modifies this`positions, this`risk, db
      ensures Valid() && State() == PlaceOrder(old(State()), e)
      ensures id == old(|db.executions|)
    {
      ghost var w := State();
      var reasons;
      id, reasons := OpenExecution(e);
      if reasons != [] || e.quantity <= 0.0 {
        FailPlaced(id, e, w);
      } else {
        FillPlaced(id, e, w);
      }
    }

    method ExecuteSignalForAccount(user: nat, sid: nat, a: nat) returns (r: Result<nat, EngineError>)
      requires Valid()
      modifies this`positions, this`risk, db
      ensures Valid()
      ensures State() == ExecuteSignal(old(State()), user, sid, a).world
      ensures r == ExecuteSignal(old(State()), user, sid, a).result
    {
      if stop { return Err(EngineStopped); }
      if sid >= |signals| || signals[sid].owner != user { return Err(SignalNotFound); }
      if a >= |accounts| || accounts[a].owner != user { return Err(AccountNotFound); }
      var existing := ExistingFor(db.executions, sid, a);
      if existing.Some? { return Ok(existing.value); }
      var sig, acc := signals[sid], accounts[a];
      if sig.target.None? && sig.quantity.None? { return Err(QuantityRequired); }
      var side, quantity := ResolveSideAndQuantity(sig, a);
      var clientId := EngineClientId(sig, acc);
      var e := Execution(user, sid, a, acc.exchange, clientId, None, sig.symbol, side, sig.price, quantity, Created);
      if ClientIdTaken(db.executions, clientId).Some? {
        // The flush violates the unique key; closing the session rolls back.
        var _ := db.AddExecution(e);
        db.RollbackRows();
        return Err(ClientIdCollision);
      }
      var id := PlaceExecution(e);
      return Ok(id);
    }

    method ApprovalBlockedReasons(role: Role, a: nat, minutes: int, acknowledged: bool)
        returns (reasons: seq<ApprovalReason>)
      requires a < |accounts|
      ensures reasons == ApprovalReasons(State(), role, a, minutes, acknowledged)
    {
      var acc := accounts[a];
      reasons := When(role == NormalUser, NotAdmin);
      reasons := reasons + When(acc.exchange == Mock, ExchangeUnsupported);
      reasons := reasons + When(!acc.active, AccountInactive);
      reasons := reasons + When(acc.mode != Testnet, NotTestnet);
      reasons := reasons + When(adapters, AdaptersAlreadyOn);
      reasons := reasons + When(acc.tradingEnabled, AccountAlreadyOn);
      reasons := reasons + (if a !in risk then [RiskMissing]
                            else When(risk[a].tradingEnabled, RiskAlreadyOn));
      reasons := reasons + When(a !in secrets, ApiKeyMissing);
      reasons := reasons + When(minutes < 1 || minutes > 10, BadDuration);
      reasons := reasons + When(!acknowledged, NotAcknowledged);
    }

    method RecordWindowApproval(role: Role, entry: Approval, acknowledged: bool) returns (r: Result<nat, ApprovalError>)
      requires Valid()
      modifies this`approvals
      ensures Valid()
      ensures State() == Approve(old(State()), role, entry, acknowledged).world
      ensures r == Approve(old(State()), role, entry, acknowledged).result
    {
      if entry.account >= |accounts| || accounts[entry.account].owner != entry.user { return Err(NoSuchAccount); }
      var reasons := ApprovalBlockedReasons(role, entry.account, entry.minutes, acknowledged);
      if reasons != [] { return Err(ApprovalBlocked(reasons)); }
      approvals := approvals + [entry];
      return Ok(|approvals| - 1);
    }

    /** The new signal and row, flushed, and what the risk check says about the row. */
    method OpenSubmission(user: nat, req: SubmitRequest) returns (id: nat, reasons: seq<RiskReason>)
      requires Valid() && req.account < |accounts|
      modifies this`signals, this`risk, db
      ensures id == old(|db.executions|) < |db.executions| == db.saved
      ensures db.executions[id] == SubmitExecution(old(State()), user, req)
      ensures State() == EnsureRisk(old(State()), req.account).(
                signals := old(signals) + [SubmitSignal(user, req)],
                orders := old(State()).orders.Insert(SubmitExecution(old(State()), user, req)))
      ensures var e := SubmitExecution(old(State()), user, req);
              reasons == CheckOrderRisk(accounts[req.account], EnsureRisk(old(State()), req.account).risk[req.account],
                                        e.symbol, e.quantity, e.price, true)
    {
      var sid := |signals|;
      signals := signals +
          [Signal(user, req.signalKey, Upper(req.symbol), req.side, req.price, Some(req.quantity), None)];
      var e := Execution(user, sid, req.account, accounts[req.account].exchange, req.clientOrderId, None,
                         Upper(req.symbol), req.side, req.price, req.quantity, Created);
      id := CreateRow(e);
      reasons := RiskReasons(e, true);
    }

    method CreateOrGetSubmission(user: nat, req: SubmitRequest) returns (r: Result<nat, SubmitError>, replay: bool)
      requires Valid() && req.account < |accounts|
      modifies this`signals, this`risk, db
      ensures Valid()
      ensures var s := CreateOrGet(old(State()), user, req);
              State() == s.world && r == s.result && replay == s.replay
    {
      ghost var w := State();
      ghost var e := SubmitExecution(w, user, req);
      var existing := ClientIdTaken(db.executions, req.clientOrderId);
      if existing.Some? {
        var found := db.executions[existing.value];
        if found.owner != user || found.account != req.account || found.exchange != accounts[req.account].exchange {
          return Err(ClientIdConflict), false;
        }
        return Ok(existing.value), true;
      }
      var id, reasons := OpenSubmission(user, req);
      if reasons != [] {
        WalkToFailed(id, Rejected, w.orders, e);
        return Err(RiskRejected), false;
      }
      WalkToSubmitted(id, w.orders, e);
      return Ok(id), false;
    }

    method SubmitTestnetOrder(user: nat, req: SubmitRequest, now: real)
        returns (r: Result<nat, SubmitError>, replay: bool)
      requires Valid()
      modifies this`signals, this`risk, db
      ensures Valid()
      ensures var s := Submit(old(State()), user, req, now);
              State() == s.world && r == s.result && replay == s.replay
    {
      if stop { return Err(SubmitStopped), false; }
      if req.account >= |accounts| || accounts[req.account].owner != user { return Err(SubmitNoAccount), false; }
      var settings := GetOrCreateRiskSettings(req.account);
      var acc := accounts[req.account];
      var gate := When(acc.exchange == Mock, GateExchange);
      gate := gate + When(acc.mode != Testnet, GateMode);
      gate := gate + When(!adapters, GateAdapters);
      gate := gate + When(!acc.tradingEnabled, GateAccount);
      gate := gate + When(!settings.tradingEnabled, GateRisk);
      gate := gate + When(req.account !in secrets, GateApiKey);
      gate := gate + When(!req.confirmed, GateConfirmation);
      assert gate == GateReasons(EnsureRisk(old(State()), req.account), req);
      if gate != [] { return Err(Blocked(gate)), false; }
      var window := RequireWindow(user, req, now);
      if window != [] { return Err(Blocked(window)), false; }
      r, replay := CreateOrGetSubmission(user, req);
    }

    method RequireWindow(user: nat, req: SubmitRequest, now: real) returns (reasons: seq<BlockReason>)
      ensures reasons == WindowReasons(State(), user, req, now)
    {
      reasons := When(req.price.None?, PriceRequired);
      var latest := LatestApproval(approvals, user, req.account);
      if latest.None? { return reasons + [ApprovalMissing]; }
      var terms := TermsOf(approvals[latest.value], req, now);
      reasons := reasons + terms;
    }

    static method TermsOf(ap: Approval, req: SubmitRequest, now: real) returns (terms: seq<BlockReason>)
      ensures terms == WindowTerms(ap, req, now)
    {
      terms := When(Normalized(ap.symbol) != Normalized(req.symbol), SymbolMismatch);
      terms := terms + When(ap.side != req.side, SideMismatch);
      terms := terms + When(req.quantity > ap.maxQuantity, QuantityExceeded);
      terms := terms + When(req.price.Some? && req.quantity * req.price.value > ap.maxNotional, WindowNotionalExceeded);
      terms := terms + (if ap.minutes < 1 || ap.minutes > 10 then [DurationInvalid]
                        else When(now > ap.createdAt + 60.0 * (ap.minutes as real), WindowExpired));
    }

    method RecordSubmissionAccepted(id: nat, reply: Reply) returns (ok: bool)
      requires Valid()
      modifies db
      ensures Valid()
      ensures State() == old(State()).(orders := RecordAccepted(old(State()).orders, id, reply).orders)
      ensures ok == RecordAccepted(old(State()).orders, id, reply).ok
    {
      if id >= |db.executions| || reply.Refused? || db.executions[id].status != Submitted { return false; }
      ghost var before := db.State().Now();
      if reply.orderId.Some? { db.NameExchangeOrder(id, reply.orderId.value); }
      Advance(id, Accepted);
      assert db.State().Now().executions == before.Advance(id, Accepted, reply.orderId).executions;
      return true;
    }

    method RecordSubmissionFailure(id: nat)
      requires Valid()
      modifies db
      ensures Valid()
      ensures State() == old(State()).(orders := RecordFailure(old(State()).orders, id))
    {
      if id >= |db.executions| || db.executions[id].status != Submitted { return; }
      Advance(id, Failed);
    }

    /** Look up every pending row over REST and feed each answer to the event step. */
    method ReconcilePendingOrders(user: nat, a: nat, lookup: Lookup)
      requires Valid()
      modifies db
      ensures Valid()
      ensures State() == ReconcilePending(old(State()), user, a, lookup)
    {
      if a >= |accounts| || accounts[a].owner != user || !accounts[a].active || accounts[a].mode != Testnet
         || accounts[a].exchange == Mock || accounts[a].tradingEnabled || a !in secrets { return; }
      var ids := PendingIds(db.executions, user, a);
      for i := 0 to |ids|
        invariant Valid()
        invariant ReconcileRows(db.State().Now(), user, a, ids[i..], lookup)
               == ReconcileRows(old(db.State().Now()), user, a, ids, lookup)
      {
        assert ids[i..][0] == ids[i] && ids[i..][1..] == ids[i + 1..];
        var found := lookup(ids[i]);
        if found.Some? {
          var _ := Apply(db, user, a, found.value, ids[i]);
        }
      }
    }

    method SwitchEmergencyStop(enabled: bool)
      requires Valid()
      modifies this`stop, this`accounts, this`risk
      ensures Valid() && State() == SetEmergencyStop(old(State()), enabled)
    {
      stop := enabled;
      if enabled {
        var before, settings := accounts, risk;
        accounts := seq(|before|, i requires 0 <= i < |before| => before[i].(tradingEnabled := false));
        risk := map a | a in settings :: settings[a].(tradingEnabled := false);
        assert accounts == SetEmergencyStop(old(State()), true).accounts;
      }
    }

    method UpdateRiskSettings(user: nat, a: nat, p: RiskPatch)
      requires Valid()
      modifies this`risk, db
      ensures Valid() && State() == PatchRisk(old(State()), user, a, p)
    {
      if a >= |accounts| || accounts[a].owner != user || accounts[a].mode != Simulation { return; }
      var settings := GetOrCreateRiskSettings(a);
      if p.tradingEnabled.Some? { settings := settings.(tradingEnabled := p.tradingEnabled.value); }
      if p.blocked.Some? { settings := settings.(blocked := set s | s in p.blocked.value :: Upper(s)); }
      if p.minQuantity.Some? { settings := settings.(minQuantity := p.minQuantity.value); }
      if p.maxQuantity.Some? { settings := settings.(maxQuantity := p.maxQuantity.value); }
      if p.maxNotional.Some? { settings := settings.(maxNotional := p.maxNotional.value); }
      risk := risk[a := settings];
    }
  }
}
