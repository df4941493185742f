/** What each ledger call answers and leaves behind, in terms of the rows and the request alone. */
module Outcomes {
  import opened Common
  import opened Text
  import opened OrderStateMachine
  import opened OrderLifecycle
  import opened Ledger
  import opened LedgerInvariants
  import opened Positions
  import opened Interlocks

  // ---- executing a signal ---------------------------------------------------------------

  /** The limits of an account's settings: nothing is allowed without a settings row. */
  predicate WithinLimits(w: World, a: nat, symbol: string, q: real, price: Option<real>) {
    && a in w.risk
    && var r := w.risk[a];
       && r.tradingEnabled && symbol !in r.blocked
       && (r.minQuantity.Some? ==> q >= r.minQuantity.value)
       && (r.maxQuantity.Some? ==> q <= r.maxQuantity.value)
       && (r.maxNotional.Some? ==>
             (if price.Some? && price.value != 0.0 then q * price.value else q) <= r.maxNotional.value)
  }

  /** The engine fills: a simulated account with its flag on, a positive quantity, and the limits. */
  predicate Fills(w: World, a: nat, symbol: string, q: real, price: Option<real>)
    requires a < |w.accounts|
  {
    && w.accounts[a].mode == Simulation && w.accounts[a].tradingEnabled
    && q > 0.0 && WithinLimits(w, a, symbol, q, price)
  }

  /** Nothing stands between the signal and a new row for it. */
  predicate Executable(w: World, user: nat, sid: nat, a: nat) {
    && !w.stop
    && sid < |w.signals| && w.signals[sid].owner == user
    && a < |w.accounts| && w.accounts[a].owner == user
    && (forall i :: 0 <= i < |w.orders.executions| ==>
          w.orders.executions[i].signal != sid || w.orders.executions[i].account != a)
    && (w.signals[sid].target.Some? || w.signals[sid].quantity.Some?)
    && (forall i :: 0 <= i < |w.orders.executions| ==>
          w.orders.executions[i].clientOrderId != EngineClientId(w.signals[sid], w.accounts[a]))
  }

  /** The engine adds exactly one row, for this signal on this account, and answers with it. */
  ghost predicate AddsFor(w: World, user: nat, sid: nat, a: nat, side: Side, q: real, filled: bool)
    requires sid < |w.signals| && a < |w.accounts|
  {
    var r := ExecuteSignal(w, user, sid, a);
    var es, es', n := w.orders.executions, r.world.orders.executions, |w.orders.executions|;
    && |es'| == n + 1 && es'[..n] == es && r.result == Ok(n)
    && es'[n].owner == user && es'[n].signal == sid && es'[n].account == a
    && es'[n].exchange == w.accounts[a].exchange && es'[n].symbol == w.signals[sid].symbol
    && es'[n].price == w.signals[sid].price && es'[n].side == side && es'[n].quantity == q
    && es'[n].status == (if filled then Filled else Failed)
  }

  /** Positions of every account and symbol, except that the account's own in `symbol` became `q`. */
  ghost predicate MovesOnly(w: World, w': World, a: nat, symbol: string, q: real) {
    && PositionOf(w', a, symbol) == q
    && forall b: nat, s: string :: b != a || s != symbol ==> PositionOf(w', b, s) == PositionOf(w, b, s)
  }

  /** What the settings row the engine may create leaves of the limits: nothing. */
  lemma LimitsAfterEnsure(w: World, a: nat, symbol: string, q: real, price: Option<real>)
    requires a < |w.accounts|
    ensures var risk := EnsureRisk(w, a).risk[a];
            CheckOrderRisk(w.accounts[a], risk, symbol, q, price, false) == [] <==>
              && w.accounts[a].mode == Simulation && w.accounts[a].tradingEnabled
              && WithinLimits(w, a, symbol, q, price)
  {
  }

  /** A fresh row for given side and quantity: filled exactly if `Fills` says so. */
  lemma PlacedOutcome(w: World, e: Execution)
    requires e.account < |w.accounts| && e.status == Created
    ensures var w' := PlaceOrder(w, e);
            var n := |w.orders.executions|;
            var filled := Fills(w, e.account, e.symbol, e.quantity, e.price);
            && |w'.orders.executions| == n + 1 && w'.orders.executions[..n] == w.orders.executions
            && w'.orders.executions[n]
               == e.(status := if filled then Filled else Failed,
                     exchangeOrderId := if filled then Some("mock-" + e.clientOrderId) else e.exchangeOrderId)
            && MovesOnly(w, w', e.account, e.symbol, PositionOf(w, e.account, e.symbol) +
                 (if !filled then 0.0 else if e.side == OrderStateMachine.Buy then e.quantity else -e.quantity))
  {
    LimitsAfterEnsure(w, e.account, e.symbol, e.quantity, e.price);
    AddedRows(w.orders, e);
  }

  lemma NothingFound(w: World, user: nat, sid: nat, a: nat)
    requires Executable(w, user, sid, a)
    ensures ExistingFor(w.orders.executions, sid, a).None?
    ensures ClientIdTaken(w.orders.executions, EngineClientId(w.signals[sid], w.accounts[a])).None?
  {
  }

  lemma ExecutableIsPlaced(w: World, user: nat, sid: nat, a: nat)
    requires Executable(w, user, sid, a)
    ensures var p := Resolve(w, w.signals[sid], a);
            && p.world == w.(positions := p.world.positions)
            && ExecuteSignal(w, user, sid, a)
               == Engine(PlaceOrder(p.world, EngineExecution(w, user, sid, a, p.side, p.quantity)),
                         Ok(|w.orders.executions|))
  {
    NothingFound(w, user, sid, a);
    ResolvedIsPositions(w, w.signals[sid], a);
  }

  /** A signal with a plain quantity becomes a row with the signal's own side and quantity, filled
      exactly if the account, the flags and the limits allow it, and moves the position by it. */
  lemma QuantitySignalOutcome(w: World, user: nat, sid: nat, a: nat)
    requires Executable(w, user, sid, a) && w.signals[sid].target.None?
    ensures var sig := w.signals[sid];
            var q := sig.quantity.value;
            var filled := Fills(w, a, sig.symbol, q, sig.price);
            && AddsFor(w, user, sid, a, sig.side, q, filled)
            && MovesOnly(w, ExecuteSignal(w, user, sid, a).world, a, sig.symbol, PositionOf(w, a, sig.symbol) +
                 (if !filled then 0.0 else if sig.side == OrderStateMachine.Buy then q else -q))
  {
    ExecutableIsPlaced(w, user, sid, a);
    PlacedOutcome(w, EngineExecution(w, user, sid, a, w.signals[sid].side, w.signals[sid].quantity.value));
  }

  /** How far a target is from the position, and which way. */
  function Distance(from: real, target: real): real { if from < target then target - from else from - target }

  /** A signal with a target becomes a row over the distance, bought or sold as that demands, filled
      exactly if the account, the flags and the limits allow that distance, and then moves the
      position to the target. At the target already, the row fails. */
  lemma TargetSignalOutcome(w: World, user: nat, sid: nat, a: nat)
    requires Executable(w, user, sid, a) && w.signals[sid].target.Some?
    ensures var sig := w.signals[sid];
            var from, target := PositionOf(w, a, sig.symbol), sig.target.value;
            var side := if from < target then OrderStateMachine.Buy
                        else if from > target then OrderStateMachine.Sell else sig.side;
            var filled := Fills(w, a, sig.symbol, Distance(from, target), sig.price);
            && AddsFor(w, user, sid, a, side, Distance(from, target), filled)
            && MovesOnly(w, ExecuteSignal(w, user, sid, a).world, a, sig.symbol, if filled then target else from)
  {
    var r := Resolve(w, w.signals[sid], a);
    var e := EngineExecution(w, user, sid, a, r.side, r.quantity);
    ExecutableIsPlaced(w, user, sid, a);
    TargetDistance(w, w.signals[sid], a);
    PlacedOutcome(r.world, e);
    SameLimits(w, r.world, a, e.symbol, e.quantity, e.price);
  }

  lemma SameLimits(w: World, p: World, a: nat, symbol: string, q: real, price: Option<real>)
    requires a < |w.accounts| && p == w.(positions := p.positions)
    ensures Fills(p, a, symbol, q, price) == Fills(w, a, symbol, q, price)
  {
  }

  lemma TargetDistance(w: World, sig: Signal, a: nat)
    requires sig.target.Some?
    ensures var r := Resolve(w, sig, a);
            var from, target := PositionOf(w, a, sig.symbol), sig.target.value;
            && r.quantity == Distance(from, target)
            && r.side == (if from < target then OrderStateMachine.Buy
                          else if from > target then OrderStateMachine.Sell else sig.side)
            && r.world == w.(positions := r.world.positions)
            && forall b: nat, s: string :: PositionOf(r.world, b, s) == PositionOf(w, b, s)
  {
  }

  /** Every other call adds no row: it refuses, or answers with the row this signal and account
      already have. */
  lemma ExecuteRefusals(w: World, user: nat, sid: nat, a: nat)
    requires !Executable(w, user, sid, a)
    ensures var r := ExecuteSignal(w, user, sid, a);
            && r.world.orders == w.orders && r.world.risk == w.risk
            && (w.stop <==> r.result == Err(EngineStopped))
            && (r.result.Ok? ==>
                  && r.result.value < |w.orders.executions| && r.world == w
                  && var e := w.orders.executions[r.result.value]; e.signal == sid && e.account == a)
            && (r.result.Ok? <==>
                  && !w.stop && sid < |w.signals| && w.signals[sid].owner == user
                  && a < |w.accounts| && w.accounts[a].owner == user
                  && exists i :: 0 <= i < |w.orders.executions|
                       && w.orders.executions[i].signal == sid && w.orders.executions[i].account == a)
            && (forall b: nat, s: string :: PositionOf(r.world, b, s) == PositionOf(w, b, s))
  {
  }

  /** The client order id: eight characters of the signal's and eight of the account's UUID. */
  lemma ClientIdOf(sig: Signal, acc: Account, s8: string, sRest: string, a8: string, aRest: string)
    requires |s8| == 8 && |a8| == 8 && sig.key == s8 + sRest && acc.key == a8 + aRest
    ensures EngineClientId(sig, acc) == "sig-" + s8 + "-acct-" + a8
  {
    assert sig.key[..8] == s8 && acc.key[..8] == a8;
  }

  // ---- submitting a testnet order --------------------------------------------------------

  /** What an approval grants: its symbol up to case and outer blanks, its side, its bounds, and its
      minutes. */
  predicate Grants(ap: Approval, req: SubmitRequest, now: real) {
    && req.price.Some?
    && Normalized(ap.symbol) == Normalized(req.symbol) && ap.side == req.side
    && req.quantity <= ap.maxQuantity && req.quantity * req.price.value <= ap.maxNotional
    && 1 <= ap.minutes <= 10 && now - ap.createdAt <= 60.0 * ap.minutes as real
  }

  /** The newest entry for this user and account, the later one of two equally new ones. */
  ghost predicate IsLatest(log: seq<Approval>, user: nat, a: nat, i: nat) {
    && i < |log| && log[i].user == user && log[i].account == a
    && forall j :: 0 <= j < |log| && log[j].user == user && log[j].account == a ==>
         log[j].createdAt < log[i].createdAt || (log[j].createdAt == log[i].createdAt && j <= i)
  }

  /** The switches and the approval a submission needs. */
  ghost predicate Admitted(w: World, user: nat, req: SubmitRequest, now: real) {
    && !w.stop && req.account < |w.accounts|
    && var acc := w.accounts[req.account];
       && acc.owner == user && acc.mode == Testnet && acc.exchange != Mock && acc.tradingEnabled
       && w.adapters && req.account in w.risk && w.risk[req.account].tradingEnabled
       && req.account in w.secrets && req.confirmed
       && exists i: nat :: IsLatest(w.approvals, user, req.account, i) && Grants(w.approvals[i], req, now)
  }

  lemma {:induction false} FoundIsLatest(log: seq<Approval>, user: nat, a: nat)
    ensures LatestApproval(log, user, a).Some? ==> IsLatest(log, user, a, LatestApproval(log, user, a).value)
  {
    if log != [] {
      FoundIsLatest(log[..|log| - 1], user, a);
    }
  }

  lemma LatestIs(log: seq<Approval>, user: nat, a: nat, i: nat)
    ensures LatestApproval(log, user, a) == Some(i) <==> IsLatest(log, user, a, i)
  {
    FoundIsLatest(log, user, a);
  }

  lemma GrantsIsCovers(ap: Approval, req: SubmitRequest, now: real)
    ensures Grants(ap, req, now) <==> Covers(ap, req, now)
  {
  }

  lemma AdmittedIff(w: World, user: nat, req: SubmitRequest, now: real)
    ensures SubmitAllowed(w, user, req, now) <==> Admitted(w, user, req, now)
  {
    var latest := LatestApproval(w.approvals, user, req.account);
    if latest.Some? {
      LatestIs(w.approvals, user, req.account, latest.value);
      GrantsIsCovers(w.approvals[latest.value], req, now);
    }
    if i: nat :| IsLatest(w.approvals, user, req.account, i) && Grants(w.approvals[i], req, now) {
      LatestIs(w.approvals, user, req.account, i);
    }
  }

  /** An admitted submission gets to its row with the world as it is. */
  lemma AdmittedGetsThrough(w: World, user: nat, req: SubmitRequest, now: real)
    requires Admitted(w, user, req, now)
    ensures Submit(w, user, req, now) == CreateOrGet(w, user, req) && EnsureRisk(w, req.account) == w
  {
    AdmittedIff(w, user, req, now);
  }

  /** A submission that is not admitted changes no order, signal, account or switch, and says why:
      the stop, an account that is not the user's, or what blocks it. */
  lemma SubmitRefused(w: World, user: nat, req: SubmitRequest, now: real)
    requires !Admitted(w, user, req, now)
    ensures var r := Submit(w, user, req, now);
            && r.world.orders == w.orders && r.world.signals == w.signals && !r.replay && r.result.Err?
            && (r.result == Err(SubmitStopped) <==> w.stop)
            && (r.result == Err(SubmitNoAccount) <==>
                  !w.stop && (req.account >= |w.accounts| || w.accounts[req.account].owner != user))
            && (r.result.error.Blocked? <==>
                  !w.stop && req.account < |w.accounts| && w.accounts[req.account].owner == user)
  {
    AdmittedIff(w, user, req, now);
  }

  lemma HolderIsFound(o: Orders, id: nat)
    requires Distinct(o) && id < |o.executions|
    ensures ClientIdTaken(o.executions, o.executions[id].clientOrderId) == Some(id)
  {
  }

  /** Whoever holds the client order id already: only the same user, on the same account and
      exchange, gets that row back; anybody else gets a conflict. Nothing is stored. */
  lemma SubmitReplay(w: World, user: nat, req: SubmitRequest, now: real, id: nat)
    requires Distinct(w.orders) && Admitted(w, user, req, now)
    requires id < |w.orders.executions| && w.orders.executions[id].clientOrderId == req.clientOrderId
    ensures var r, e := Submit(w, user, req, now), w.orders.executions[id];
            var own := e.owner == user && e.account == req.account && e.exchange == w.accounts[req.account].exchange;
            r.world == w && r.replay == own && r.result == (if own then Ok(id) else Err(ClientIdConflict))
  {
    AdmittedGetsThrough(w, user, req, now);
    HolderIsFound(w.orders, id);
  }

  /** A new client order id stores one signal and one row with what was asked for, SUBMITTED
      exactly if the limits allow it and REJECTED otherwise. */
  lemma SubmitNew(w: World, user: nat, req: SubmitRequest, now: real)
    requires Admitted(w, user, req, now)
    requires forall i :: 0 <= i < |w.orders.executions| ==> w.orders.executions[i].clientOrderId != req.clientOrderId
    ensures var r := Submit(w, user, req, now);
            var n, es := |w.orders.executions|, r.world.orders.executions;
            var allowed := WithinLimits(w, req.account, Upper(req.symbol), req.quantity, req.price);
            && !r.replay && r.result == (if allowed then Ok(n) else Err(RiskRejected))
            && |es| == n + 1 && es[..n] == w.orders.executions
            && es[n] == Execution(user, |w.signals|, req.account, w.accounts[req.account].exchange,
                                  req.clientOrderId, None, Upper(req.symbol), req.side, req.price, req.quantity,
                                  if allowed then Submitted else Rejected)
            && |r.world.signals| == |w.signals| + 1 && r.world.signals[..|w.signals|] == w.signals
            && r.world.signals[|w.signals|] == Signal(user, req.signalKey, Upper(req.symbol), req.side, req.price,
                                                      Some(req.quantity), None)
            && r.world == w.(orders := r.world.orders, signals := r.world.signals)
  {
    AdmittedGetsThrough(w, user, req, now);
    var e := SubmitExecution(w, user, req);
    NewRowStored(w, user, req);
    AddedRows(w.orders, e);
  }

  lemma TestnetLimits(w: World, a: nat, symbol: string, q: real, price: Option<real>)
    requires a < |w.accounts| && w.accounts[a].tradingEnabled && a in w.risk
    ensures CheckOrderRisk(w.accounts[a], w.risk[a], symbol, q, price, true) == []
            <==> WithinLimits(w, a, symbol, q, price)
  {
  }

  lemma NewRowStored(w: World, user: nat, req: SubmitRequest)
    requires req.account < |w.accounts| && w.accounts[req.account].tradingEnabled && req.account in w.risk
    requires forall i :: 0 <= i < |w.orders.executions| ==> w.orders.executions[i].clientOrderId != req.clientOrderId
    ensures var allowed := WithinLimits(w, req.account, Upper(req.symbol), req.quantity, req.price);
            var e := SubmitExecution(w, user, req);
            var o := if allowed then InsertedThenSubmitted(w.orders, e) else InsertedThenRejected(w.orders, e);
            CreateOrGet(w, user, req)
            == Submitting(w.(orders := o, signals := w.signals + [SubmitSignal(user, req)]),
                          if allowed then Ok(|w.orders.executions|) else Err(RiskRejected), false)
  {
    TestnetLimits(w, req.account, Upper(req.symbol), req.quantity, req.price);
  }

  // ---- approvals ----------------------------------------------------------------------------

  /** An approval is recorded, as the last entry, exactly under these conditions; a refusal
      changes nothing. */
  lemma ApproveOutcome(w: World, role: Role, entry: Approval, acknowledged: bool)
    ensures var r := Approve(w, role, entry, acknowledged);
            var a := entry.account;
            && (r.result.Ok? <==>
                  && a < |w.accounts| && w.accounts[a].owner == entry.user
                  && (role == SuperAdmin || role == Admin) && w.accounts[a].exchange != Mock
                  && w.accounts[a].active && w.accounts[a].mode == Testnet
                  && !w.adapters && !w.accounts[a].tradingEnabled
                  && a in w.risk && !w.risk[a].tradingEnabled && a in w.secrets
                  && 1 <= entry.minutes <= 10 && acknowledged)
            && (r.result == Err(NoSuchAccount) <==> a >= |w.accounts| || w.accounts[a].owner != entry.user)
            && r.world == (if r.result.Ok? then w.(approvals := w.approvals + [entry]) else w)
  {
  }

  // ---- what the exchange answered ---------------------------------------------------------------

  /** One row moved, its log extended by that move, and nothing else. */
  ghost predicate MovedRow(o: Orders, o': Orders, id: nat, to: Status, name: Option<string>)
    requires id < |o.executions|
  {
    && o'.executions == o.executions[id := o.executions[id].(status := to, exchangeOrderId := name)]
    && |o'.log| == |o.log| + 1 && o'.log[..|o.log|] == o.log
    && o'.log[|o.log|].execution == id && o'.log[|o.log|].from == Some(o.executions[id].status)
    && o'.log[|o.log|].to == to
  }

  /** Acceptance moves a SUBMITTED row to ACCEPTED, under the name the exchange gave it if it did;
      failure moves one to FAILED; every other row, and a refused reply, stays as it is. */
  lemma AnswerOutcome(o: Orders, id: nat, reply: Reply)
    ensures var sent := id < |o.executions| && o.executions[id].status == Submitted;
            && (RecordAccepted(o, id, reply).ok <==> sent && reply.Took?)
            && (if sent && reply.Took?
                then MovedRow(o, RecordAccepted(o, id, reply).orders, id, Accepted,
                              if reply.orderId.Some? then reply.orderId else o.executions[id].exchangeOrderId)
                else RecordAccepted(o, id, reply).orders == o)
            && (if sent then MovedRow(o, RecordFailure(o, id), id, Failed, o.executions[id].exchangeOrderId)
                else RecordFailure(o, id) == o)
  {
  }

  // ---- settings and switches ----------------------------------------------------------------------

  /** A patch of risk settings: the owner's own simulated account only; each field that is named gets
      the value given, in upper case for blocked symbols, and every other one stays. */
  lemma PatchOutcome(w: World, user: nat, a: nat, p: RiskPatch)
    ensures var w' := PatchRisk(w, user, a, p);
            if a >= |w.accounts| || w.accounts[a].owner != user || w.accounts[a].mode != Simulation then w' == w
            else
              && w' == w.(risk := w'.risk) && w'.risk.Keys == w.risk.Keys + {a}
              && (forall b :: b in w.risk && b != a ==> w'.risk[b] == w.risk[b])
              && var r, r' := (if a in w.risk then w.risk[a] else RiskSetting(false, {}, None, None, None)), w'.risk[a];
                 && r'.tradingEnabled == (if p.tradingEnabled.Some? then p.tradingEnabled.value else r.tradingEnabled)
                 && r'.minQuantity == (if p.minQuantity.Some? then p.minQuantity.value else r.minQuantity)
                 && r'.maxQuantity == (if p.maxQuantity.Some? then p.maxQuantity.value else r.maxQuantity)
                 && r'.maxNotional == (if p.maxNotional.Some? then p.maxNotional.value else r.maxNotional)
                 && (if p.blocked.None? then r'.blocked == r.blocked
                     else forall s :: s in r'.blocked <==> exists t :: t in p.blocked.value && s == Upper(t))
  {
  }

  /** An activation turns the stop on and every flag of every account off; a release turns only the
      stop off. */
  lemma StopOutcome(w: World, enabled: bool)
    ensures var w' := SetEmergencyStop(w, enabled);
            && w'.stop == enabled
            && w' == w.(stop := w'.stop, accounts := w'.accounts, risk := w'.risk)
            && |w'.accounts| == |w.accounts| && w'.risk.Keys == w.risk.Keys
            && (forall a :: 0 <= a < |w.accounts| ==>
                  w'.accounts[a] == w.accounts[a].(tradingEnabled := !enabled && w.accounts[a].tradingEnabled))
            && (forall a :: a in w.risk ==>
                  w'.risk[a] == w.risk[a].(tradingEnabled := !enabled && w.risk[a].tradingEnabled))
  {
  }

  /** The owner's update of an account sets what it names; a deletion (below) switches it off. */
  lemma AccountOutcome(w: World, user: nat, a: nat, mode: Option<Mode>, trading: Option<bool>, active: Option<bool>)
    ensures var w' := UpdateAccount(w, user, a, mode, trading, active);
            if a >= |w.accounts| || w.accounts[a].owner != user then w' == w
            else
              && w' == w.(accounts := w'.accounts) && |w'.accounts| == |w.accounts|
              && (forall b :: 0 <= b < |w.accounts| && b != a ==> w'.accounts[b] == w.accounts[b])
              && var x, y := w.accounts[a], w'.accounts[a];
                 && y == x.(mode := y.mode, tradingEnabled := y.tradingEnabled, active := y.active)
                 && y.mode == (if mode.Some? then mode.value else x.mode)
                 && y.tradingEnabled == (if trading.Some? then trading.value else x.tradingEnabled)
                 && y.active == (if active.Some? then active.value else x.active)
  {
  }

  lemma DeletionOutcome(w: World, user: nat, a: nat)
    ensures Step(w, DeleteAccount(user, a))
            == if a >= |w.accounts| || w.accounts[a].owner != user then w
               else w.(accounts := w.accounts[a := w.accounts[a].(tradingEnabled := false, active := false)])
  {
  }

  // ---- the stop over runs ---------------------------------------------------------------------------

  /** The last call before state `k` that set the stop. */
  function LastStop(cs: seq<Call>, k: nat): (r: Option<nat>)
    requires k <= |cs|
    ensures r.Some? ==> r.value < k && cs[r.value].Stop?
  {
    if k == 0 then None else if cs[k - 1].Stop? then Some(k - 1) else LastStop(cs, k - 1)
  }

  lemma OnlyStopSetsTheStop(w: World, c: Call)
    ensures Step(w, c).stop == if c.Stop? then c.enabled else w.stop
  {
    match c {
      case Execute(user, sid, b) => ExecuteKeepsSwitches(w, user, sid, b);
      case SubmitOrder(user, req, now) => SubmitShape(w, user, req, now);
      case _ =>
    }
  }

  /** What the stop is after each call. */
  ghost predicate StopsFollow(stops: seq<bool>, cs: seq<Call>) {
    && |stops| == |cs| + 1 && !stops[0]
    && forall i :: 0 <= i < |cs| ==> stops[i + 1] == if cs[i].Stop? then cs[i].enabled else stops[i]
  }

  function Stops(ws: seq<World>): seq<bool> {
    seq(|ws|, i requires 0 <= i < |ws| => ws[i].stop)
  }

  lemma StopsOfRun(ws: seq<World>, cs: seq<Call>)
    requires IsRun(ws, cs)
    ensures StopsFollow(Stops(ws), cs)
  {
    forall i | 0 <= i < |cs| ensures Stops(ws)[i + 1] == if cs[i].Stop? then cs[i].enabled else Stops(ws)[i] {
      OnlyStopSetsTheStop(ws[i], cs[i]);
    }
  }

  lemma {:induction false} StopsAreLastSet(stops: seq<bool>, cs: seq<Call>, k: nat)
    requires StopsFollow(stops, cs) && k <= |cs|
    ensures stops[k] <==> LastStop(cs, k).Some? && cs[LastStop(cs, k).value] == Stop(true)
  {
    if k > 0 { StopsAreLastSet(stops, cs, k - 1); }
  }

  /** The stop is on exactly if the last call of the run that set it activated it. */
  lemma StopIsLastSet(ws: seq<World>, cs: seq<Call>, k: nat)
    requires IsRun(ws, cs) && k < |ws|
    ensures ws[k].stop <==> LastStop(cs, k).Some? && cs[LastStop(cs, k).value] == Stop(true)
  {
    StopsOfRun(ws, cs);
    StopsAreLastSet(Stops(ws), cs, k);
    assert Stops(ws)[k] == ws[k].stop;
  }

  lemma {:induction false} StopsHold(stops: seq<bool>, cs: seq<Call>, i: nat, k: nat)
    requires StopsFollow(stops, cs) && i < k <= |cs| && cs[i] == Stop(true)
    requires forall j :: i < j < k ==> cs[j] != Stop(false)
    ensures stops[k]
    decreases k
  {
    if k > i + 1 { StopsHold(stops, cs, i, k - 1); }
  }

  /** From an activation until a release no execution is created, whatever is called. */
  lemma NothingCreatedAfterStop(ws: seq<World>, cs: seq<Call>, i: nat, k: nat)
    requires IsRun(ws, cs) && i < k < |ws| && cs[i] == Stop(true)
    requires forall j :: i < j < k ==> cs[j] != Stop(false)
    ensures |ws[k].orders.executions| == |ws[i].orders.executions|
  {
    StopsOfRun(ws, cs);
    forall j | i + 1 <= j < k ensures ws[j].stop {
      StopsHold(Stops(ws), cs, i, j);
      assert Stops(ws)[j] == ws[j].stop;
    }
    NoExecutionWhileStopped(ws, cs, i + 1, k);
    QuietStep(ws[i], cs[i]);
  }
}
