/** The committed state the trading services share, and what every service call makes of it. */
module Ledger {
  import opened Common
  import opened Text
  import opened OrderStateMachine
  import opened OrderLifecycle

  datatype Mode = Simulation | Testnet | Real
  datatype Role = SuperAdmin | Admin | NormalUser

  /** `key` is the row's UUID text; rows are referred to by position in their table. */
  datatype Account = Account(
    owner: nat, key: string, exchange: Exchange, mode: Mode, tradingEnabled: bool, active: bool)

  datatype Signal = Signal(
    owner: nat, key: string, symbol: string, side: Side,
    price: Option<real>, quantity: Option<real>, target: Option<real>)

  datatype RiskSetting = RiskSetting(
    tradingEnabled: bool, blocked: set<string>,
    minQuantity: Option<real>, maxQuantity: Option<real>, maxNotional: Option<real>)

  /** The audit entry testnet.order_window.approval_recorded; times are in seconds. */
  datatype Approval = Approval(
    user: nat, account: nat, symbol: string, side: Side,
    maxQuantity: real, maxNotional: real, minutes: int, createdAt: real)

  datatype World = World(
    accounts: seq<Account>, signals: seq<Signal>, orders: Orders,
    positions: map<(nat, string), real>, risk: map<nat, RiskSetting>,
    stop: bool, approvals: seq<Approval>, secrets: set<nat>, adapters: bool)

  const EmptyWorld := World([], [], Orders([], []), map[], map[], false, [], {}, false)

  predicate Owned(w: World, user: nat, a: nat) {
    a < |w.accounts| && w.accounts[a].owner == user
  }

  predicate AccountOn(w: World, a: nat) {
    a < |w.accounts| && w.accounts[a].tradingEnabled
  }

  predicate RiskOn(w: World, a: nat) {
    a in w.risk && w.risk[a].tradingEnabled
  }

  // ---- positions ------------------------------------------------------------------

  function PositionOf(w: World, a: nat, symbol: string): real {
    if (a, symbol) in w.positions then w.positions[(a, symbol)] else 0.0
  }

  function SetPosition(w: World, a: nat, symbol: string, q: real): World {
    w.(positions := w.positions[(a, symbol) := q])
  }

  /** get_or_create_position */
  function EnsurePosition(w: World, a: nat, symbol: string): World {
    if (a, symbol) in w.positions then w else SetPosition(w, a, symbol, 0.0)
  }

  function Signed(side: Side, q: real): real {
    if side == Buy then q else -q
  }

  datatype Delta = Delta(quantity: real, side: Option<Side>)

  /** calculate_delta: moving by the signed delta lands exactly on the target. */
  function CalculateDelta(current: real, target: real): (d: Delta)
    ensures d.quantity >= 0.0
    ensures d.side.None? <==> current == target
    ensures current + (if d.side.Some? then Signed(d.side.value, d.quantity) else 0.0) == target
  {
    var delta := target - current;
    if delta > 0.0 then Delta(delta, Some(Buy))
    else if delta < 0.0 then Delta(-delta, Some(Sell))
    else Delta(0.0, None)
  }

  // ---- risk -----------------------------------------------------------------------

  datatype RiskReason =
    | ModeNotSimulation | AccountDisabled | RiskDisabled | SymbolBlocked
    | BelowMinimum | AboveMaximum | NotionalExceeded

  function When<T>(c: bool, reason: T): seq<T> {
    if c then [reason] else []
  }

  /** check_order_risk; a missing or zero price counts as 1 for the notional limit. */
  function CheckOrderRisk(acc: Account, risk: RiskSetting, symbol: string, quantity: real,
                          price: Option<real>, allowNonSimulation: bool): (reasons: seq<RiskReason>)
    ensures reasons == [] <==>
      && (acc.mode == Simulation || allowNonSimulation)
      && acc.tradingEnabled && risk.tradingEnabled
      && symbol !in risk.blocked
      && (risk.minQuantity.Some? ==> risk.minQuantity.value <= quantity)
      && (risk.maxQuantity.Some? ==> quantity <= risk.maxQuantity.value)
      && (risk.maxNotional.Some? ==>
            quantity * (if price.Some? && price.value != 0.0 then price.value else 1.0) <= risk.maxNotional.value)
  {
    var p := if price.Some? && price.value != 0.0 then price.value else 1.0;
    When(acc.mode != Simulation && !allowNonSimulation, ModeNotSimulation)
    + When(!acc.tradingEnabled, AccountDisabled)
    + When(!risk.tradingEnabled, RiskDisabled)
    + When(symbol in risk.blocked, SymbolBlocked)
    + When(risk.minQuantity.Some? && quantity < risk.minQuantity.value, BelowMinimum)
    + When(risk.maxQuantity.Some? && quantity > risk.maxQuantity.value, AboveMaximum)
    + When(risk.maxNotional.Some? && quantity * p > risk.maxNotional.value, NotionalExceeded)
  }

  const DefaultRisk := RiskSetting(false, {}, None, None, None)

  /** get_or_create_risk_settings: a missing row is created switched off. */
  function EnsureRisk(w: World, a: nat): (r: World)
    ensures a in r.risk && (forall b :: RiskOn(r, b) == RiskOn(w, b))
    ensures r == w.(risk := r.risk)
  {
    if a in w.risk then w else w.(risk := w.risk[a := DefaultRisk])
  }

  /** Fields a PATCH sets; absent ones stay. */
  datatype RiskPatch = RiskPatch(
    tradingEnabled: Option<bool>, blocked: Option<set<string>>,
    minQuantity: Option<Option<real>>, maxQuantity: Option<Option<real>>, maxNotional: Option<Option<real>>)

  function OrElse<T>(o: Option<T>, d: T): T {
    if o.Some? then o.value else d
  }

  function Patched(r: RiskSetting, p: RiskPatch): RiskSetting {
    RiskSetting(OrElse(p.tradingEnabled, r.tradingEnabled),
                if p.blocked.Some? then (set s | s in p.blocked.value :: Upper(s)) else r.blocked,
                OrElse(p.minQuantity, r.minQuantity), OrElse(p.maxQuantity, r.maxQuantity),
                OrElse(p.maxNotional, r.maxNotional))
  }

  // ---- the order engine -----------------------------------------------------------

  function ClientIdTaken(es: seq<Execution>, id: string): Option<nat> {
    FirstIndex(es, (e: Execution) => e.clientOrderId == id)
  }

  function ExistingFor(es: seq<Execution>, signal: nat, a: nat): Option<nat> {
    FirstIndex(es, (e: Execution) => e.signal == signal && e.account == a)
  }

  function Prefix8(s: string): string {
    if |s| <= 8 then s else s[..8]
  }

  function EngineClientId(sig: Signal, acc: Account): string {
    "sig-" + Prefix8(sig.key) + "-acct-" + Prefix8(acc.key)
  }

  function MockExchangeId(clientId: string): string { "mock-" + clientId }

  datatype EngineError = EngineStopped | SignalNotFound | AccountNotFound | QuantityRequired | ClientIdCollision

  datatype Engine = Engine(world: World, result: Result<nat, EngineError>)

  datatype Resolved = Resolved(world: World, side: Side, quantity: real)

  /** _resolve_side_and_quantity */
  function Resolve(w: World, sig: Signal, a: nat): Resolved
    requires sig.target.Some? || sig.quantity.Some?
  {
    if sig.target.None? then Resolved(w, sig.side, sig.quantity.value)
    else
      var w1 := EnsurePosition(w, a, sig.symbol);
      var d := CalculateDelta(PositionOf(w1, a, sig.symbol), sig.target.value);
      Resolved(w1, OrElse(d.side, sig.side), d.quantity)
  }

  function InsertedThenFailed(o: Orders, e: Execution): Orders {
    o.Insert(e).Advance(|o.executions|, Failed, None)
  }

  function InsertedThenFilled(o: Orders, e: Execution): Orders {
    var id := |o.executions|;
    o.Insert(e).Advance(id, RiskPassed, None).Advance(id, Submitted, None)
     .Advance(id, Filled, Some(MockExchangeId(e.clientOrderId)))
  }

  function EngineExecution(w: World, user: nat, sid: nat, a: nat, side: Side, quantity: real): Execution
    requires sid < |w.signals| && a < |w.accounts|
  {
    var sig, acc := w.signals[sid], w.accounts[a];
    Execution(user, sid, a, acc.exchange, EngineClientId(sig, acc), None, sig.symbol, side, sig.price, quantity,
        Created)
  }

  /** The branch after the new row is committed: fail it, or walk it to FILLED and book the fill. */
  function PlaceOrder(w: World, e: Execution): World
    requires e.account < |w.accounts|
  {
    var w1 := EnsureRisk(w, e.account);
    var reasons := CheckOrderRisk(w.accounts[e.account], w1.risk[e.account], e.symbol, e.quantity, e.price, false);
    if reasons != [] || e.quantity <= 0.0 then w1.(orders := InsertedThenFailed(w.orders, e))
    else
      SetPosition(w1.(orders := InsertedThenFilled(w.orders, e)), e.account, e.symbol,
                  PositionOf(w, e.account, e.symbol) + Signed(e.side, e.quantity))
  }

  /** execute_signal_for_account */
  function ExecuteSignal(w: World, user: nat, sid: nat, a: nat): Engine {
    if w.stop then Engine(w, Err(EngineStopped))
    else if sid >= |w.signals| || w.signals[sid].owner != user then Engine(w, Err(SignalNotFound))
    else if !Owned(w, user, a) then Engine(w, Err(AccountNotFound))
    else
      var existing := ExistingFor(w.orders.executions, sid, a);
      var sig := w.signals[sid];
      if existing.Some? then Engine(w, Ok(existing.value))
      else if sig.target.None? && sig.quantity.None? then Engine(w, Err(QuantityRequired))
      else
        var r := Resolve(w, sig, a);
        var e := EngineExecution(w, user, sid, a, r.side, r.quantity);
        if ClientIdTaken(w.orders.executions, e.clientOrderId).Some? then Engine(r.world, Err(ClientIdCollision))
        else Engine(PlaceOrder(r.world, e), Ok(|w.orders.executions|))
  }

  // ---- testnet order windows --------------------------------------------------------

  datatype ApprovalReason =
    | NotAdmin | ExchangeUnsupported | AccountInactive | NotTestnet | AdaptersAlreadyOn
    | AccountAlreadyOn | RiskMissing | RiskAlreadyOn | ApiKeyMissing | BadDuration | NotAcknowledged

  datatype ApprovalError = NoSuchAccount | ApprovalBlocked(reasons: seq<ApprovalReason>)

  datatype Approving = Approving(world: World, result: Result<nat, ApprovalError>)

  function ApprovalReasons(w: World, role: Role, a: nat, minutes: int, acknowledged: bool): (r: seq<ApprovalReason>)
    requires a < |w.accounts|
    ensures r == [] <==>
      && role != NormalUser && w.accounts[a].exchange != Mock && w.accounts[a].active
      && w.accounts[a].mode == Testnet && !w.adapters && !AccountOn(w, a)
      && a in w.risk && !RiskOn(w, a) && a in w.secrets && 1 <= minutes <= 10 && acknowledged
  {
    var acc := w.accounts[a];
    When(role == NormalUser, NotAdmin)
    + When(acc.exchange == Mock, ExchangeUnsupported)
    + When(!acc.active, AccountInactive)
    + When(acc.mode != Testnet, NotTestnet)
    + When(w.adapters, AdaptersAlreadyOn)
    + When(acc.tradingEnabled, AccountAlreadyOn)
    + (if a !in w.risk then [RiskMissing] else When(w.risk[a].tradingEnabled, RiskAlreadyOn))
    + When(a !in w.secrets, ApiKeyMissing)
    + When(minutes < 1 || minutes > 10, BadDuration)
    + When(!acknowledged, NotAcknowledged)
  }

  /** record_testnet_order_window_approval */
  function Approve(w: World, role: Role, entry: Approval, acknowledged: bool): Approving {
    if !Owned(w, entry.user, entry.account) then Approving(w, Err(NoSuchAccount))
    else
      var reasons := ApprovalReasons(w, role, entry.account, entry.minutes, acknowledged);
      if reasons != [] then Approving(w, Err(ApprovalBlocked(reasons)))
      else Approving(w.(approvals := w.approvals + [entry]), Ok(|w.approvals|))
  }

  /** Newest approval of this user for this account; of equally new ones the last written. */
  function LatestApproval(log: seq<Approval>, user: nat, a: nat): (r: Option<nat>)
    ensures r.Some? ==> r.value < |log| && log[r.value].user == user && log[r.value].account == a
    ensures r.Some? ==> forall i :: 0 <= i < |log| && log[i].user == user && log[i].account == a ==>
                          log[i].createdAt <= log[r.value].createdAt
    ensures r.None? ==> forall i :: 0 <= i < |log| ==> log[i].user != user || log[i].account != a
  {
    if log == [] then None
    else
      var n := |log| - 1;
      var best := LatestApproval(log[..n], user, a);
      if log[n].user == user && log[n].account == a
         && (best.None? || log[best.value].createdAt <= log[n].createdAt) then Some(n)
      else best
  }

  /** The request, and the UUID its manual signal is given if it is accepted. */
  datatype SubmitRequest = SubmitRequest(
    account: nat, symbol: string, side: Side, quantity: real, price: Option<real>,
    clientOrderId: string, confirmed: bool, signalKey: string)

  datatype BlockReason =
    | GateExchange | GateMode | GateAdapters | GateAccount | GateRisk | GateApiKey | GateConfirmation
    | PriceRequired | ApprovalMissing | SymbolMismatch | SideMismatch
    | QuantityExceeded | WindowNotionalExceeded | DurationInvalid | WindowExpired

  /** check_testnet_order_gate */
  function GateReasons(w: World, req: SubmitRequest): (r: seq<BlockReason>)
    requires req.account < |w.accounts|
    ensures r == [] <==>
      && w.accounts[req.account].exchange != Mock && w.accounts[req.account].mode == Testnet && w.adapters
      && AccountOn(w, req.account) && RiskOn(w, req.account) && req.account in w.secrets && req.confirmed
  {
    var acc := w.accounts[req.account];
    When(acc.exchange == Mock, GateExchange)
    + When(acc.mode != Testnet, GateMode)
    + When(!w.adapters, GateAdapters)
    + When(!acc.tradingEnabled, GateAccount)
    + When(!RiskOn(w, req.account), GateRisk)
    + When(req.account !in w.secrets, GateApiKey)
    + When(!req.confirmed, GateConfirmation)
  }

  /** The approval covers the order, and is not older than the approved minutes. */
  predicate Covers(ap: Approval, req: SubmitRequest, now: real) {
    && req.price.Some?
    && Normalized(ap.symbol) == Normalized(req.symbol)
    && ap.side == req.side
    && req.quantity <= ap.maxQuantity
    && req.quantity * req.price.value <= ap.maxNotional
    && 1 <= ap.minutes <= 10
    && now <= ap.createdAt + 60.0 * (ap.minutes as real)
  }

  /** What the approval found is checked for. */
  function WindowTerms(ap: Approval, req: SubmitRequest, now: real): seq<BlockReason> {
    When(Normalized(ap.symbol) != Normalized(req.symbol), SymbolMismatch)
    + When(ap.side != req.side, SideMismatch)
    + When(req.quantity > ap.maxQuantity, QuantityExceeded)
    + When(req.price.Some? && req.quantity * req.price.value > ap.maxNotional, WindowNotionalExceeded)
    + (if ap.minutes < 1 || ap.minutes > 10 then [DurationInvalid]
       else When(now > ap.createdAt + 60.0 * (ap.minutes as real), WindowExpired))
  }

  /** require_valid_testnet_order_window_authorization */
  function WindowReasons(w: World, user: nat, req: SubmitRequest, now: real): (r: seq<BlockReason>)
    ensures r == [] <==>
      var latest := LatestApproval(w.approvals, user, req.account);
      latest.Some? && Covers(w.approvals[latest.value], req, now)
  {
    var latest := LatestApproval(w.approvals, user, req.account);
    When(req.price.None?, PriceRequired)
    + if latest.None? then [ApprovalMissing] else WindowTerms(w.approvals[latest.value], req, now)
  }

  datatype SubmitError =
    | SubmitStopped | SubmitNoAccount | Blocked(reasons: seq<BlockReason>) | ClientIdConflict | RiskRejected

  datatype Submitting = Submitting(world: World, result: Result<nat, SubmitError>, replay: bool)

  function SubmitSignal(user: nat, req: SubmitRequest): Signal {
    Signal(user, req.signalKey, Upper(req.symbol), req.side, req.price, Some(req.quantity), None)
  }

  function SubmitExecution(w: World, user: nat, req: SubmitRequest): Execution
    requires req.account < |w.accounts|
  {
    Execution(user, |w.signals|, req.account, w.accounts[req.account].exchange, req.clientOrderId, None,
              Upper(req.symbol), req.side, req.price, req.quantity, Created)
  }

  function InsertedThenRejected(o: Orders, e: Execution): Orders {
    o.Insert(e).Advance(|o.executions|, Rejected, None)
  }

  function InsertedThenSubmitted(o: Orders, e: Execution): Orders {
    var id := |o.executions|;
    o.Insert(e).Advance(id, RiskPassed, None).Advance(id, Submitted, None)
  }

  /** create_or_get_testnet_submission_execution */
  function CreateOrGet(w: World, user: nat, req: SubmitRequest): Submitting
    requires req.account < |w.accounts|
  {
    var existing := ClientIdTaken(w.orders.executions, req.clientOrderId);
    if existing.Some? then
      var e := w.orders.executions[existing.value];
      if e.owner != user || e.account != req.account || e.exchange != w.accounts[req.account].exchange
      then Submitting(w, Err(ClientIdConflict), false)
      else Submitting(w, Ok(existing.value), true)
    else
      var e := SubmitExecution(w, user, req);
      var w1 := EnsureRisk(w, req.account).(signals := w.signals + [SubmitSignal(user, req)]);
      var reasons := CheckOrderRisk(w.accounts[req.account], w1.risk[req.account], e.symbol, e.quantity, e.price, true);
      if reasons != []
      then Submitting(w1.(orders := InsertedThenRejected(w.orders, e)), Err(RiskRejected), false)
      else Submitting(w1.(orders := InsertedThenSubmitted(w.orders, e)), Ok(|w.orders.executions|), false)
  }

  /** submit_testnet_order up to the exchange request: stop, gate, window, then the row. */
  function Submit(w: World, user: nat, req: SubmitRequest, now: real): Submitting {
    if w.stop then Submitting(w, Err(SubmitStopped), false)
    else if !Owned(w, user, req.account) then Submitting(w, Err(SubmitNoAccount), false)
    else
      var w1 := EnsureRisk(w, req.account);
      var gate := GateReasons(w1, req);
      var window := WindowReasons(w1, user, req, now);
      if gate != [] then Submitting(w1, Err(Blocked(gate)), false)
      else if window != [] then Submitting(w1, Err(Blocked(window)), false)
      else CreateOrGet(w1, user, req)
  }

  // ---- the exchange's answer ---------------------------------------------------------

  /** What the exchange returned: a rejection code, or an order id if it named one. */
  datatype Reply = Refused | Took(orderId: Option<string>)

  datatype Answered = Answered(orders: Orders, ok: bool)

  /** record_testnet_submission_accepted */
  function RecordAccepted(o: Orders, id: nat, reply: Reply): Answered {
    if id >= |o.executions| || reply.Refused? || o.executions[id].status != Submitted then Answered(o, false)
    else Answered(o.Advance(id, Accepted, reply.orderId), true)
  }

  /** record_testnet_submission_failure */
  function RecordFailure(o: Orders, id: nat): Orders {
    if id >= |o.executions| || o.executions[id].status != Submitted then o
    else o.Advance(id, Failed, None)
  }

  // ---- REST reconciliation -------------------------------------------------------------

  predicate Pending(s: Status) { s in {Submitted, Accepted, PartiallyFilled} }

  function PendingIds(es: seq<Execution>, user: nat, a: nat): (ids: seq<nat>)
    ensures forall id :: id in ids <==>
      0 <= id < |es| && es[id].owner == user && es[id].account == a && Pending(es[id].status)
    ensures |ids| <= |es|
  {
    if es == [] then []
    else
      var n := |es| - 1;
      PendingIds(es[..n], user, a)
      + (if es[n].owner == user && es[n].account == a && Pending(es[n].status) then [n] else [])
  }

  /** One lookup per pending row: the event it normalised to, or None for a failed lookup. */
  type Lookup = nat -> Option<OrderEvent>

  function ReconcileRows(o: Orders, user: nat, a: nat, ids: seq<nat>, lookup: Lookup): Orders
    decreases |ids|
  {
    if ids == [] then o
    else
      var next := if lookup(ids[0]).None? then o
                  else ApplyEvent(o, user, a, lookup(ids[0]).value, ids[0]).orders;
      ReconcileRows(next, user, a, ids[1..], lookup)
  }

  /** reconcile_pending_testnet_orders */
  function ReconcilePending(w: World, user: nat, a: nat, lookup: Lookup): World {
    if !Owned(w, user, a) || !w.accounts[a].active || w.accounts[a].mode != Testnet
       || w.accounts[a].exchange == Mock || w.accounts[a].tradingEnabled || a !in w.secrets then w
    else w.(orders := ReconcileRows(w.orders, user, a, PendingIds(w.orders.executions, user, a), lookup))
  }

  // ---- switches --------------------------------------------------------------------------

  /** set_emergency_stop: activating also forces every trading flag off. */
  function SetEmergencyStop(w: World, enabled: bool): World {
    if !enabled then w.(stop := false)
    else
      w.(stop := true,
         accounts := seq(|w.accounts|, i requires 0 <= i < |w.accounts| => w.accounts[i].(tradingEnabled := false)),
         risk := map a | a in w.risk :: w.risk[a].(tradingEnabled := false))
  }

  /** The PATCH route around update_risk_settings: own SIMULATION accounts only. */
  function PatchRisk(w: World, user: nat, a: nat, p: RiskPatch): World {
    if !Owned(w, user, a) || w.accounts[a].mode != Simulation then w
    else
      var w1 := EnsureRisk(w, a);
      w1.(risk := w1.risk[a := Patched(w1.risk[a], p)])
  }

  function UpdateAccount(w: World, user: nat, a: nat,
                         mode: Option<Mode>, trading: Option<bool>, active: Option<bool>): World {
    if !Owned(w, user, a) then w
    else
      var acc := w.accounts[a];
      w.(accounts := w.accounts[a := acc.(mode := OrElse(mode, acc.mode),
                                          tradingEnabled := OrElse(trading, acc.tradingEnabled),
                                          active := OrElse(active, acc.active))])
  }

  // ---- one call ------------------------------------------------------------------------------

  datatype Call =
    | CreateAccount(user: nat, key: string, exchange: Exchange, mode: Mode, trading: bool)
    | ChangeAccount(user: nat, account: nat, newMode: Option<Mode>, newTrading: Option<bool>, newActive: Option<bool>)
    | DeleteAccount(user: nat, account: nat)
    | SetApiKey(user: nat, account: nat)
    | DeleteApiKey(user: nat, account: nat)
    | CreateSignal(signal: Signal)
    | Execute(user: nat, sid: nat, account: nat)
    | ReadRisk(user: nat, account: nat)
    | ChangeRisk(user: nat, account: nat, patch: RiskPatch)
    | Stop(enabled: bool)
    | RecordApproval(role: Role, entry: Approval, acknowledged: bool)
    | SubmitOrder(user: nat, request: SubmitRequest, now: real)
    | Answer(id: nat, reply: Reply)
    | AnswerFailed(id: nat)
    | Deliver(user: nat, account: nat, event: OrderEvent, hint: nat)
    | Reconcile(user: nat, account: nat, lookup: Lookup)
    | SyncPosition(user: nat, account: nat, exchange: Exchange, symbol: string, quantity: real)
    | SetAdapters(enabled: bool)

  function Step(w: World, c: Call): World {
    match c
    case CreateAccount(user, key, exchange, mode, trading) =>
      w.(accounts := w.accounts + [Account(user, key, exchange, mode, trading, true)])
    case ChangeAccount(user, a, mode, trading, active) => UpdateAccount(w, user, a, mode, trading, active)
    case DeleteAccount(user, a) => UpdateAccount(w, user, a, None, Some(false), Some(false))
    case SetApiKey(user, a) => if Owned(w, user, a) then w.(secrets := w.secrets + {a}) else w
    case DeleteApiKey(user, a) => if Owned(w, user, a) then w.(secrets := w.secrets - {a}) else w
    case CreateSignal(sig) => w.(signals := w.signals + [sig.(symbol := Upper(sig.symbol))])
    case Execute(user, sid, a) => ExecuteSignal(w, user, sid, a).world
    case ReadRisk(user, a) => if Owned(w, user, a) then EnsureRisk(w, a) else w
    case ChangeRisk(user, a, p) => PatchRisk(w, user, a, p)
    case Stop(enabled) => SetEmergencyStop(w, enabled)
    case RecordApproval(role, entry, ack) => Approve(w, role, entry, ack).world
    case SubmitOrder(user, req, now) => Submit(w, user, req, now).world
    case Answer(id, reply) => w.(orders := RecordAccepted(w.orders, id, reply).orders)
    case AnswerFailed(id) => w.(orders := RecordFailure(w.orders, id))
    case Deliver(user, a, ev, hint) => w.(orders := ApplyEvent(w.orders, user, a, ev, hint).orders)
    case Reconcile(user, a, lookup) => ReconcilePending(w, user, a, lookup)
    case SyncPosition(user, a, exchange, symbol, q) =>
      if Owned(w, user, a) && w.accounts[a].active && w.accounts[a].mode == Testnet &&
          w.accounts[a].exchange == exchange
      then SetPosition(w, a, symbol, q) else w
    case SetAdapters(enabled) => w.(adapters := enabled)
  }

  /** A run: every state is what the call before it made of the one before that. */
  ghost predicate IsRun(ws: seq<World>, cs: seq<Call>) {
    && |ws| == |cs| + 1
    && ws[0] == EmptyWorld
    && forall i :: 0 <= i < |cs| ==> ws[i + 1] == Step(ws[i], cs[i])
  }
}
