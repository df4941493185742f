/** What must have happened, on every run, between a stop or an approval and the next order. */
module Interlocks {
  import opened Common
  import opened Text
  import opened OrderStateMachine
  import opened OrderLifecycle
  import opened Ledger
  import opened LedgerInvariants
  import opened Positions

  // ---- which calls turn a switch on ----------------------------------------------------

  predicate TurnsAccountOn(w: World, c: Call, a: nat) {
    c.ChangeAccount? && c.account == a && c.newTrading == Some(true) && Owned(w, c.user, a)
  }

  /** Only an account in SIMULATION can have its risk flag turned on. */
  predicate TurnsRiskOn(w: World, c: Call, a: nat) {
    && c.ChangeRisk? && c.account == a && c.patch.tradingEnabled == Some(true)
    && Owned(w, c.user, a) && w.accounts[a].mode == Simulation
  }

  ghost predicate SameSwitches(w: World, w': World) {
    && w'.accounts == w.accounts && w'.adapters == w.adapters && w'.approvals == w.approvals
    && w'.stop == w.stop && (forall a :: RiskOn(w', a) == RiskOn(w, a))
  }

  lemma PlaceOrderKeepsSwitches(w: World, e: Execution)
    requires e.account < |w.accounts|
    ensures SameSwitches(w, PlaceOrder(w, e))
  {
  }

  lemma ExecuteKeepsSwitches(w: World, user: nat, sid: nat, b: nat)
    ensures SameSwitches(w, ExecuteSignal(w, user, sid, b).world)
  {
    ExecuteShape(w, user, sid, b);
    if sid < |w.signals| && b < |w.accounts| && (w.signals[sid].target.Some? || w.signals[sid].quantity.Some?) {
      var p := Resolve(w, w.signals[sid], b);
      ResolvedMoves(w, w.signals[sid], b);
      PlaceOrderKeepsSwitches(p.world, EngineExecution(w, user, sid, b, p.side, p.quantity));
    }
  }

  lemma AccountSwitchedOn(w: World, c: Call, a: nat)
    requires a < |w.accounts| && !AccountOn(w, a) && AccountOn(Step(w, c), a)
    ensures TurnsAccountOn(w, c, a)
  {
    match c {
      case Execute(user, sid, b) => ExecuteKeepsSwitches(w, user, sid, b);
      case SubmitOrder(user, req, now) => SubmitShape(w, user, req, now);
      case _ =>
    }
  }

  lemma RiskSwitchedOn(w: World, c: Call, a: nat)
    requires !RiskOn(w, a) && RiskOn(Step(w, c), a)
    ensures TurnsRiskOn(w, c, a)
  {
    match c {
      case Execute(user, sid, b) => ExecuteKeepsSwitches(w, user, sid, b);
      case SubmitOrder(user, req, now) => SubmitShape(w, user, req, now);
      case _ =>
    }
  }

  lemma AdaptersSwitchedOn(w: World, c: Call)
    requires !w.adapters && Step(w, c).adapters
    ensures c == SetAdapters(true)
  {
    match c {
      case Execute(user, sid, b) => ExecuteKeepsSwitches(w, user, sid, b);
      case SubmitOrder(user, req, now) => SubmitShape(w, user, req, now);
      case _ =>
    }
  }

  lemma AccountsPersist(w: World, c: Call)
    ensures |w.accounts| <= |Step(w, c).accounts|
  {
    match c {
      case Execute(user, sid, b) => ExecuteKeepsSwitches(w, user, sid, b);
      case SubmitOrder(user, req, now) => SubmitShape(w, user, req, now);
      case _ =>
    }
  }

  lemma {:induction false} AccountsPersistOnRuns(ws: seq<World>, cs: seq<Call>, i: nat, k: nat)
    requires IsRun(ws, cs) && i <= k < |ws|
    ensures |ws[i].accounts| <= |ws[k].accounts|
    decreases k - i
  {
    if i < k {
      AccountsPersist(ws[i], cs[i]);
      AccountsPersistOnRuns(ws, cs, i + 1, k);
    }
  }

  /** Off at `lo`, on at `hi`: the owner switched the account flag on in between. */
  lemma {:induction false} AccountReenabled(ws: seq<World>, cs: seq<Call>, a: nat, lo: nat, hi: nat) returns (j: nat)
    requires IsRun(ws, cs) && lo <= hi < |ws| && a < |ws[lo].accounts|
    requires !AccountOn(ws[lo], a) && AccountOn(ws[hi], a)
    ensures lo <= j < hi && TurnsAccountOn(ws[j], cs[j], a)
    decreases hi - lo
  {
    if AccountOn(ws[lo + 1], a) {
      AccountSwitchedOn(ws[lo], cs[lo], a);
      j := lo;
    } else {
      AccountsPersist(ws[lo], cs[lo]);
      j := AccountReenabled(ws, cs, a, lo + 1, hi);
    }
  }

  lemma {:induction false} RiskReenabled(ws: seq<World>, cs: seq<Call>, a: nat, lo: nat, hi: nat) returns (j: nat)
    requires IsRun(ws, cs) && lo <= hi < |ws|
    requires !RiskOn(ws[lo], a) && RiskOn(ws[hi], a)
    ensures lo <= j < hi && TurnsRiskOn(ws[j], cs[j], a)
    decreases hi - lo
  {
    if RiskOn(ws[lo + 1], a) {
      RiskSwitchedOn(ws[lo], cs[lo], a);
      j := lo;
    } else {
      j := RiskReenabled(ws, cs, a, lo + 1, hi);
    }
  }

  lemma {:induction false} AdaptersReenabled(ws: seq<World>, cs: seq<Call>, lo: nat, hi: nat) returns (j: nat)
    requires IsRun(ws, cs) && lo <= hi < |ws|
    requires !ws[lo].adapters && ws[hi].adapters
    ensures lo <= j < hi && cs[j] == SetAdapters(true)
    decreases hi - lo
  {
    if ws[lo + 1].adapters {
      AdaptersSwitchedOn(ws[lo], cs[lo]);
      j := lo;
    } else {
      j := AdaptersReenabled(ws, cs, lo + 1, hi);
    }
  }

  // ---- emergency stop ----------------------------------------------------------------------

  lemma StoppedAddsNothing(w: World, c: Call)
    requires WorldInv(w) && w.stop
    ensures |Step(w, c).orders.executions| == |w.orders.executions|
  {
    match c {
      case Execute(user, sid, b) => ExecuteShape(w, user, sid, b);
      case SubmitOrder(user, req, now) => SubmitShape(w, user, req, now);
      case _ =>
        if TouchesOrders(c) {
          AnswersKeep(w, c);
        } else {
          QuietStep(w, c);
        }
    }
  }

  /** While the stop is on, and as long as it is not lifted, no execution is created. */
  lemma {:induction false} NoExecutionWhileStopped(ws: seq<World>, cs: seq<Call>, i: nat, k: nat)
    requires IsRun(ws, cs) && i <= k < |ws|
    requires forall j :: i <= j < k ==> ws[j].stop
    ensures |ws[k].orders.executions| == |ws[i].orders.executions|
    decreases k
  {
    if i < k {
      NoExecutionWhileStopped(ws, cs, i, k - 1);
      ReachableInv(ws, cs, k - 1);
      StoppedAddsNothing(ws[k - 1], cs[k - 1]);
    }
  }

  ghost predicate PassedRisk(o: Orders, id: nat) {
    exists t :: t in o.History(id) && t.to == RiskPassed
  }

  /** A row that exists between calls is past RISK_PASSED already. */
  lemma OldRowsPassNoMore(o: Orders, o': Orders, id: nat)
    requires OrdersInv(o) && Settled(o) && OrdersInv(o') && Evolves(o, o')
    requires id < |o.executions| && PassedRisk(o', id)
    ensures PassedRisk(o, id)
  {
    assert RowLogged(o, id) && RowLogged(o', id);
    var added := o'.log[|o.log|..];
    assert o'.log == o.log + added;
    LogOfAppend(o.log, added, id);
    ClimbPastRiskPassed(o.History(id), LogOf(added, id));
  }

  lemma ClimbPastRiskPassed(before: seq<Transition>, added: seq<Transition>)
    requires Climbs(before + added) && |before| > 0 && Rank(before[|before| - 1].to) >= Rank(Submitted)
    ensures forall t :: t in before + added && t.to == RiskPassed ==> t in before
  {
    var log := before + added;
    forall k | |before| <= k < |log| ensures log[k].to != RiskPassed {
      ClimbsApart(log, |before| - 1, k);
    }
    forall t | t in log && t.to == RiskPassed ensures t in before {
      var k :| 0 <= k < |log| && log[k] == t;
      assert before[k] == t;
    }
  }

  lemma StoppedRowNeverPassed(o: Orders, e: Execution, to: Status)
    requires Logged(o) && e.status == Created && (to == Failed || to == Rejected)
    ensures !PassedRisk(o.Insert(e).Advance(|o.executions|, to, None), |o.executions|)
  {
    var id := |o.executions|;
    InsertKeepsLogged(o, e);
    AdvanceKeepsLogged(o.Insert(e), id, to, None);
    AbsentFromLog(o.log, id);
    RecordedHistory(Orders(o.executions + [e], o.log), id, None, Created, id);
    RecordedHistory(Orders(o.Insert(e).Advance(id, to, None).executions, o.Insert(e).log), id, Some(Created), to, id);
  }

  /** Only the engine and submissions add rows, and no other call lets an old one pass. */
  lemma OnlyNewRowsPass(w: World, c: Call, id: nat)
    requires WorldInv(w)
    requires !PassedRisk(w.orders, id) && PassedRisk(Step(w, c).orders, id)
    requires id < |Step(w, c).orders.executions|
    ensures id >= |w.orders.executions| && (c.Execute? || c.SubmitOrder?)
  {
    if id < |w.orders.executions| {
      StepKeeps(w, c);
      OldRowsPassNoMore(w.orders, Step(w, c).orders, id);
    } else if IsAnswer(c) {
      AnswersKeep(w, c);
    } else if !TouchesOrders(c) {
      QuietStep(w, c);
    }
  }

  lemma AddedAccount(o: Orders, o': Orders, e: Execution, id: nat)
    requires o' == InsertedThenRejected(o, e) || o' == InsertedThenSubmitted(o, e)
    requires |o.executions| <= id < |o'.executions|
    ensures o'.executions[id].account == e.account
  {
    AddedRows(o, e);
  }

  lemma SubmissionNeedsBothFlags(w: World, user: nat, req: SubmitRequest, now: real, id: nat)
    requires |w.orders.executions| <= id < |Submit(w, user, req, now).world.orders.executions|
    ensures Submit(w, user, req, now).world.orders.executions[id].account == req.account
    ensures AccountOn(w, req.account) && RiskOn(w, req.account)
  {
    SubmitShape(w, user, req, now);
    AddedAccount(w.orders, Submit(w, user, req, now).world.orders, SubmitExecution(w, user, req), id);
  }

  /** A row reaches RISK_PASSED only in a call that found both flags of its account on. */
  lemma PassingNeedsBothFlags(w: World, c: Call, id: nat)
    requires WorldInv(w)
    requires !PassedRisk(w.orders, id) && PassedRisk(Step(w, c).orders, id)
    requires id < |Step(w, c).orders.executions|
    ensures var a := Step(w, c).orders.executions[id].account; AccountOn(w, a) && RiskOn(w, a)
  {
    OnlyNewRowsPass(w, c, id);
    if c.Execute? {
      EnginePassing(w, c.user, c.sid, c.account, id);
    } else {
      SubmissionNeedsBothFlags(w, c.user, c.request, c.now, id);
    }
  }

  lemma PlacedPassing(w: World, e: Execution)
    requires Logged(w.orders) && e.account < |w.accounts| && e.status == Created
    requires PassedRisk(PlaceOrder(w, e).orders, |w.orders.executions|)
    ensures AccountOn(w, e.account) && RiskOn(w, e.account) && e.symbol !in w.risk[e.account].blocked
  {
    StoppedRowNeverPassed(w.orders, e, Failed);
  }

  /** The same seen from before a position row was added. */
  lemma PlacedRowPassing(w: World, p: World, e: Execution, o': Orders, id: nat)
    requires Logged(w.orders) && e.account < |w.accounts| && e.status == Created
    requires p == w.(positions := p.positions) && o' == PlaceOrder(p, e).orders
    requires |w.orders.executions| <= id < |o'.executions| && PassedRisk(o', id)
    ensures o'.executions[id].account == e.account
    ensures AccountOn(w, e.account) && RiskOn(w, e.account)
    ensures o'.executions[id].symbol !in w.risk[e.account].blocked
  {
    PlaceOrderAdds(p, e);
    AddedRow(p.orders, o', e);
    PlacedPassing(p, e);
  }

  lemma ResolvedIsPositions(w: World, sig: Signal, b: nat)
    requires sig.target.Some? || sig.quantity.Some?
    ensures var p := Resolve(w, sig, b).world; p == w.(positions := p.positions)
  {
  }

  lemma EnginePassing(w: World, user: nat, sid: nat, b: nat, id: nat)
    requires WorldInv(w)
    requires var o' := ExecuteSignal(w, user, sid, b).world.orders;
             |w.orders.executions| <= id < |o'.executions| && PassedRisk(o', id)
    ensures ExecuteSignal(w, user, sid, b).world.orders.executions[id].account == b
    ensures AccountOn(w, b) && RiskOn(w, b)
    ensures ExecuteSignal(w, user, sid, b).world.orders.executions[id].symbol !in w.risk[b].blocked
  {
    ExecuteShape(w, user, sid, b);
    var o' := ExecuteSignal(w, user, sid, b).world.orders;
    var p := Resolve(w, w.signals[sid], b);
    ResolvedIsPositions(w, w.signals[sid], b);
    PlacedRowPassing(w, p.world, EngineExecution(w, user, sid, b, p.side, p.quantity), o', id);
  }

  /** Emergency stop over runs: after an activation at call `i`, an execution of an account
      that existed then reaches RISK_PASSED at call `k` only once both of the account's flags
      have been switched on again since. */
  lemma StopForcesBothSwitches(ws: seq<World>, cs: seq<Call>, i: nat, k: nat, id: nat)
      returns (jAccount: nat, jRisk: nat)
    requires IsRun(ws, cs) && i < k < |cs| && cs[i] == Stop(true)
    requires id < |ws[k + 1].orders.executions|
    requires !PassedRisk(ws[k].orders, id) && PassedRisk(ws[k + 1].orders, id)
    requires ws[k + 1].orders.executions[id].account < |ws[i].accounts|
    ensures i < jAccount < k && TurnsAccountOn(ws[jAccount], cs[jAccount], ws[k + 1].orders.executions[id].account)
    ensures i < jRisk < k && TurnsRiskOn(ws[jRisk], cs[jRisk], ws[k + 1].orders.executions[id].account)
  {
    var a := ws[k + 1].orders.executions[id].account;
    ReachableInv(ws, cs, k);
    PassingNeedsBothFlags(ws[k], cs[k], id);
    AccountsPersist(ws[i], cs[i]);
    assert ws[i + 1] == SetEmergencyStop(ws[i], true);
    assert !AccountOn(ws[i + 1], a) && !RiskOn(ws[i + 1], a);
    jAccount := AccountReenabled(ws, cs, a, i + 1, k);
    jRisk := RiskReenabled(ws, cs, a, i + 1, k);
  }

  // ---- approvals ------------------------------------------------------------------------------

  /** The audit log of approvals is append-only, and an entry is written only with every switch off. */
  lemma ApprovalsAppended(w: World, c: Call)
    ensures var w' := Step(w, c);
            || w'.approvals == w.approvals
            || (&& c.RecordApproval? && w'.approvals == w.approvals + [c.entry]
                && Owned(w, c.entry.user, c.entry.account) && c.role != NormalUser
                && w.accounts[c.entry.account].mode == Testnet
                && !w.adapters && !AccountOn(w, c.entry.account) && !RiskOn(w, c.entry.account))
  {
    match c {
      case Execute(user, sid, b) => ExecuteKeepsSwitches(w, user, sid, b);
      case SubmitOrder(user, req, now) => SubmitShape(w, user, req, now);
      case _ =>
    }
  }

  lemma {:induction false} ApprovalWasRecorded(ws: seq<World>, cs: seq<Call>, k: nat, n: nat) returns (i: nat)
    requires IsRun(ws, cs) && k < |ws| && n < |ws[k].approvals|
    ensures i < k && cs[i].RecordApproval? && cs[i].role != NormalUser && cs[i].entry == ws[k].approvals[n]
    ensures var ap := ws[k].approvals[n];
            && ap.account < |ws[i].accounts| && ws[i].accounts[ap.account].mode == Testnet
            && !ws[i].adapters && !AccountOn(ws[i], ap.account) && !RiskOn(ws[i], ap.account)
    decreases k
  {
    if k > 0 {
      ApprovalsAppended(ws[k - 1], cs[k - 1]);
      if n < |ws[k - 1].approvals| {
        i := ApprovalWasRecorded(ws, cs, k - 1, n);
      } else {
        i := k - 1;
      }
    }
  }

  /** The approval allowed exactly this row: same tenant, account, symbol and side, within both
      bounds, and at most ten minutes before `now`. */
  ghost predicate Approves(ap: Approval, e: Execution, now: real) {
    && ap.user == e.owner && ap.account == e.account
    && Normalized(ap.symbol) == Normalized(e.symbol) && ap.side == e.side
    && e.quantity <= ap.maxQuantity
    && e.price.Some? && e.quantity * e.price.value <= ap.maxNotional
    && now <= ap.createdAt + 600.0
  }

  lemma CoveredIsApproved(w: World, user: nat, req: SubmitRequest, now: real, ap: Approval)
    requires req.account < |w.accounts| && Covers(ap, req, now) && ap.user == user && ap.account == req.account
    ensures Approves(ap, SubmitExecution(w, user, req), now)
  {
    NormalizedUpper(req.symbol);
  }

  /** A row a submission creates is allowed by the latest approval, and all switches are on. */
  lemma SubmittedRowApproved(w: World, user: nat, req: SubmitRequest, now: real) returns (latest: nat)
    requires var w' := Submit(w, user, req, now).world; |w'.orders.executions| > |w.orders.executions|
    ensures latest < |w.approvals| && w.approvals[latest].account == req.account
    ensures Approves(w.approvals[latest], Submit(w, user, req, now).world.orders.executions[|w.orders.executions|], now)
    ensures w.adapters && AccountOn(w, req.account) && RiskOn(w, req.account)
  {
    SubmitRows(w, user, req, now);
    latest := LatestApproval(w.approvals, user, req.account).value;
    CoveredIsApproved(w, user, req, now, w.approvals[latest]);
  }

  ghost predicate SwitchedOff(w: World, a: nat) {
    a < |w.accounts| && !w.adapters && !AccountOn(w, a) && !RiskOn(w, a)
  }

  /** The recorded approval behind a row a submission creates. */
  lemma OrderHasApproval(ws: seq<World>, cs: seq<Call>, k: nat) returns (i: nat)
    requires IsRun(ws, cs) && k < |cs| && cs[k].SubmitOrder?
    requires |ws[k + 1].orders.executions| > |ws[k].orders.executions|
    ensures i < k && cs[i].RecordApproval? && cs[i].role != NormalUser
    ensures Approves(cs[i].entry, ws[k + 1].orders.executions[|ws[k].orders.executions|], cs[k].now)
    ensures var a := cs[i].entry.account;
            SwitchedOff(ws[i], a) && ws[k].adapters && AccountOn(ws[k], a) && RiskOn(ws[k], a)
  {
    var latest := SubmittedRowApproved(ws[k], cs[k].user, cs[k].request, cs[k].now);
    i := ApprovalWasRecorded(ws, cs, k, latest);
  }

  lemma AccountOnSinceApproval(ws: seq<World>, cs: seq<Call>, a: nat, i: nat, k: nat) returns (j: nat)
    requires IsRun(ws, cs) && i < k < |ws| && cs[i].RecordApproval?
    requires a < |ws[i].accounts| && !AccountOn(ws[i], a) && AccountOn(ws[k], a)
    ensures i < j < k && TurnsAccountOn(ws[j], cs[j], a)
  {
    j := AccountReenabled(ws, cs, a, i, k);
  }

  lemma RiskOnSinceApproval(ws: seq<World>, cs: seq<Call>, a: nat, i: nat, k: nat) returns (j: nat)
    requires IsRun(ws, cs) && i < k < |ws| && cs[i].RecordApproval?
    requires !RiskOn(ws[i], a) && RiskOn(ws[k], a)
    ensures i < j < k && TurnsRiskOn(ws[j], cs[j], a)
  {
    j := RiskReenabled(ws, cs, a, i, k);
  }

  lemma AdaptersOnSinceApproval(ws: seq<World>, cs: seq<Call>, i: nat, k: nat) returns (j: nat)
    requires IsRun(ws, cs) && i < k < |ws| && cs[i].RecordApproval?
    requires !ws[i].adapters && ws[k].adapters
    ensures i < j < k && cs[j] == SetAdapters(true)
  {
    j := AdaptersReenabled(ws, cs, i, k);
  }

  /** Interlock history: each row a submission creates has an earlier recorded approval that
      allows it; since then the adapters, the account flag and the risk flag were each switched
      on, the last while the account was out of TESTNET. */
  lemma OrderFollowsApproval(ws: seq<World>, cs: seq<Call>, k: nat)
      returns (i: nat, jAccount: nat, jRisk: nat, jAdapters: nat)
    requires IsRun(ws, cs) && k < |cs| && cs[k].SubmitOrder?
    requires |ws[k + 1].orders.executions| > |ws[k].orders.executions|
    ensures i < k && cs[i].RecordApproval? && cs[i].role != NormalUser
    ensures Approves(cs[i].entry, ws[k + 1].orders.executions[|ws[k].orders.executions|], cs[k].now)
    ensures i < jAccount < k && TurnsAccountOn(ws[jAccount], cs[jAccount], cs[i].entry.account)
    ensures i < jRisk < k && TurnsRiskOn(ws[jRisk], cs[jRisk], cs[i].entry.account)
    ensures i < jAdapters < k && cs[jAdapters] == SetAdapters(true)
  {
    i := OrderHasApproval(ws, cs, k);
    jAccount := AccountOnSinceApproval(ws, cs, cs[i].entry.account, i, k);
    jRisk := RiskOnSinceApproval(ws, cs, cs[i].entry.account, i, k);
    jAdapters := AdaptersOnSinceApproval(ws, cs, i, k);
  }

  // ---- a run that gets through ------------------------------------------------------------------

  /** One user's account, with its API key, and the windows recorded so far. */
  function Prepared(mode: Mode, on: bool, risk: RiskSetting, log: seq<Approval>, adapters: bool): World {
    World([Account(0, "a", Binance, mode, on, true)], [], Orders([], []), map[], map[0 := risk], false, log, {0},
        adapters)
  }

  function Window(s: string): Approval { Approval(0, 0, s, Buy, 1.0, 10.0, 5, 0.0) }

  function OrderFor(s: string): SubmitRequest { SubmitRequest(0, s, Buy, 1.0, Some(10.0), "c", true, "s") }

  /** Everything switched on, a window for `s`, and some symbols blocked. */
  function Ready(s: string, blocked: set<string>): World {
    Prepared(Testnet, true, RiskSetting(true, blocked, None, None, None), [Window(s)], true)
  }

  ghost predicate Reaches(ws: seq<World>, cs: seq<Call>, n: nat, w: World) {
    IsRun(ws, cs) && |cs| == n && ws[n] == w
  }

  lemma ExtendRun(ws: seq<World>, cs: seq<Call>, n: nat, w: World, c: Call, next: World)
      returns (ws': seq<World>, cs': seq<Call>)
    requires Reaches(ws, cs, n, w) && next == Step(w, c)
    ensures Reaches(ws', cs', n + 1, next) && ws'[n] == w && cs'[n] == c
  {
    ws', cs' := ws + [next], cs + [c];
    forall i | 0 <= i < |cs'| ensures ws'[i + 1] == Step(ws'[i], cs'[i]) {
      if i < n { assert ws'[i + 1] == ws[i + 1] && ws'[i] == ws[i] && cs'[i] == cs[i]; }
    }
  }

  const Born := World([Account(0, "a", Binance, Testnet, false, true)], [], Orders([], []), map[], map[], false, [],
      {}, false)

  /** Account, API key, and a risk row created by reading it. */
  lemma SetUp() returns (ws: seq<World>, cs: seq<Call>)
    ensures Reaches(ws, cs, 3, Prepared(Testnet, false, DefaultRisk, [], false))
  {
    ws, cs := [EmptyWorld], [];
    ws, cs := ExtendRun(ws, cs, 0, EmptyWorld, CreateAccount(0, "a", Binance, Testnet, false), Born);
    ws, cs := ExtendRun(ws, cs, 1, Born, SetApiKey(0, 0), Born.(secrets := {0}));
    ws, cs := ExtendRun(ws, cs, 2, Born.(secrets := {0}), ReadRisk(0, 0), Prepared(Testnet, false, DefaultRisk, [],
        false));
  }

  /** The window is recorded, then the adapters go on and the account leaves TESTNET. */
  lemma WindowOpened(s: string) returns (ws: seq<World>, cs: seq<Call>)
    ensures Reaches(ws, cs, 6, Prepared(Simulation, false, DefaultRisk, [Window(s)], true))
  {
    ws, cs := SetUp();
    var w := Prepared(Testnet, false, DefaultRisk, [], false);
    var recorded := Prepared(Testnet, false, DefaultRisk, [Window(s)], false);
    ws, cs := ExtendRun(ws, cs, 3, w, RecordApproval(Admin, Window(s), true), recorded);
    var open := Prepared(Testnet, false, DefaultRisk, [Window(s)], true);
    ws, cs := ExtendRun(ws, cs, 4, recorded, SetAdapters(true), open);
    ws, cs := ExtendRun(ws, cs, 5, open, ChangeAccount(0, 0, Some(Simulation), None, None),
                        Prepared(Simulation, false, DefaultRisk, [Window(s)], true));
  }

  /** The risk flag goes on in SIMULATION, together with the blocked list, and the account comes
      back to TESTNET switched on. */
  lemma SwitchesOn(s: string, blocked: set<string>) returns (ws: seq<World>, cs: seq<Call>)
    requires forall x :: x in blocked ==> Upper(x) == x
    ensures Reaches(ws, cs, 8, Ready(s, blocked))
  {
    ws, cs := WindowOpened(s);
    var risk := RiskSetting(true, blocked, None, None, None);
    var patch := RiskPatch(Some(true), Some(blocked), None, None, None);
    assert (set x | x in blocked :: Upper(x)) == blocked;
    assert Patched(DefaultRisk, patch) == risk;
    var w := Prepared(Simulation, false, DefaultRisk, [Window(s)], true);
    var patched := Prepared(Simulation, false, risk, [Window(s)], true);
    ws, cs := ExtendRun(ws, cs, 6, w, ChangeRisk(0, 0, patch), patched);
    ws, cs := ExtendRun(ws, cs, 7, patched, ChangeAccount(0, 0, Some(Testnet), Some(true), None), Ready(s, blocked));
  }

  /** A submission for `s` under a window for `t` goes out as long as the two normalise to the
      same symbol and the stored one is not blocked. */
  lemma ReadySubmits(t: string, s: string, blocked: set<string>) returns (w': World)
    requires Normalized(t) == Normalized(s) && Upper(s) !in blocked
    ensures w' == Submit(Ready(t, blocked), 0, OrderFor(s), 0.0).world
    ensures w'.orders == InsertedThenSubmitted(Orders([], []), SubmitExecution(Ready(t, blocked), 0, OrderFor(s)))
  {
    var w := Ready(t, blocked);
    w' := Submit(w, 0, OrderFor(s), 0.0).world;
    assert LatestApproval(w.approvals, 0, 0) == Some(0);
    assert EnsureRisk(w, 0) == w;
    assert Covers(Window(t), OrderFor(s), 0.0);
  }

  lemma OrderSent(ws: seq<World>, cs: seq<Call>, n: nat, w: World, s: string, next: World)
      returns (ws': seq<World>, cs': seq<Call>)
    requires Reaches(ws, cs, n, w) && next == Submit(w, 0, OrderFor(s), 0.0).world
    ensures Reaches(ws', cs', n + 1, next) && ws'[n] == w && cs'[n] == SubmitOrder(0, OrderFor(s), 0.0)
  {
    ws', cs' := ExtendRun(ws, cs, n, w, SubmitOrder(0, OrderFor(s), 0.0), next);
  }

  /** The guarded order is reachable for every symbol, under every window that covers it and every
      blocked list that its stored form is not on: nine calls from the empty database submit one. */
  lemma ApprovedOrderIsReachable(t: string, s: string, blocked: set<string>) returns (ws: seq<World>, cs: seq<Call>)
    requires Normalized(t) == Normalized(s) && Upper(s) !in blocked && forall x :: x in blocked ==> Upper(x) == x
    ensures IsRun(ws, cs) && |cs| == 9 && cs[8] == SubmitOrder(0, OrderFor(s), 0.0)
    ensures ws[8] == Ready(t, blocked)
    ensures |ws[8].orders.executions| == 0 && |ws[9].orders.executions| == 1
    ensures ws[9].orders == InsertedThenSubmitted(Orders([], []), SubmitExecution(Ready(t, blocked), 0, OrderFor(s)))
    ensures ws[9].orders.executions[0].status == Submitted && ws[9].orders.executions[0].symbol == Upper(s)
  {
    ws, cs := SwitchesOn(t, blocked);
    var next := ReadySubmits(t, s, blocked);
    AddedRows(Orders([], []), SubmitExecution(Ready(t, blocked), 0, OrderFor(s)));
    ws, cs := OrderSent(ws, cs, 8, Ready(t, blocked), s, next);
  }
}
