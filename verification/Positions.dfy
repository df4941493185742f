/** Position conservation for accounts that stay in SIMULATION: the stored quantity is the
    sum of the filled executions, and equally the fold of the filled signals. */
module Positions {
  import opened Common
  import opened OrderStateMachine
  import opened OrderLifecycle
  import opened Ledger
  import opened LedgerInvariants

  predicate FilledOn(e: Execution, a: nat, symbol: string) {
    e.account == a && e.symbol == symbol && e.status == Filled
  }

  /** Sum of the signed quantities of the account's FILLED executions in the symbol. */
  function FilledSum(es: seq<Execution>, a: nat, symbol: string): real {
    if es == [] then 0.0
    else
      var e := es[|es| - 1];
      FilledSum(es[..|es| - 1], a, symbol) + (if FilledOn(e, a, symbol) then Signed(e.side, e.quantity) else 0.0)
  }

  /** What the filled signals mean, in order: a target sets the position, a quantity adds to it. */
  function SignalFold(es: seq<Execution>, signals: seq<Signal>, a: nat, symbol: string): real {
    if es == [] then 0.0
    else
      var e := es[|es| - 1];
      var before := SignalFold(es[..|es| - 1], signals, a, symbol);
      if !FilledOn(e, a, symbol) then before
      else if e.signal < |signals| then Meaning(signals[e.signal], before)
      else before
  }

  /** What filling a signal makes of a position. */
  function Meaning(sig: Signal, before: real): real {
    if sig.target.Some? then sig.target.value
    else if sig.quantity.Some? then before + Signed(sig.side, sig.quantity.value)
    else before
  }

  ghost predicate Balanced(w: World, a: nat, symbol: string) {
    PositionOf(w, a, symbol) == FilledSum(w.orders.executions, a, symbol)
    == SignalFold(w.orders.executions, w.signals, a, symbol)
  }

  /** Between calls a simulated account has only finished rows, and balances in every symbol. */
  ghost predicate Conserved(w: World, a: nat) {
    && (forall id :: 0 <= id < |w.orders.executions| && w.orders.executions[id].account == a ==>
          Terminal(w.orders.executions[id].status))
    && (forall symbol: string :: Balanced(w, a, symbol))
  }

  lemma {:induction false} SameRowsSameSums(es: seq<Execution>, es': seq<Execution>, s: seq<Signal>, s': seq<Signal>,
                                            a: nat, symbol: string)
    requires |es| == |es'| && s <= s'
    requires forall i :: 0 <= i < |es| ==>
               es[i].signal < |s| && (if es[i].account == a then es'[i] == es[i] else es'[i].account != a)
    ensures FilledSum(es', a, symbol) == FilledSum(es, a, symbol)
    ensures SignalFold(es', s', a, symbol) == SignalFold(es, s, a, symbol)
  {
    if es != [] {
      SameRowsSameSums(es[..|es| - 1], es'[..|es| - 1], s, s', a, symbol);
    }
  }

  lemma SumsOfAppended(es: seq<Execution>, e: Execution, s: seq<Signal>, a: nat, symbol: string)
    ensures FilledSum(es + [e], a, symbol)
         == FilledSum(es, a, symbol) + (if FilledOn(e, a, symbol) then Signed(e.side, e.quantity) else 0.0)
    ensures SignalFold(es + [e], s, a, symbol)
         == if FilledOn(e, a, symbol) && e.signal < |s| then Meaning(s[e.signal], SignalFold(es, s, a, symbol))
            else SignalFold(es, s, a, symbol)
  {
    assert (es + [e])[..|es|] == es;
  }

  /** A call that leaves the account's rows and positions alone leaves it conserved. */
  lemma UntouchedStaysConserved(w: World, w': World, a: nat)
    requires Conserved(w, a) && Referential(w) && w.signals <= w'.signals
    requires |w'.orders.executions| == |w.orders.executions|
    requires forall i :: 0 <= i < |w.orders.executions| ==>
               var e, e' := w.orders.executions[i], w'.orders.executions[i];
               if e.account == a then e' == e else e'.account != a
    requires forall symbol: string :: PositionOf(w', a, symbol) == PositionOf(w, a, symbol)
    ensures Conserved(w', a)
  {
    forall symbol: string ensures Balanced(w', a, symbol) {
      assert Balanced(w, a, symbol);
      SameRowsSameSums(w.orders.executions, w'.orders.executions, w.signals, w'.signals, a, symbol);
    }
  }

  lemma OtherAccountsRow(w: World, w': World, a: nat)
    requires Conserved(w, a) && Referential(w) && w.signals <= w'.signals
    requires |w'.orders.executions| == |w.orders.executions| + 1
    requires w'.orders.executions[..|w.orders.executions|] == w.orders.executions
    requires w'.orders.executions[|w.orders.executions|].account != a
    requires forall symbol: string :: PositionOf(w', a, symbol) == PositionOf(w, a, symbol)
    ensures Conserved(w', a)
  {
    var n := |w.orders.executions|;
    var e := w'.orders.executions[n];
    assert w'.orders.executions == w.orders.executions + [e];
    forall symbol: string ensures Balanced(w', a, symbol) {
      assert Balanced(w, a, symbol);
      SumsOfAppended(w.orders.executions, e, w'.signals, a, symbol);
      SameRowsSameSums(w.orders.executions, w.orders.executions, w.signals, w'.signals, a, symbol);
    }
  }

  /** The side and quantity the engine resolves make of the position what the signal means,
      and a zero move is the only target order the engine fails for its quantity. */
  lemma ResolvedMoves(w: World, sig: Signal, a: nat)
    requires sig.target.Some? || sig.quantity.Some?
    ensures var r := Resolve(w, sig, a);
            && (forall b: nat, s: string :: PositionOf(r.world, b, s) == PositionOf(w, b, s))
            && r.world == w.(positions := r.world.positions)
            && (sig.target.None? || r.quantity > 0.0 ==>
                  PositionOf(w, a, sig.symbol) + Signed(r.side, r.quantity)
                  == Meaning(sig, PositionOf(w, a, sig.symbol)))
            && (sig.target.Some? ==> (r.quantity <= 0.0 <==> PositionOf(w, a, sig.symbol) == sig.target.value))
  {
  }

  lemma FilledOrderStaysConserved(w: World, w': World, e: Execution)
    requires Conserved(w, e.account) && e.signal < |w.signals| && e.status == Filled
    requires w'.signals == w.signals && w'.orders.executions == w.orders.executions + [e]
    requires forall s: string :: PositionOf(w', e.account, s)
               == PositionOf(w, e.account, s) + (if s == e.symbol then Signed(e.side, e.quantity) else 0.0)
    requires PositionOf(w', e.account, e.symbol) == Meaning(w.signals[e.signal], PositionOf(w, e.account, e.symbol))
    ensures Conserved(w', e.account)
  {
    forall symbol: string ensures Balanced(w', e.account, symbol) {
      assert Balanced(w, e.account, symbol);
      SumsOfAppended(w.orders.executions, e, w.signals, e.account, symbol);
    }
  }

  lemma FailedOrderStaysConserved(w: World, w': World, e: Execution)
    requires Conserved(w, e.account) && e.status == Failed
    requires w'.signals == w.signals && w'.orders.executions == w.orders.executions + [e]
    requires forall s: string :: PositionOf(w', e.account, s) == PositionOf(w, e.account, s)
    ensures Conserved(w', e.account)
  {
    forall symbol: string ensures Balanced(w', e.account, symbol) {
      assert Balanced(w, e.account, symbol);
      SumsOfAppended(w.orders.executions, e, w.signals, e.account, symbol);
    }
  }

  /** PlaceOrder either fails the row and moves nothing, or fills it and moves one position. */
  lemma PlacedOrder(w: World, e: Execution)
    requires e.account < |w.accounts| && e.status == Created
    ensures var w' := PlaceOrder(w, e);
            && w'.signals == w.signals
            && (|| (&& w'.orders.executions == w.orders.executions + [e.(status := Failed)]
                    && w'.positions == w.positions)
                || (&& e.quantity > 0.0
                    && w'.orders.executions
                         == w.orders.executions
                            + [e.(status := Filled, exchangeOrderId := Some(MockExchangeId(e.clientOrderId)))]
                    && forall a: nat, s: string :: PositionOf(w', a, s)
                         == PositionOf(w, a, s) + (if a == e.account && s == e.symbol then Signed(e.side, e.quantity)
                             else 0.0)))
  {
    AddedRows(w.orders, e);
  }

  lemma PlacedStaysConserved(w: World, p: World, e: Execution, a: nat)
    requires Referential(w) && Conserved(w, a)
    requires p == w.(positions := p.positions)
    requires forall s: string :: PositionOf(p, a, s) == PositionOf(w, a, s)
    requires e.account < |w.accounts| && e.signal < |w.signals| && e.status == Created
    requires e.account == a && e.quantity > 0.0 ==>
               PositionOf(w, a, e.symbol) + Signed(e.side, e.quantity)
               == Meaning(w.signals[e.signal], PositionOf(w, a, e.symbol))
    ensures Conserved(PlaceOrder(p, e), a)
  {
    var w' := PlaceOrder(p, e);
    PlacedOrder(p, e);
    var row := w'.orders.executions[|w.orders.executions|];
    if a != e.account {
      OtherAccountsRow(w, w', a);
    } else if row.status == Filled {
      FilledOrderStaysConserved(w, w', row);
    } else {
      FailedOrderStaysConserved(w, w', row);
    }
  }

  lemma ExecuteStaysConserved(w: World, user: nat, sid: nat, b: nat, a: nat)
    requires Referential(w) && Conserved(w, a)
    ensures Conserved(ExecuteSignal(w, user, sid, b).world, a)
  {
    ExecuteShape(w, user, sid, b);
    if sid < |w.signals| && b < |w.accounts| && (w.signals[sid].target.Some? || w.signals[sid].quantity.Some?) {
      var p := Resolve(w, w.signals[sid], b);
      ResolvedMoves(w, w.signals[sid], b);
      UntouchedStaysConserved(w, p.world, a);
      PlacedStaysConserved(w, p.world, EngineExecution(w, user, sid, b, p.side, p.quantity), a);
    }
  }

  /** A submission leaves the rows alone or adds one, REJECTED or SUBMITTED. */
  lemma SubmitRows(w: World, user: nat, req: SubmitRequest, now: real)
    ensures var w' := Submit(w, user, req, now).world;
            && w' == w.(orders := w'.orders, signals := w'.signals, risk := w'.risk)
            && w.signals <= w'.signals
            && (|| w'.orders == w.orders
                || (&& SubmitAllowed(w, user, req, now)
                    && var e := SubmitExecution(w, user, req);
                       && |w'.orders.executions| == |w.orders.executions| + 1
                       && w'.orders.executions[..|w.orders.executions|] == w.orders.executions
                       && var row := w'.orders.executions[|w.orders.executions|];
                          row == e.(status := row.status)))
  {
    SubmitShape(w, user, req, now);
    if Submit(w, user, req, now).world.orders != w.orders {
      AddedRows(w.orders, SubmitExecution(w, user, req));
    }
  }

  lemma SubmitStaysConserved(w: World, user: nat, req: SubmitRequest, now: real, a: nat)
    requires Referential(w) && Conserved(w, a)
    requires a < |w.accounts| ==> w.accounts[a].mode == Simulation
    ensures Conserved(Submit(w, user, req, now).world, a)
  {
    var w' := Submit(w, user, req, now).world;
    SubmitRows(w, user, req, now);
    if w'.orders == w.orders {
      UntouchedStaysConserved(w, w', a);
    } else {
      OtherAccountsRow(w, w', a);
    }
  }

  lemma AnswerStaysConserved(w: World, c: Call, a: nat)
    requires WorldInv(w) && Conserved(w, a) && IsAnswer(c)
    ensures Conserved(Step(w, c), a)
  {
    var w' := Step(w, c);
    AnswersKeep(w, c);
    forall i | 0 <= i < |w.orders.executions|
      ensures var e, e' := w.orders.executions[i], w'.orders.executions[i];
              if e.account == a then e' == e else e'.account != a
    {
      assert RowEvolves(w.orders.executions[i], w'.orders.executions[i]);
    }
    UntouchedStaysConserved(w, w', a);
  }

  lemma QuietPositions(w: World, c: Call, a: nat)
    requires !TouchesOrders(c) && (a < |w.accounts| ==> w.accounts[a].mode == Simulation)
    ensures forall symbol: string :: PositionOf(Step(w, c), a, symbol) == PositionOf(w, a, symbol)
    ensures w.signals <= Step(w, c).signals
  {
  }

  lemma QuietStaysConserved(w: World, c: Call, a: nat)
    requires WorldInv(w) && Conserved(w, a) && !TouchesOrders(c)
    requires a < |w.accounts| ==> w.accounts[a].mode == Simulation
    ensures Conserved(Step(w, c), a)
  {
    var w' := Step(w, c);
    QuietStep(w, c);
    QuietPositions(w, c, a);
    UntouchedStaysConserved(w, w', a);
  }

  lemma StepStaysConserved(w: World, c: Call, a: nat)
    requires WorldInv(w) && Conserved(w, a)
    requires a < |w.accounts| ==> w.accounts[a].mode == Simulation
    ensures Conserved(Step(w, c), a)
  {
    match c {
      case Execute(user, sid, b) => ExecuteStaysConserved(w, user, sid, b, a);
      case SubmitOrder(user, req, now) => SubmitStaysConserved(w, user, req, now, a);
      case _ =>
        if TouchesOrders(c) {
          AnswerStaysConserved(w, c, a);
        } else {
          QuietStaysConserved(w, c, a);
        }
    }
  }

  /** The account is in SIMULATION from its creation on. */
  ghost predicate StaysSimulated(ws: seq<World>, a: nat) {
    forall i :: 0 <= i < |ws| && a < |ws[i].accounts| ==> ws[i].accounts[a].mode == Simulation
  }

  lemma EmptyIsConserved(a: nat)
    ensures Conserved(EmptyWorld, a)
  {
    assert forall symbol: string :: Balanced(EmptyWorld, a, symbol);
  }

  lemma {:induction false} ConservedOnRuns(ws: seq<World>, cs: seq<Call>, a: nat, i: nat)
    requires IsRun(ws, cs) && StaysSimulated(ws, a) && i < |ws|
    ensures Conserved(ws[i], a)
  {
    if i == 0 {
      EmptyIsConserved(a);
    } else {
      ConservedOnRuns(ws, cs, a, i - 1);
      ReachableInv(ws, cs, i - 1);
      StepStaysConserved(ws[i - 1], cs[i - 1], a);
    }
  }

  /** Position conservation: after every call of every run, each position of the account is
      the sum of its filled executions and the fold of its filled signals. */
  lemma PositionsConserved(ws: seq<World>, cs: seq<Call>, a: nat, i: nat, symbol: string)
    requires IsRun(ws, cs) && StaysSimulated(ws, a) && i < |ws|
    ensures PositionOf(ws[i], a, symbol) == FilledSum(ws[i].orders.executions, a, symbol)
    ensures PositionOf(ws[i], a, symbol) == SignalFold(ws[i].orders.executions, ws[i].signals, a, symbol)
  {
    ConservedOnRuns(ws, cs, a, i);
    assert Balanced(ws[i], a, symbol);
  }
}
