/** Symbols are stored upper-cased, compared with an approval after stripping as well, and
    compared with the blocked list as stored: when the three readings agree, and when not. */
module Symbols {
  import opened Common
  import opened Text
  import opened OrderStateMachine
  import opened Ledger
  import opened LedgerInvariants
  import opened Positions
  import opened Interlocks

  /** The stored symbol is the one the approval was compared with exactly if the request was
      stripped already. */
  lemma StoredSymbolIsApprovedIff(w: World, user: nat, req: SubmitRequest)
    requires req.account < |w.accounts|
    ensures SubmitExecution(w, user, req).symbol == Normalized(req.symbol) <==> Strip(req.symbol) == req.symbol
  {
    UpperIsNormalizedIff(req.symbol);
  }

  ghost predicate Unblocked(w: World, e: Execution) {
    e.account in w.risk && e.symbol !in w.risk[e.account].blocked
  }

  lemma SubmissionPassing(w: World, user: nat, req: SubmitRequest, now: real, id: nat)
    requires WorldInv(w)
    requires var o' := Submit(w, user, req, now).world.orders;
             |w.orders.executions| <= id < |o'.executions| && PassedRisk(o', id)
    ensures Unblocked(w, Submit(w, user, req, now).world.orders.executions[id])
  {
    SubmitShape(w, user, req, now);
    assert EnsureRisk(w, req.account) == w;
    var e := SubmitExecution(w, user, req);
    AddedRows(w.orders, e);
    StoppedRowNeverPassed(w.orders, e, Rejected);
  }

  /** In any call, a row newly reaching RISK_PASSED carries a symbol that the settings of its
      account did not block when the call began. */
  lemma PassingNeedsUnblockedSymbol(w: World, c: Call, id: nat)
    requires WorldInv(w)
    requires !PassedRisk(w.orders, id) && PassedRisk(Step(w, c).orders, id)
    requires id < |Step(w, c).orders.executions|
    ensures Unblocked(w, Step(w, c).orders.executions[id])
  {
    OnlyNewRowsPass(w, c, id);
    if c.Execute? {
      EnginePassing(w, c.user, c.sid, c.account, id);
    } else {
      SubmissionPassing(w, c.user, c.request, c.now, id);
    }
  }

  /** So a submission whose symbol needs no stripping never passes under a blocked one. */
  lemma StrippedSubmissionIsUnblocked(w: World, user: nat, req: SubmitRequest, now: real, id: nat)
    requires WorldInv(w) && Strip(req.symbol) == req.symbol
    requires var o' := Submit(w, user, req, now).world.orders;
             |w.orders.executions| <= id < |o'.executions| && PassedRisk(o', id)
    ensures req.account in w.risk && Normalized(req.symbol) !in w.risk[req.account].blocked
  {
    SubmissionPassing(w, user, req, now, id);
    SubmitRows(w, user, req, now);
    UpperIsNormalizedIff(req.symbol);
  }

  // ---- symbols that slip past their blocked form ------------------------------------------------

  /** A run whose last call is a submission for `s` that reaches RISK_PASSED although the settings
      of its account block the normal form of `s`. */
  ghost predicate SlipsPast(ws: seq<World>, cs: seq<Call>, s: string) {
    && IsRun(ws, cs) && |cs| > 0
    && var k := |cs| - 1;
       && cs[k].SubmitOrder? && cs[k].request.symbol == s
       && |ws[k + 1].orders.executions| > |ws[k].orders.executions|
       && PassedRisk(ws[k + 1].orders, |ws[k].orders.executions|)
       && cs[k].request.account in ws[k].risk
       && Normalized(s) in ws[k].risk[cs[k].request.account].blocked
  }

  lemma SubmittedHasPassed(o: Orders, e: Execution)
    ensures PassedRisk(InsertedThenSubmitted(o, e), |o.executions|)
  {
    var id := |o.executions|;
    var born := o.Insert(e);
    var passed := born.Advance(id, RiskPassed, None);
    var t := Transition(id, born.NextSequence(id), Some(e.status), RiskPassed);
    RecordedHistory(Orders(passed.executions, born.log), id, Some(e.status), RiskPassed, id);
    assert t in passed.History(id);
    RecordedHistory(Orders(InsertedThenSubmitted(o, e).executions, passed.log), id, Some(RiskPassed), Submitted, id);
    assert t in InsertedThenSubmitted(o, e).History(id);
  }

  /** The window is for the stripped symbol, and exactly that one is blocked. */
  lemma UnstrippedSlipsPast(s: string) returns (ws: seq<World>, cs: seq<Call>)
    requires Strip(s) != s
    ensures SlipsPast(ws, cs, s) && |cs| == 9
    ensures ws[8] == Ready(Normalized(s), {Normalized(s)}) && |ws[9].orders.executions| == 1
    ensures ws[9].orders.executions[0].status == Submitted && ws[9].orders.executions[0].symbol == Upper(s)
  {
    var t := Normalized(s);
    UpperIsNormalizedIff(s);
    UpperTwice(Strip(s));
    NormalizedTwice(s);
    ws, cs := ApprovedOrderIsReachable(t, s, {t});
    SubmittedHasPassed(Orders([], []), SubmitExecution(Ready(t, {t}), 0, OrderFor(s)));
  }

  lemma StrippedDoesNotSlip(ws: seq<World>, cs: seq<Call>, s: string)
    requires Strip(s) == s
    ensures !SlipsPast(ws, cs, s)
  {
    if SlipsPast(ws, cs, s) {
      var k := |cs| - 1;
      ReachableInv(ws, cs, k);
      assert ws[k + 1] == Submit(ws[k], cs[k].user, cs[k].request, cs[k].now).world;
      StrippedSubmissionIsUnblocked(ws[k], cs[k].user, cs[k].request, cs[k].now, |ws[k].orders.executions|);
    }
  }

  /** Some run from the empty database lets a submission for `s` pass the risk check while the
      normal form of `s` is blocked, exactly if `s` is not stripped. */
  lemma SlipsPastIffUnstripped(s: string)
    ensures (exists ws, cs :: SlipsPast(ws, cs, s)) <==> Strip(s) != s
  {
    if Strip(s) != s {
      var ws, cs := UnstrippedSlipsPast(s);
    } else {
      forall ws, cs ensures !SlipsPast(ws, cs, s) {
        StrippedDoesNotSlip(ws, cs, s);
      }
    }
  }

  lemma BlankIsStripped()
    ensures Strip(" BTC") != " BTC" && Normalized(" BTC") == "BTC" && Upper(" BTC") == " BTC"
  {
    assert " BTC"[1..] == "BTC";
    assert Strip("BTC") == "BTC" && |"BTC"| < |" BTC"|;
    assert Upper("BTC") == "BTC";
    assert Upper(" BTC") == " BTC";
  }

  /** " BTC", covered by a window for BTC, slips past the blocked BTC at the end of a run: the row
      is SUBMITTED under a symbol that normalises to a blocked one. */
  lemma BlankPassesBlockedSymbol() returns (ws: seq<World>, cs: seq<Call>)
    ensures SlipsPast(ws, cs, " BTC") && |cs| == 9 && ws[8] == Ready("BTC", {"BTC"})
    ensures |ws[9].orders.executions| == 1 && ws[9].orders.executions[0].status == Submitted
    ensures ws[9].orders.executions[0].symbol == " BTC"
  {
    BlankIsStripped();
    ws, cs := UnstrippedSlipsPast(" BTC");
  }
}
