/** Repair proposals for a reconciliation report, and what carrying them out converges to. */
module Repair {
  import opened Common
  import R = Reconciliation

  datatype Action = BuyToTarget | SellToTarget | ReviewDatabase

  datatype Proposal = Proposal(
    symbol: string, action: Action, delta: real, exchange: real, database: real, target: real,
    severity: R.Severity, reasons: seq<R.Reason>)

  datatype PlanStatus = Disabled | NoDrift | ProposalCreated | ExecutionBlocked

  datatype Plan = Plan(status: PlanStatus, proposals: seq<Proposal>, autoFixAllowed: bool, executionAllowed: bool)

  datatype Settings = Settings(generationEnabled: bool, executionEnabled: bool)

  /** _proposal_for_difference: the exchange is moved first, the database reviewed otherwise. */
  function ProposalFor(d: R.Difference): Option<Proposal> {
    var gap := d.target - d.exchange;
    if gap > 0.0 then Some(Proposed(d, BuyToTarget, gap))
    else if gap < 0.0 then Some(Proposed(d, SellToTarget, -gap))
    else if d.databaseTarget != 0.0 then Some(Proposed(d, ReviewDatabase, R.Abs(d.databaseTarget)))
    else None
  }

  function Proposed(d: R.Difference, action: Action, delta: real): Proposal {
    Proposal(d.symbol, action, delta, d.exchange, d.database, d.target, d.severity, d.reasons)
  }

  function Proposals(ds: seq<R.Difference>): seq<Proposal> {
    if ds == [] then []
    else
      var p := ProposalFor(ds[0]);
      (if p.Some? then [p.value] else []) + Proposals(ds[1..])
  }

  /** build_reconciliation_repair_plan: proposals at most, never permission to execute. */
  function BuildPlan(report: R.Report, s: Settings): (plan: Plan)
    ensures !plan.autoFixAllowed && !plan.executionAllowed
  {
    if !s.generationEnabled then Plan(Disabled, [], false, false)
    else if report.status == R.Matched then Plan(NoDrift, [], false, false)
    else
      var status := if s.executionEnabled then ExecutionBlocked else ProposalCreated;
      Plan(status, Proposals(report.differences), false, false)
  }

  lemma {:induction false} OneProposalEach(ds: seq<R.Difference>, b: R.Books, tolerance: real, threshold: real)
    requires tolerance >= 0.0
    requires forall i :: 0 <= i < |ds| ==>
               ds[i] == R.DifferenceAt(b, ds[i].symbol, tolerance, threshold) && R.DriftsAt(b, ds[i].symbol, tolerance)
    ensures |Proposals(ds)| == |ds|
    ensures forall i :: 0 <= i < |ds| ==> ProposalFor(ds[i]) == Some(Proposals(ds)[i])
  {
    if ds != [] {
      OneProposalEach(ds[1..], b, tolerance, threshold);
    }
  }

  lemma ReportFacts(b: R.Books, tolerance: real, threshold: real)
    requires tolerance >= 0.0
    ensures var ds := R.Reconcile(b, tolerance, threshold).differences;
            && (forall i :: 0 <= i < |ds| ==>
                  ds[i] == R.DifferenceAt(b, ds[i].symbol, tolerance, threshold) &&
                      R.DriftsAt(b, ds[i].symbol, tolerance))
            && (forall i, j :: 0 <= i < j < |ds| ==> ds[i].symbol != ds[j].symbol)
            && (forall s :: R.DriftsAt(b, s, tolerance) ==> exists i :: 0 <= i < |ds| && ds[i].symbol == s)
  {
    R.ReportSymbols(b, tolerance, threshold);
    var ds := R.Reconcile(b, tolerance, threshold).differences;
    var symbols := R.SymbolsOf(ds);
    forall i | 0 <= i < |ds| ensures R.DriftsAt(b, ds[i].symbol, tolerance) {
      R.ListedDifference(b, tolerance, threshold, i);
    }
    forall i, j | 0 <= i < j < |ds| ensures ds[i].symbol != ds[j].symbol {
      assert R.Before(symbols[i], symbols[j]);
      R.BeforeIrreflexive(symbols[i]);
    }
    forall s | R.DriftsAt(b, s, tolerance) ensures exists i :: 0 <= i < |ds| && ds[i].symbol == s {
      var i := R.ListedAt(b, tolerance, threshold, s);
      assert ds[i].symbol == s;
    }
  }

  /** With a tolerance of zero or more every reported difference gets exactly one proposal. */
  lemma EveryDifferenceProposed(b: R.Books, tolerance: real, threshold: real, s: Settings)
    requires tolerance >= 0.0 && s.generationEnabled
    ensures var report := R.Reconcile(b, tolerance, threshold);
            var plan := BuildPlan(report, s);
            && |plan.proposals| == |report.differences|
            && (forall i :: 0 <= i < |plan.proposals| ==> ProposalFor(report.differences[i]) == Some(plan.proposals[i]))
  {
    ReportFacts(b, tolerance, threshold);
    OneProposalEach(R.Reconcile(b, tolerance, threshold).differences, b, tolerance, threshold);
  }

  /** What a plan says for given books: nothing when generation is off, nothing when the books match,
      and otherwise, execution enabled or not, one proposal for each reported symbol. */
  lemma PlanFor(b: R.Books, tolerance: real, threshold: real, s: Settings)
    requires tolerance >= 0.0
    ensures var report := R.Reconcile(b, tolerance, threshold);
            var plan := BuildPlan(report, s);
            var drift := exists x: string :: R.FurtherThan(b, x, tolerance);
            && (plan.status == Disabled <==> !s.generationEnabled)
            && (plan.status == NoDrift <==> s.generationEnabled && !drift)
            && (plan.status == ExecutionBlocked <==> s.generationEnabled && drift && s.executionEnabled)
            && (plan.status == ProposalCreated <==> s.generationEnabled && drift && !s.executionEnabled)
            && (!(s.generationEnabled && drift) ==> plan.proposals == [])
            && !plan.autoFixAllowed && !plan.executionAllowed
            && (s.generationEnabled ==> |plan.proposals| == |report.differences|)
            && forall i :: 0 <= i < |plan.proposals| ==> Right(b, report.differences[i], plan.proposals[i])
  {
    R.MatchedIff(b, tolerance, threshold);
    if s.generationEnabled {
      EveryDifferenceProposed(b, tolerance, threshold, s);
      R.DifferencesSayIt(b, tolerance, threshold);
      var report := R.Reconcile(b, tolerance, threshold);
      var ds := report.differences;
      forall i | 0 <= i < |ds| ensures Right(b, ds[i], BuildPlan(report, s).proposals[i]) {
        ProposalIsRight(b, ds[i], tolerance, threshold);
      }
    }
  }

  /** The proposal a difference deserves: buy what the exchange lacks to the target, sell what it has
      beyond it, and review the database if the exchange is on target. */
  predicate Right(b: R.Books, d: R.Difference, p: Proposal) {
    var e, q, t := R.Qty(b.exchange, d.symbol), R.Qty(b.database, d.symbol), R.Qty(b.target, d.symbol);
    && p.symbol == d.symbol && p.exchange == e && p.database == q && p.target == t
    && p.severity == d.severity && p.reasons == d.reasons && p.delta > 0.0
    && (p.action == BuyToTarget <==> e < t) && (p.action == SellToTarget <==> e > t)
    && (p.action == ReviewDatabase <==> e == t)
    && p.delta == (if e == t then R.Gap(q, t) else R.Gap(e, t))
  }

  lemma ProposalIsRight(b: R.Books, d: R.Difference, tolerance: real, threshold: real)
    requires tolerance >= 0.0 && R.FurtherThan(b, d.symbol, tolerance) && R.SaysIt(b, d, tolerance, threshold)
    ensures ProposalFor(d).Some? && Right(b, d, ProposalFor(d).value)
  {
  }

  // ---- carrying a plan out ------------------------------------------------------------------

  /** An operator buys or sells on the exchange, or sets the database row to the target. */
  function CarriedOut(b: R.Books, p: Proposal): R.Books {
    match p.action
    case BuyToTarget => b.(exchange := b.exchange[p.symbol := R.Qty(b.exchange, p.symbol) + p.delta])
    case SellToTarget => b.(exchange := b.exchange[p.symbol := R.Qty(b.exchange, p.symbol) - p.delta])
    case ReviewDatabase => b.(database := b.database[p.symbol := p.target])
  }

  function AllCarriedOut(b: R.Books, ps: seq<Proposal>): R.Books
    decreases |ps|
  {
    if ps == [] then b else AllCarriedOut(CarriedOut(b, ps[0]), ps[1..])
  }

  lemma {:induction false} OthersUntouched(b: R.Books, ps: seq<Proposal>, symbol: string)
    requires forall i :: 0 <= i < |ps| ==> ps[i].symbol != symbol
    ensures var b' := AllCarriedOut(b, ps);
            && R.Qty(b'.exchange, symbol) == R.Qty(b.exchange, symbol)
            && R.Qty(b'.database, symbol) == R.Qty(b.database, symbol)
            && b'.target == b.target
    decreases |ps|
  {
    if ps != [] {
      OthersUntouched(CarriedOut(b, ps[0]), ps[1..], symbol);
    }
  }

  lemma CarriedOutElsewhere(b: R.Books, q: Proposal, p: Proposal)
    requires q.symbol != p.symbol
    ensures var first, alone := CarriedOut(CarriedOut(b, q), p), CarriedOut(b, p);
            && R.Qty(first.exchange, p.symbol) == R.Qty(alone.exchange, p.symbol)
            && R.Qty(first.database, p.symbol) == R.Qty(alone.database, p.symbol)
            && CarriedOut(b, q).target == b.target
  {
  }

  /** A proposal is the only one that touches its symbol. */
  lemma {:induction false} ProposalTakesEffect(b: R.Books, ps: seq<Proposal>, i: nat)
    requires i < |ps| && forall j, k :: 0 <= j < k < |ps| ==> ps[j].symbol != ps[k].symbol
    ensures var b', once := AllCarriedOut(b, ps), CarriedOut(b, ps[i]);
            && R.Qty(b'.exchange, ps[i].symbol) == R.Qty(once.exchange, ps[i].symbol)
            && R.Qty(b'.database, ps[i].symbol) == R.Qty(once.database, ps[i].symbol)
            && b'.target == b.target
    decreases |ps|
  {
    if i == 0 {
      OthersUntouched(CarriedOut(b, ps[0]), ps[1..], ps[0].symbol);
    } else {
      ProposalTakesEffect(CarriedOut(b, ps[0]), ps[1..], i - 1);
      CarriedOutElsewhere(b, ps[0], ps[i]);
    }
  }

  /** Reconcile, propose, and carry every proposal out. */
  ghost function Round(b: R.Books, tolerance: real, threshold: real): R.Books {
    AllCarriedOut(b, BuildPlan(R.Reconcile(b, tolerance, threshold), Settings(true, false)).proposals)
  }

  /** What carrying out the proposal for one difference does to its symbol. */
  lemma ProposalEffect(b: R.Books, ps: seq<Proposal>, i: nat, s: string, tolerance: real, threshold: real)
    requires i < |ps| && forall j, k :: 0 <= j < k < |ps| ==> ps[j].symbol != ps[k].symbol
    requires ProposalFor(R.DifferenceAt(b, s, tolerance, threshold)) == Some(ps[i])
    ensures var b' := AllCarriedOut(b, ps);
            && b'.target == b.target
            && R.Qty(b'.exchange, s) == R.Qty(b.target, s)
            && R.Qty(b'.database, s) == R.Qty(if R.Qty(b.exchange, s) == R.Qty(b.target, s) then b.target
                   else b.database, s)
  {
    ProposalTakesEffect(b, ps, i);
  }

  lemma ProposalsFollow(ds: seq<R.Difference>, ps: seq<Proposal>)
    requires |ps| == |ds| && forall i :: 0 <= i < |ds| ==> ProposalFor(ds[i]) == Some(ps[i])
    requires forall i, j :: 0 <= i < j < |ds| ==> ds[i].symbol != ds[j].symbol
    ensures forall i :: 0 <= i < |ps| ==> ps[i].symbol == ds[i].symbol
    ensures forall j, k :: 0 <= j < k < |ps| ==> ps[j].symbol != ps[k].symbol
  {
    forall i | 0 <= i < |ps| ensures ps[i].symbol == ds[i].symbol {
      assert ProposalFor(ds[i]) == Some(ps[i]);
    }
  }

  /** The proposals of a round: distinct symbols, one for each symbol that drifts. */
  lemma RoundProposals(b: R.Books, tolerance: real, threshold: real, s: string)
    requires tolerance >= 0.0
    ensures var ps := BuildPlan(R.Reconcile(b, tolerance, threshold), Settings(true, false)).proposals;
            && (forall j, k :: 0 <= j < k < |ps| ==> ps[j].symbol != ps[k].symbol)
            && (if R.DriftsAt(b, s, tolerance)
                then exists i :: 0 <= i < |ps| && ProposalFor(R.DifferenceAt(b, s, tolerance, threshold)) == Some(ps[i])
                else forall i :: 0 <= i < |ps| ==> ps[i].symbol != s)
  {
    var ds := R.Reconcile(b, tolerance, threshold).differences;
    var ps := BuildPlan(R.Reconcile(b, tolerance, threshold), Settings(true, false)).proposals;
    ReportFacts(b, tolerance, threshold);
    EveryDifferenceProposed(b, tolerance, threshold, Settings(true, false));
    ProposalsFollow(ds, ps);
    if R.DriftsAt(b, s, tolerance) {
      var i :| 0 <= i < |ds| && ds[i].symbol == s;
      assert ds[i] == R.DifferenceAt(b, s, tolerance, threshold);
    } else {
      forall i | 0 <= i < |ps| ensures ps[i].symbol != s {
        assert R.DriftsAt(b, ds[i].symbol, tolerance);
      }
    }
  }

  /** What one round does to one symbol: the exchange goes to target if it was off, otherwise
      the database does; symbols that do not drift stay as they are. */
  lemma RoundEffect(b: R.Books, tolerance: real, threshold: real, s: string)
    requires tolerance >= 0.0
    ensures var b' := Round(b, tolerance, threshold);
            var e, d, t := R.Qty(b.exchange, s), R.Qty(b.database, s), R.Qty(b.target, s);
            && R.Qty(b'.target, s) == t
            && R.Qty(b'.exchange, s) == (if R.DriftsAt(b, s, tolerance) then t else e)
            && R.Qty(b'.database, s) == (if R.DriftsAt(b, s, tolerance) && e == t then t else d)
  {
    var ps := BuildPlan(R.Reconcile(b, tolerance, threshold), Settings(true, false)).proposals;
    RoundProposals(b, tolerance, threshold, s);
    if R.DriftsAt(b, s, tolerance) {
      var i :| 0 <= i < |ps| && ProposalFor(R.DifferenceAt(b, s, tolerance, threshold)) == Some(ps[i]);
      ProposalEffect(b, ps, i, s, tolerance, threshold);
    } else {
      OthersUntouched(b, ps, s);
    }
  }

  lemma TwoRoundsSettle(b: R.Books, tolerance: real, threshold: real, s: string)
    requires tolerance >= 0.0
    ensures !R.DriftsAt(Round(Round(b, tolerance, threshold), tolerance, threshold), s, tolerance)
  {
    RoundEffect(b, tolerance, threshold, s);
    RoundEffect(Round(b, tolerance, threshold), tolerance, threshold, s);
  }

  /** Repair convergence: after two rounds nothing drifts. */
  lemma TwoRoundsMatch(b: R.Books, tolerance: real, threshold: real)
    requires tolerance >= 0.0
    ensures R.Reconcile(Round(Round(b, tolerance, threshold), tolerance, threshold), tolerance, threshold).status ==
        R.Matched
  {
    var b1 := Round(b, tolerance, threshold);
    var b2 := Round(b1, tolerance, threshold);
    forall s: string ensures !R.DriftsAt(b2, s, tolerance) {
      TwoRoundsSettle(b, tolerance, threshold, s);
    }
    R.MatchedIffNoDrift(b2, tolerance, threshold);
  }

  /** The symbols that still drift after one round. */
  predicate NeedsTwo(b: R.Books, s: string, tolerance: real) {
    R.Qty(b.exchange, s) != R.Qty(b.target, s) && R.Outside(R.Qty(b.database, s) - R.Qty(b.target, s), tolerance)
  }

  lemma OneRoundSettlesIff(b: R.Books, tolerance: real, threshold: real, s: string)
    requires tolerance >= 0.0
    ensures R.DriftsAt(Round(b, tolerance, threshold), s, tolerance) <==> NeedsTwo(b, s, tolerance)
  {
    RoundEffect(b, tolerance, threshold, s);
  }

  /** One round is enough exactly when no symbol has both its exchange and its database off target. */
  lemma OneRoundMatchesIff(b: R.Books, tolerance: real, threshold: real)
    requires tolerance >= 0.0
    ensures R.Reconcile(Round(b, tolerance, threshold), tolerance, threshold).status == R.Matched <==>
      forall s: string :: !NeedsTwo(b, s, tolerance)
  {
    var b1 := Round(b, tolerance, threshold);
    R.MatchedIffNoDrift(b1, tolerance, threshold);
    forall s: string ensures R.DriftsAt(b1, s, tolerance) <==> NeedsTwo(b, s, tolerance) {
      OneRoundSettlesIff(b, tolerance, threshold, s);
    }
  }
}
