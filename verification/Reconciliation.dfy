/** Three-way position reconciliation: snapshots merged by symbol, compared, and reported
    in a canonical form. */
module Reconciliation {
  import opened Text

  datatype Snapshot = Snapshot(symbol: string, quantity: real)

  type Book = map<string, real>

  function Qty(b: Book, symbol: string): real {
    if symbol in b then b[symbol] else 0.0
  }

  // ---- merging snapshots ---------------------------------------------------------------

  function Total(snaps: seq<Snapshot>, symbol: string): real {
    if snaps == [] then 0.0
    else
      var last := snaps[|snaps| - 1];
      Total(snaps[..|snaps| - 1], symbol) + (if Upper(last.symbol) == symbol then last.quantity else 0.0)
  }

  function Symbols(snaps: seq<Snapshot>): set<string> {
    set s | s in snaps :: Upper(s.symbol)
  }

  function Merged(snaps: seq<Snapshot>): Book {
    map symbol | symbol in Symbols(snaps) :: Total(snaps, symbol)
  }

  lemma {:induction false} TotalOfAbsent(snaps: seq<Snapshot>, symbol: string)
    requires symbol !in Symbols(snaps)
    ensures Total(snaps, symbol) == 0.0
  {
    if snaps != [] {
      var n := |snaps| - 1;
      assert snaps[n] in snaps;
      assert forall s :: s in snaps[..n] ==> s in snaps;
      TotalOfAbsent(snaps[..n], symbol);
    }
  }

  lemma MergedQuantity(snaps: seq<Snapshot>, symbol: string)
    ensures Qty(Merged(snaps), symbol) == Total(snaps, symbol)
  {
    if symbol !in Symbols(snaps) {
      TotalOfAbsent(snaps, symbol);
    }
  }

  lemma TotalPush(snaps: seq<Snapshot>, s: Snapshot, symbol: string)
    ensures Total(snaps + [s], symbol) == Total(snaps, symbol) + (if Upper(s.symbol) == symbol then s.quantity else 0.0)
  {
    assert (snaps + [s])[..|snaps|] == snaps;
  }

  lemma SymbolsPush(snaps: seq<Snapshot>, s: Snapshot)
    ensures Symbols(snaps + [s]) == Symbols(snaps) + {Upper(s.symbol)}
  {
    assert forall x :: x in snaps + [s] <==> x in snaps || x == s;
  }

  lemma MergedPush(snaps: seq<Snapshot>, s: Snapshot)
    ensures var symbol := Upper(s.symbol);
            Merged(snaps + [s]) == Merged(snaps)[symbol := Qty(Merged(snaps), symbol) + s.quantity]
  {
    MergedQuantity(snaps, Upper(s.symbol));
    SymbolsPush(snaps, s);
    forall x ensures Total(snaps + [s], x) == Total(snaps, x) + (if Upper(s.symbol) == x then s.quantity else 0.0) {
      TotalPush(snaps, s, x);
    }
  }

  /** _normalize_snapshots */
  method NormalizeSnapshots(snaps: seq<Snapshot>) returns (book: Book)
    ensures book == Merged(snaps)
  {
    book := map[];
    for i := 0 to |snaps|
      invariant book == Merged(snaps[..i])
    {
      var symbol := Upper(snaps[i].symbol);
      assert snaps[..i + 1] == snaps[..i] + [snaps[i]];
      MergedPush(snaps[..i], snaps[i]);
      book := book[symbol := (if symbol in book then book[symbol] else 0.0) + snaps[i].quantity];
    }
    assert snaps[..|snaps|] == snaps;
  }

  lemma {:induction false} TotalOfConcat(a: seq<Snapshot>, b: seq<Snapshot>, symbol: string)
    ensures Total(a + b, symbol) == Total(a, symbol) + Total(b, symbol)
  {
    if b == [] {
      assert a + b == a;
    } else {
      assert (a + b)[..|a + b| - 1] == a + b[..|b| - 1];
      TotalOfConcat(a, b[..|b| - 1], symbol);
    }
  }

  lemma {:induction false} PermutedTotals(a: seq<Snapshot>, b: seq<Snapshot>, symbol: string)
    requires multiset(a) == multiset(b)
    ensures Total(a, symbol) == Total(b, symbol)
    decreases |a|
  {
    if a == [] {
      assert |multiset(b)| == 0;
    } else {
      var n := |a| - 1;
      assert a == a[..n] + [a[n]];
      assert a[n] in multiset(b);
      var k :| 0 <= k < |b| && b[k] == a[n];
      var rest := b[..k] + b[k + 1..];
      assert b == b[..k] + ([b[k]] + b[k + 1..]);
      assert multiset(a[..n]) == multiset(a) - multiset{a[n]};
      assert multiset(rest) == multiset(b) - multiset{b[k]};
      PermutedTotals(a[..n], rest, symbol);
      TotalOfConcat(b[..k], b[k + 1..], symbol);
      TotalOfConcat([b[k]], b[k + 1..], symbol);
      TotalOfConcat(b[..k], [b[k]] + b[k + 1..], symbol);
      TotalOfConcat(a[..n], [a[n]], symbol);
    }
  }

  // ---- sorted symbols ------------------------------------------------------------------------

  predicate Before(a: string, b: string) {
    b != "" && (a == "" || a[0] < b[0] || (a[0] == b[0] && Before(a[1..], b[1..])))
  }

  /** `a` and `b` agree up to position `k`, where `a` ends or has the smaller character. */
  predicate SmallerAt(a: string, b: string, k: nat) {
    && k <= |a| && k < |b| && (forall i :: 0 <= i < k ==> a[i] == b[i])
    && (k == |a| || a[k] < b[k])
  }

  /** The order is that of the dictionary. */
  lemma {:induction false} BeforeIff(a: string, b: string)
    ensures Before(a, b) <==> exists k: nat :: SmallerAt(a, b, k)
    decreases |a|
  {
    if a == "" {
      assert b != "" ==> SmallerAt(a, b, 0);
    } else if b != "" {
      BeforeIff(a[1..], b[1..]);
      if a[0] < b[0] {
        assert SmallerAt(a, b, 0);
      } else if a[0] == b[0] {
        if k: nat :| SmallerAt(a[1..], b[1..], k) {
          forall i | 0 <= i < k + 1 ensures a[i] == b[i] {
            if i > 0 { assert a[1..][i - 1] == b[1..][i - 1]; }
          }
          assert SmallerAt(a, b, k + 1);
        }
        if k: nat :| SmallerAt(a, b, k) {
          assert SmallerAt(a[1..], b[1..], k - 1);
        }
      }
    }
  }

  lemma {:induction false} BeforeIrreflexive(a: string)
    ensures !Before(a, a)
  {
    if a != "" {
      BeforeIrreflexive(a[1..]);
    }
  }

  lemma {:induction false} BeforeIsTotal(a: string, b: string)
    ensures Before(a, b) || Before(b, a) || a == b
    ensures !(Before(a, b) && Before(b, a))
  {
    if a != "" && b != "" {
      BeforeIsTotal(a[1..], b[1..]);
      assert a == [a[0]] + a[1..] && b == [b[0]] + b[1..];
    }
  }

  lemma {:induction false} BeforeTransitive(a: string, b: string, c: string)
    requires Before(a, b) && Before(b, c)
    ensures Before(a, c)
  {
    if a != "" && a[0] == b[0] == c[0] {
      BeforeTransitive(a[1..], b[1..], c[1..]);
    }
  }

  predicate IsFirst(m: string, s: set<string>) {
    m in s && forall x :: x in s && x != m ==> Before(m, x)
  }

  lemma {:induction false} FirstExists(s: set<string>) returns (m: string)
    requires s != {}
    ensures IsFirst(m, s)
  {
    m :| m in s;
    if s != {m} {
      var n := FirstExists(s - {m});
      BeforeIsTotal(m, n);
      if Before(m, n) {
        forall x | x in s && x != m ensures Before(m, x) {
          if x != n { BeforeTransitive(m, n, x); }
        }
      } else {
        m := n;
      }
    }
  }

  ghost predicate Sorted(l: seq<string>) {
    forall i, j :: 0 <= i < j < |l| ==> Before(l[i], l[j])
  }

  /** sorted() of a set of symbols. */
  ghost function SortedSymbols(s: set<string>): (l: seq<string>)
    ensures Sorted(l) && forall x :: x in l <==> x in s
    decreases |s|
  {
    if s == {} then []
    else
      assert exists m :: IsFirst(m, s) by { var m := FirstExists(s); }
      var m :| IsFirst(m, s);
      var rest := SortedSymbols(s - {m});
      assert forall i :: 0 <= i < |rest| ==> rest[i] in rest;
      [m] + rest
  }

  /** A set of symbols has one sorted listing. */
  lemma {:induction false} SortedUnique(a: seq<string>, b: seq<string>)
    requires Sorted(a) && Sorted(b) && forall x :: x in a <==> x in b
    ensures a == b
    decreases |a|
  {
    var firstA, firstB := if a == [] then "" else a[0], if b == [] then "" else b[0];
    assert firstA in a <==> firstA in b;
    assert firstB in a <==> firstB in b;
    if a != [] && b != [] {
      BeforeIsTotal(a[0], b[0]);
      var i :| 0 <= i < |b| && b[i] == a[0];
      var j :| 0 <= j < |a| && a[j] == b[0];
      assert a[0] == b[0];
      forall x ensures x in a[1..] <==> x in b[1..] {
        BeforeIrreflexive(a[0]);
        assert x in a <==> x == a[0] || x in a[1..];
        assert x in b <==> x == b[0] || x in b[1..];
      }
      SortedUnique(a[1..], b[1..]);
    }
  }

  // ---- comparing one symbol --------------------------------------------------------------------

  datatype Severity = Ok | Warning | Critical

  datatype Reason = ExchangeVersusDatabase | ExchangeVersusTarget | DatabaseVersusTarget

  datatype Difference = Difference(
    symbol: string, exchange: real, database: real, target: real,
    exchangeDatabase: real, exchangeTarget: real, databaseTarget: real,
    severity: Severity, reasons: seq<Reason>)

  function Abs(x: real): real { if x < 0.0 then -x else x }

  predicate Outside(delta: real, tolerance: real) { Abs(delta) > tolerance }

  function If<T>(c: bool, x: T): seq<T> { if c then [x] else [] }

  function Reasons(ed: real, et: real, dt: real, tolerance: real): seq<Reason> {
    If(Outside(ed, tolerance), ExchangeVersusDatabase)
    + If(Outside(et, tolerance), ExchangeVersusTarget)
    + If(Outside(dt, tolerance), DatabaseVersusTarget)
  }

  /** _difference_for_symbol */
  function Compare(symbol: string, e: real, d: real, t: real, tolerance: real, threshold: real): Difference {
    var reasons := Reasons(e - d, e - t, d - t, tolerance);
    var severity :=
      if reasons == [] then Ok
      else if Abs(e - d) >= threshold || Abs(e - t) >= threshold || Abs(d - t) >= threshold then Critical
      else Warning;
    Difference(symbol, e, d, t, e - d, e - t, d - t, severity, reasons)
  }

  predicate Drifted(e: real, d: real, t: real, tolerance: real) {
    Outside(e - d, tolerance) || Outside(e - t, tolerance) || Outside(d - t, tolerance)
  }

  /** A difference is reported exactly when some pair of quantities is too far apart. */
  lemma ReportedIffDrifted(symbol: string, e: real, d: real, t: real, tolerance: real, threshold: real)
    ensures Compare(symbol, e, d, t, tolerance, threshold).severity != Ok <==> Drifted(e, d, t, tolerance)
  {
  }

  /** At zero tolerance quantities never disagree in exactly one pair. */
  lemma NeverOneReason(symbol: string, e: real, d: real, t: real, threshold: real)
    ensures |Compare(symbol, e, d, t, 0.0, threshold).reasons| != 1
  {
  }

  // ---- the report ------------------------------------------------------------------------------------

  datatype Status = Matched | DriftDetected

  datatype Report = Report(status: Status, severity: Severity, differences: seq<Difference>)

  datatype Books = Books(exchange: Book, database: Book, target: Book)

  function DifferenceAt(b: Books, symbol: string, tolerance: real, threshold: real): Difference {
    Compare(symbol, Qty(b.exchange, symbol), Qty(b.database, symbol), Qty(b.target, symbol), tolerance, threshold)
  }

  predicate DriftsAt(b: Books, symbol: string, tolerance: real) {
    Drifted(Qty(b.exchange, symbol), Qty(b.database, symbol), Qty(b.target, symbol), tolerance)
  }

  function DriftedAmong(b: Books, symbols: seq<string>, tolerance: real, threshold: real): seq<Difference> {
    if symbols == [] then []
    else
      var d := DifferenceAt(b, symbols[0], tolerance, threshold);
      If(d.severity != Ok, d) + DriftedAmong(b, symbols[1..], tolerance, threshold)
  }

  predicate AnyCritical(ds: seq<Difference>) {
    exists i :: 0 <= i < |ds| && ds[i].severity == Critical
  }

  function ReportOf(drifted: seq<Difference>): Report {
    Report(if drifted == [] then Matched else DriftDetected,
           if AnyCritical(drifted) then Critical else if drifted != [] then Warning else Ok,
           drifted)
  }

  ghost function AllSymbols(b: Books): seq<string> {
    SortedSymbols(b.exchange.Keys + b.database.Keys + b.target.Keys)
  }

  /** reconcile_position_snapshots, once the snapshots are merged. */
  ghost function Reconcile(b: Books, tolerance: real, threshold: real): Report {
    ReportOf(DriftedAmong(b, AllSymbols(b), tolerance, threshold))
  }

  function SymbolsOf(ds: seq<Difference>): seq<string> {
    seq(|ds|, i requires 0 <= i < |ds| => ds[i].symbol)
  }

  /** The filtered list keeps order, holds exactly the drifting symbols, and each entry is
      the comparison of its symbol. */
  lemma {:induction false} DriftedAmongIs(b: Books, symbols: seq<string>, tolerance: real, threshold: real)
    requires Sorted(symbols)
    ensures var ds := DriftedAmong(b, symbols, tolerance, threshold);
            && Sorted(SymbolsOf(ds))
            && (forall s :: s in SymbolsOf(ds) <==> s in symbols && DriftsAt(b, s, tolerance))
            && (forall i :: 0 <= i < |ds| ==> ds[i] == DifferenceAt(b, ds[i].symbol, tolerance, threshold))
  {
    if symbols != [] {
      var s, rest := symbols[0], symbols[1..];
      DriftedAmongIs(b, rest, tolerance, threshold);
      assert forall x :: x in symbols <==> x == s || x in rest;
      ReportedIffDrifted(s, Qty(b.exchange, s), Qty(b.database, s), Qty(b.target, s), tolerance, threshold);
      if DriftsAt(b, s, tolerance) {
        PrependSorted(symbols, DifferenceAt(b, s, tolerance, threshold), DriftedAmong(b, rest, tolerance, threshold));
      } else {
        assert DriftedAmong(b, symbols, tolerance, threshold) == DriftedAmong(b, rest, tolerance, threshold);
      }
    }
  }

  lemma PrependSorted(symbols: seq<string>, d: Difference, later: seq<Difference>)
    requires Sorted(symbols) && symbols != [] && d.symbol == symbols[0]
    requires Sorted(SymbolsOf(later)) && forall x :: x in SymbolsOf(later) ==> x in symbols[1..]
    ensures SymbolsOf([d] + later) == [d.symbol] + SymbolsOf(later)
    ensures Sorted(SymbolsOf([d] + later))
  {
    forall x | x in SymbolsOf(later) ensures Before(d.symbol, x) {
      assert x in symbols[1..];
      var i :| 0 <= i < |symbols[1..]| && symbols[1..][i] == x;
      assert symbols[i + 1] == x;
    }
  }

  /** With a tolerance of zero or more, a symbol no book mentions cannot drift. */
  lemma DriftIsListed(b: Books, symbol: string, tolerance: real)
    requires tolerance >= 0.0 && DriftsAt(b, symbol, tolerance)
    ensures symbol in AllSymbols(b)
  {
  }

  lemma ReportSymbols(b: Books, tolerance: real, threshold: real)
    requires tolerance >= 0.0
    ensures var ds := Reconcile(b, tolerance, threshold).differences;
            && Sorted(SymbolsOf(ds))
            && (forall s :: s in SymbolsOf(ds) <==> DriftsAt(b, s, tolerance))
            && (forall i :: 0 <= i < |ds| ==> ds[i] == DifferenceAt(b, ds[i].symbol, tolerance, threshold))
  {
    DriftedAmongIs(b, AllSymbols(b), tolerance, threshold);
    forall s | DriftsAt(b, s, tolerance) ensures s in AllSymbols(b) {
      DriftIsListed(b, s, tolerance);
    }
  }

  /** MATCHED exactly when, for every symbol, all three quantities agree pairwise within tolerance. */
  lemma MatchedIffNoDrift(b: Books, tolerance: real, threshold: real)
    requires tolerance >= 0.0
    ensures Reconcile(b, tolerance, threshold).status == Matched <==> forall s: string :: !DriftsAt(b, s, tolerance)
  {
    ReportSymbols(b, tolerance, threshold);
    var ds := Reconcile(b, tolerance, threshold).differences;
    if ds != [] {
      assert SymbolsOf(ds)[0] in SymbolsOf(ds);
    } else {
      assert SymbolsOf(ds) == [];
    }
  }

  lemma ListedDifference(b: Books, tolerance: real, threshold: real, i: nat)
    requires tolerance >= 0.0 && i < |Reconcile(b, tolerance, threshold).differences|
    ensures var d := Reconcile(b, tolerance, threshold).differences[i];
            DriftsAt(b, d.symbol, tolerance) && d == DifferenceAt(b, d.symbol, tolerance, threshold)
  {
    ReportSymbols(b, tolerance, threshold);
    var ds := Reconcile(b, tolerance, threshold).differences;
    assert SymbolsOf(ds)[i] in SymbolsOf(ds);
  }

  lemma ListedAt(b: Books, tolerance: real, threshold: real, s: string) returns (i: nat)
    requires tolerance >= 0.0 && DriftsAt(b, s, tolerance)
    ensures var ds := Reconcile(b, tolerance, threshold).differences;
            i < |ds| && ds[i] == DifferenceAt(b, s, tolerance, threshold)
  {
    ReportSymbols(b, tolerance, threshold);
    var ds := Reconcile(b, tolerance, threshold).differences;
    assert s in SymbolsOf(ds);
    i :| 0 <= i < |ds| && SymbolsOf(ds)[i] == s;
  }

  // ---- the report against the quantities themselves --------------------------------------------

  /** How far two quantities are apart. */
  function Gap(x: real, y: real): (g: real)
    ensures g >= 0.0
  {
    if x > y then x - y else y - x
  }

  /** Some two of the three quantities of a symbol are more than `d` apart. */
  predicate FurtherThan(b: Books, s: string, d: real) {
    var e, q, t := Qty(b.exchange, s), Qty(b.database, s), Qty(b.target, s);
    Gap(e, q) > d || Gap(e, t) > d || Gap(q, t) > d
  }

  /** Some two of them are `d` apart or more. */
  predicate AtLeast(b: Books, s: string, d: real) {
    var e, q, t := Qty(b.exchange, s), Qty(b.database, s), Qty(b.target, s);
    Gap(e, q) >= d || Gap(e, t) >= d || Gap(q, t) >= d
  }

  lemma DriftIsGap(b: Books, s: string, tolerance: real)
    ensures DriftsAt(b, s, tolerance) <==> FurtherThan(b, s, tolerance)
  {
  }

  /** Which symbols are reported, and what is said of each: the three quantities, the three deltas,
      the pairs that are too far apart, in order, and how bad it is. */
  lemma DifferencesSayIt(b: Books, tolerance: real, threshold: real)
    requires tolerance >= 0.0
    ensures var ds := Reconcile(b, tolerance, threshold).differences;
            && (forall s :: FurtherThan(b, s, tolerance) ==> exists i :: 0 <= i < |ds| && ds[i].symbol == s)
            && (forall i :: 0 <= i < |ds| ==>
                  FurtherThan(b, ds[i].symbol, tolerance) && SaysIt(b, ds[i], tolerance, threshold))
  {
    var ds := Reconcile(b, tolerance, threshold).differences;
    forall s | FurtherThan(b, s, tolerance) ensures exists i :: 0 <= i < |ds| && ds[i].symbol == s {
      DriftIsGap(b, s, tolerance);
      var i := ListedAt(b, tolerance, threshold, s);
      assert ds[i].symbol == s;
    }
    forall i | 0 <= i < |ds|
      ensures FurtherThan(b, ds[i].symbol, tolerance) && SaysIt(b, ds[i], tolerance, threshold)
    {
      ListedDifference(b, tolerance, threshold, i);
      DriftIsGap(b, ds[i].symbol, tolerance);
      DifferenceSaysIt(b, ds[i].symbol, tolerance, threshold);
    }
  }

  predicate SaysIt(b: Books, d: Difference, tolerance: real, threshold: real) {
    var e, q, t := Qty(b.exchange, d.symbol), Qty(b.database, d.symbol), Qty(b.target, d.symbol);
    && d.exchange == e && d.database == q && d.target == t
    && d.exchangeDatabase == e - q && d.exchangeTarget == e - t && d.databaseTarget == q - t
    && (ExchangeVersusDatabase in d.reasons <==> Gap(e, q) > tolerance)
    && (ExchangeVersusTarget in d.reasons <==> Gap(e, t) > tolerance)
    && (DatabaseVersusTarget in d.reasons <==> Gap(q, t) > tolerance)
    && (forall i, j :: 0 <= i < j < |d.reasons| ==> Place(d.reasons[i]) < Place(d.reasons[j]))
    && d.severity == (if AtLeast(b, d.symbol, threshold) then Critical else Warning)
  }

  function Place(r: Reason): nat {
    match r
    case ExchangeVersusDatabase => 0
    case ExchangeVersusTarget => 1
    case DatabaseVersusTarget => 2
  }

  lemma DifferenceSaysIt(b: Books, s: string, tolerance: real, threshold: real)
    requires FurtherThan(b, s, tolerance)
    ensures SaysIt(b, DifferenceAt(b, s, tolerance, threshold), tolerance, threshold)
  {
  }

  /** MATCHED, with severity OK, exactly when for every symbol all three quantities are pairwise
      within the tolerance. */
  lemma MatchedIff(b: Books, tolerance: real, threshold: real)
    requires tolerance >= 0.0
    ensures Reconcile(b, tolerance, threshold).status == Matched <==> forall s: string :: !FurtherThan(b, s, tolerance)
    ensures Reconcile(b, tolerance, threshold).severity == Ok <==> forall s: string :: !FurtherThan(b, s, tolerance)
  {
    DifferencesSayIt(b, tolerance, threshold);
    var ds := Reconcile(b, tolerance, threshold).differences;
    if ds != [] { assert FurtherThan(b, ds[0].symbol, tolerance); }
  }

  /** A CRITICAL difference is one with a pair of quantities at the threshold or beyond. */
  lemma CriticalEntry(b: Books, tolerance: real, threshold: real)
    requires tolerance >= 0.0
    ensures var ds := Reconcile(b, tolerance, threshold).differences;
            forall i :: 0 <= i < |ds| ==> (ds[i].severity == Critical <==> AtLeast(b, ds[i].symbol, threshold))
  {
    DifferencesSayIt(b, tolerance, threshold);
  }

  /** CRITICAL exactly when some symbol has a pair of quantities more than the tolerance apart and
      a pair at the threshold or beyond. */
  lemma CriticalIff(b: Books, tolerance: real, threshold: real)
    requires tolerance >= 0.0
    ensures Reconcile(b, tolerance, threshold).severity == Critical <==>
      exists s: string :: FurtherThan(b, s, tolerance) && AtLeast(b, s, threshold)
  {
    var ds := Reconcile(b, tolerance, threshold).differences;
    CriticalEntry(b, tolerance, threshold);
    assert Reconcile(b, tolerance, threshold).severity == Critical <==> AnyCritical(ds);
    if AnyCritical(ds) {
      var i :| 0 <= i < |ds| && ds[i].severity == Critical;
      ListedDifference(b, tolerance, threshold, i);
      DriftIsGap(b, ds[i].symbol, tolerance);
    }
    if s: string :| FurtherThan(b, s, tolerance) && AtLeast(b, s, threshold) {
      DriftIsGap(b, s, tolerance);
      var i := ListedAt(b, tolerance, threshold, s);
      assert ds[i].symbol == s;
    }
  }

  /** One snapshot is worth its own quantity under its upper-cased symbol, and lists add up. */
  lemma BooksAddUp(s: Snapshot, a: seq<Snapshot>, c: seq<Snapshot>, symbol: string)
    ensures Qty(Merged([s]), symbol) == if Upper(s.symbol) == symbol then s.quantity else 0.0
    ensures Qty(Merged(a + c), symbol) == Qty(Merged(a), symbol) + Qty(Merged(c), symbol)
    ensures symbol in Merged(a) <==> exists i :: 0 <= i < |a| && Upper(a[i].symbol) == symbol
  {
    assert [s][..0] == [];
    MergedQuantity([s], symbol);
    MergedQuantity(a + c, symbol);
    MergedQuantity(a, symbol);
    MergedQuantity(c, symbol);
    TotalOfConcat(a, c, symbol);
    if symbol in Merged(a) {
      var x :| x in a && Upper(x.symbol) == symbol;
      var i :| 0 <= i < |a| && a[i] == x;
    }
    if i :| 0 <= i < |a| && Upper(a[i].symbol) == symbol { assert a[i] in a; }
  }

  ghost predicate SameQuantities(b: Books, c: Books) {
    forall s: string :: Qty(b.exchange, s) == Qty(c.exchange, s) && Qty(b.database, s) == Qty(c.database, s)
                        && Qty(b.target, s) == Qty(c.target, s)
  }

  /** The report depends only on the quantities, not on which zero rows are listed. */
  lemma ReportIsCanonical(b: Books, c: Books, tolerance: real, threshold: real)
    requires tolerance >= 0.0 && SameQuantities(b, c)
    ensures Reconcile(b, tolerance, threshold) == Reconcile(c, tolerance, threshold)
  {
    ReportSymbols(b, tolerance, threshold);
    ReportSymbols(c, tolerance, threshold);
    var ds, ds' := Reconcile(b, tolerance, threshold).differences, Reconcile(c, tolerance, threshold).differences;
    SortedUnique(SymbolsOf(ds), SymbolsOf(ds'));
    assert |ds| == |SymbolsOf(ds)| && |ds'| == |SymbolsOf(ds')|;
    forall i | 0 <= i < |ds| ensures ds[i] == ds'[i] {
      assert SymbolsOf(ds)[i] == SymbolsOf(ds')[i];
    }
    assert ds == ds';
  }

  datatype Snapshots = Snapshots(exchange: seq<Snapshot>, database: seq<Snapshot>, target: seq<Snapshot>)

  function MergedBooks(s: Snapshots): Books {
    Books(Merged(s.exchange), Merged(s.database), Merged(s.target))
  }

  ghost predicate SameTotals(a: seq<Snapshot>, b: seq<Snapshot>) {
    forall symbol: string :: Total(a, symbol) == Total(b, symbol)
  }

  lemma SameTotalsSameReport(s: Snapshots, s': Snapshots, tolerance: real, threshold: real)
    requires tolerance >= 0.0
    requires SameTotals(s.exchange, s'.exchange) && SameTotals(s.database, s'.database) &&
        SameTotals(s.target, s'.target)
    ensures Reconcile(MergedBooks(s), tolerance, threshold) == Reconcile(MergedBooks(s'), tolerance, threshold)
  {
    var b, c := MergedBooks(s), MergedBooks(s');
    forall x: string
      ensures Qty(b.exchange, x) == Qty(c.exchange, x) && Qty(b.database, x) == Qty(c.database, x)
              && Qty(b.target, x) == Qty(c.target, x)
    {
      MergedQuantity(s.exchange, x); MergedQuantity(s'.exchange, x);
      MergedQuantity(s.database, x); MergedQuantity(s'.database, x);
      MergedQuantity(s.target, x); MergedQuantity(s'.target, x);
    }
    ReportIsCanonical(b, c, tolerance, threshold);
  }

  /** Permuting the snapshots of any side changes nothing. */
  lemma PermutationKeepsReport(s: Snapshots, s': Snapshots, tolerance: real, threshold: real)
    requires tolerance >= 0.0
    requires multiset(s.exchange) == multiset(s'.exchange) && multiset(s.database) == multiset(s'.database)
             && multiset(s.target) == multiset(s'.target)
    ensures Reconcile(MergedBooks(s), tolerance, threshold) == Reconcile(MergedBooks(s'), tolerance, threshold)
  {
    forall x: string
      ensures Total(s.exchange, x) == Total(s'.exchange, x) && Total(s.database, x) == Total(s'.database, x)
              && Total(s.target, x) == Total(s'.target, x)
    {
      PermutedTotals(s.exchange, s'.exchange, x);
      PermutedTotals(s.database, s'.database, x);
      PermutedTotals(s.target, s'.target, x);
    }
    SameTotalsSameReport(s, s', tolerance, threshold);
  }

  /** The parts add up to one snapshot, under any spelling of its symbol. */
  ghost predicate PartsOf(parts: seq<Snapshot>, whole: Snapshot) {
    && (forall p :: p in parts ==> Upper(p.symbol) == Upper(whole.symbol))
    && Total(parts, Upper(whole.symbol)) == whole.quantity
  }

  ghost predicate SplitOf(whole: seq<Snapshot>, split: seq<Snapshot>) {
    exists i: nat, parts: seq<Snapshot> ::
      i < |whole| && PartsOf(parts, whole[i]) && split == whole[..i] + parts + whole[i + 1..]
  }

  lemma SplitKeepsTotals(whole: seq<Snapshot>, split: seq<Snapshot>)
    requires SplitOf(whole, split)
    ensures SameTotals(whole, split)
  {
    var i: nat, parts: seq<Snapshot> :|
      i < |whole| && PartsOf(parts, whole[i]) && split == whole[..i] + parts + whole[i + 1..];
    forall x: string ensures Total(whole, x) == Total(split, x) {
      assert whole == whole[..i] + [whole[i]] + whole[i + 1..];
      TotalOfConcat(whole[..i] + parts, whole[i + 1..], x);
      TotalOfConcat(whole[..i], parts, x);
      TotalOfConcat(whole[..i] + [whole[i]], whole[i + 1..], x);
      TotalOfConcat(whole[..i], [whole[i]], x);
      assert [whole[i]][..0] == [];
      if x != Upper(whole[i].symbol) {
        TotalOfAbsent(parts, x);
      }
    }
  }

  /** So does splitting a snapshot of any side into parts of the same symbol. */
  lemma SplitKeepsReport(s: Snapshots, s': Snapshots, tolerance: real, threshold: real)
    requires tolerance >= 0.0
    requires s'.exchange == s.exchange || SplitOf(s.exchange, s'.exchange)
    requires s'.database == s.database || SplitOf(s.database, s'.database)
    requires s'.target == s.target || SplitOf(s.target, s'.target)
    ensures Reconcile(MergedBooks(s), tolerance, threshold) == Reconcile(MergedBooks(s'), tolerance, threshold)
  {
    if s'.exchange != s.exchange { SplitKeepsTotals(s.exchange, s'.exchange); }
    if s'.database != s.database { SplitKeepsTotals(s.database, s'.database); }
    if s'.target != s.target { SplitKeepsTotals(s.target, s'.target); }
    SameTotalsSameReport(s, s', tolerance, threshold);
  }

  // ---- the service call -------------------------------------------------------------------------------

  method SortSymbols(s: set<string>) returns (l: seq<string>)
    ensures l == SortedSymbols(s)
  {
    l := [];
    var rest := s;
    while rest != {}
      invariant rest <= s && forall x :: x in s <==> x in l || x in rest
      invariant Sorted(l) && forall i, x :: 0 <= i < |l| && x in rest ==> Before(l[i], x)
    {
      var m :| m in rest;
      var todo := rest - {m};
      while todo != {}
        invariant m in rest && todo <= rest && m !in todo
        invariant forall x :: x in rest && x !in todo && x != m ==> Before(m, x)
      {
        var x :| x in todo;
        BeforeIsTotal(x, m);
        if Before(x, m) {
          forall y | y in rest && y !in todo && y != m ensures Before(x, y) { BeforeTransitive(x, m, y); }
          m := x;
        }
        todo := todo - {x};
      }
      l, rest := l + [m], rest - {m};
    }
    SortedUnique(l, SortedSymbols(s));
  }

  /** reconcile_position_snapshots */
  method ReconcileSnapshots(s: Snapshots, tolerance: real, threshold: real) returns (r: Report)
    ensures r == Reconcile(MergedBooks(s), tolerance, threshold)
  {
    var exchange := NormalizeSnapshots(s.exchange);
    var database := NormalizeSnapshots(s.database);
    var target := NormalizeSnapshots(s.target);
    var symbols := SortSymbols(exchange.Keys + database.Keys + target.Keys);
    r := ReportOf(DriftedAmong(Books(exchange, database, target), symbols, tolerance, threshold));
  }
}
