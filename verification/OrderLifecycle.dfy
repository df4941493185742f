/** Exchange order events applied to stored executions: matching a row, ignoring
    duplicates and stale events, and converging under out-of-order redelivery. */
module OrderLifecycle {
  import opened Common
  import opened OrderStateMachine

  /** The statuses an exchange can report. */
  type ExchangeStatus = s: Status | Rank(s) >= Rank(Submitted) && s != Failed witness Accepted

  /** A normalised stream or REST event; blank identifiers are None. */
  datatype OrderEvent = OrderEvent(
    exchange: Exchange, clientOrderId: Option<string>, exchangeOrderId: Option<string>, status: ExchangeStatus)

  datatype Handled =
    | NotFound
    | Duplicate(id: nat)
    | Stale(id: nat)
    | Transitioned(id: nat)

  datatype EventError = NoIdentifier

  /** The status tables of the three exchanges; stream and REST use the same ones. */
  function MappedStatus(exchange: Exchange, raw: string): Option<ExchangeStatus> {
    match exchange
    case Binance =>
      if raw == "NEW" then Some(Accepted)
      else if raw == "PENDING_NEW" then Some(Submitted)
      else if raw == "PARTIALLY_FILLED" then Some(PartiallyFilled)
      else if raw == "FILLED" then Some(Filled)
      else if raw == "CANCELED" then Some(Cancelled)
      else if raw == "REJECTED" then Some(Rejected)
      else if raw == "EXPIRED" || raw == "EXPIRED_IN_MATCH" then Some(TimedOut)
      else None
    case Bybit =>
      if raw == "New" then Some(Accepted)
      else if raw == "PartiallyFilled" then Some(PartiallyFilled)
      else if raw == "Filled" then Some(Filled)
      else if raw == "Cancelled" || raw == "Deactivated" then Some(Cancelled)
      else if raw == "Rejected" then Some(Rejected)
      else None
    case Okx =>
      if raw == "live" then Some(Accepted)
      else if raw == "partially_filled" then Some(PartiallyFilled)
      else if raw == "filled" then Some(Filled)
      else if raw == "canceled" || raw == "mmp_canceled" then Some(Cancelled)
      else None
    case Mock => None
  }

  /** The WHERE clause of the row lookup: tenant, account, exchange and either identifier. */
  predicate Matches(e: Execution, user: nat, account: nat, ev: OrderEvent) {
    && e.owner == user && e.account == account && e.exchange == ev.exchange
    && (|| (ev.clientOrderId.Some? && e.clientOrderId == ev.clientOrderId.value)
        || (ev.exchangeOrderId.Some? && e.exchangeOrderId == ev.exchangeOrderId))
  }

  /** The query has no ORDER BY: `hint` stands for the row the database hands back first,
      and counts only if it matches. */
  function FindExecution(es: seq<Execution>, user: nat, account: nat, ev: OrderEvent, hint: nat): (r: Option<nat>)
    ensures r.Some? ==> r.value < |es| && Matches(es[r.value], user, account, ev)
    ensures r.None? ==> forall j :: 0 <= j < |es| ==> !Matches(es[j], user, account, ev)
  {
    if hint < |es| && Matches(es[hint], user, account, ev) then Some(hint)
    else FirstIndex(es, e => Matches(e, user, account, ev))
  }

  datatype Applied = Applied(orders: Orders, result: Result<Handled, EventError>)

  /** What one event does to the stored orders. */
  function ApplyEvent(o: Orders, user: nat, account: nat, ev: OrderEvent, hint: nat): Applied {
    if ev.clientOrderId.None? && ev.exchangeOrderId.None? then Applied(o, Err(NoIdentifier))
    else
      var found := FindExecution(o.executions, user, account, ev, hint);
      if found.None? then Applied(o, Ok(NotFound))
      else
        var id := found.value;
        var e := o.executions[id];
        if e.status == ev.status then Applied(o, Ok(Duplicate(id)))
        else if ev.status !in Allowed(e.status) then Applied(o, Ok(Stale(id)))
        else
          var name := if e.exchangeOrderId.None? then ev.exchangeOrderId else None;
          Applied(o.Advance(id, ev.status, name), Ok(Transitioned(id)))
  }

  /** TestnetOrderLifecycleProcessor.apply on a live session. */
  method Apply(db: OrderSession, user: nat, account: nat, ev: OrderEvent, hint: nat)
      returns (r: Result<Handled, EventError>)
    requires db.State().Clean()
    modifies db
    ensures db.State().Clean()
    ensures db.State().Now() == ApplyEvent(old(db.State().Now()), user, account, ev, hint).orders
    ensures r == ApplyEvent(old(db.State().Now()), user, account, ev, hint).result
  {
    if ev.clientOrderId.None? && ev.exchangeOrderId.None? { return Err(NoIdentifier); }
    var found := FindExecution(db.executions, user, account, ev, hint);
    if found.None? { return Ok(NotFound); }
    var id := found.value;
    if db.executions[id].status == ev.status { return Ok(Duplicate(id)); }
    var ok := db.TransitionExecution(id, ev.status);
    if !ok { return Ok(Stale(id)); }
    if ev.exchangeOrderId.Some? && db.executions[id].exchangeOrderId.None? {
      db.NameExchangeOrder(id, ev.exchangeOrderId.value);
    }
    CommitIsDurable(db.State());
    db.CommitRows();
    return Ok(Transitioned(id));
  }

  /** What an event with status `x` does to a matched row in status `s`. */
  function ApplyStatus(s: Status, x: Status): Status {
    if x in Allowed(s) then x else s
  }

  function Final(s: Status, xs: seq<Status>): Status
    decreases |xs|
  {
    if xs == [] then s else Final(ApplyStatus(s, xs[0]), xs[1..])
  }

  /** REJECTED is not reachable from PARTIALLY_FILLED, so it never counts from there. */
  predicate Counts(start: Status, x: Status) {
    start != PartiallyFilled || x != Rejected
  }

  /** Two different terminal statuses, both of which count. */
  predicate Clash(start: Status, x: Status, y: Status) {
    Terminal(x) && Terminal(y) && Counts(start, x) && Counts(start, y) && x != y
  }

  /** At most one terminal status that counts, and no REJECTED beside a partial fill. */
  predicate Compatible(start: Status, xs: seq<Status>) {
    && (forall x, y :: x in xs && y in xs ==> !Clash(start, x, y))
    && (start == PartiallyFilled || Rejected !in xs || PartiallyFilled !in xs)
  }

  /** `r` is among the start and the statuses that count, and none of those ranks higher. */
  ghost predicate IsHighest(start: Status, xs: seq<Status>, r: Status) {
    && (r == start || (r in xs && Counts(start, r)))
    && Rank(start) <= Rank(r)
    && (forall x :: x in xs && Counts(start, x) ==> Rank(x) <= Rank(r))
  }

  lemma {:induction false} TerminalIsFinal(s: Status, xs: seq<Status>)
    requires Terminal(s)
    ensures Final(s, xs) == s
    decreases |xs|
  {
    if xs != [] {
      TerminalIsFinal(s, xs[1..]);
    }
  }

  lemma {:induction false} CompatibleReachesHighest(start: Status, xs: seq<Status>)
    requires Rank(start) >= Rank(Submitted) && Compatible(start, xs)
    ensures IsHighest(start, xs, Final(start, xs))
    decreases |xs|
  {
    if Terminal(start) {
      TerminalIsFinal(start, xs);
    } else if xs != [] {
      var next, rest := ApplyStatus(start, xs[0]), xs[1..];
      assert forall x :: x in xs <==> x == xs[0] || x in rest;
      if Terminal(next) {
        TerminalIsFinal(next, rest);
      } else {
        CompatibleAfterOne(start, xs);
        CompatibleReachesHighest(next, rest);
        HighestAfterOne(start, xs, Final(next, rest));
      }
    }
  }

  lemma CompatibleAfterOne(start: Status, xs: seq<Status>)
    requires Rank(start) >= Rank(Submitted) && Compatible(start, xs) && xs != []
    requires !Terminal(ApplyStatus(start, xs[0]))
    ensures Compatible(ApplyStatus(start, xs[0]), xs[1..])
  {
    assert forall x :: x in xs <==> x == xs[0] || x in xs[1..];
  }

  lemma HighestAfterOne(start: Status, xs: seq<Status>, r: Status)
    requires Rank(start) >= Rank(Submitted) && !Terminal(start) && Compatible(start, xs) && xs != []
    requires var next := ApplyStatus(start, xs[0]); !Terminal(next) && IsHighest(next, xs[1..], r)
    ensures IsHighest(start, xs, r)
  {
    assert forall x :: x in xs <==> x == xs[0] || x in xs[1..];
  }

  /** Late, duplicated and reordered delivery: the same set of statuses ends the same way,
      in the highest-ranked status among them and the start. */
  lemma DeliveryOrderIrrelevant(start: Status, xs: seq<Status>, ys: seq<Status>)
    requires Rank(start) >= Rank(Submitted) && Compatible(start, xs)
    requires forall x :: x in xs <==> x in ys
    ensures Final(start, ys) == Final(start, xs) && IsHighest(start, xs, Final(start, ys))
  {
    CompatibleReachesHighest(start, xs);
    CompatibleReachesHighest(start, ys);
    if Terminal(start) {
      TerminalIsFinal(start, xs);
      TerminalIsFinal(start, ys);
    }
  }

  ghost predicate OrderIndependent(start: Status, xs: seq<Status>) {
    forall ys: seq<Status> :: multiset(ys) == multiset(xs) ==> Final(start, ys) == Final(start, xs)
  }

  /** Delivering a reachable terminal status first settles the row there. */
  lemma TerminalFirst(start: Status, xs: seq<Status>, i: nat)
    requires i < |xs| && Terminal(xs[i]) && xs[i] in Allowed(start)
    ensures multiset(MovedFirst(xs, i)) == multiset(xs) && Final(start, MovedFirst(xs, i)) == xs[i]
  {
    MovedFirstIsPermutation(xs, i);
    TerminalIsFinal(xs[i], MovedFirst(xs, i)[1..]);
  }

  lemma {:induction false} PartialFillExcludesRejected(xs: seq<Status>, s: Status)
    requires s == PartiallyFilled || (Terminal(s) && s != Rejected)
    ensures Final(s, xs) != Rejected
    decreases |xs|
  {
    if xs != [] {
      PartialFillExcludesRejected(xs[1..], ApplyStatus(s, xs[0]));
    }
  }

  lemma IncompatibleDependsOnOrder(start: Status, xs: seq<Status>)
    requires Rank(start) >= Rank(Submitted) && !Terminal(start) && !Compatible(start, xs)
    ensures !OrderIndependent(start, xs)
  {
    if x, y :| x in xs && y in xs && Clash(start, x, y) {
      var i :| 0 <= i < |xs| && xs[i] == x;
      var j :| 0 <= j < |xs| && xs[j] == y;
      TerminalFirst(start, xs, i);
      TerminalFirst(start, xs, j);
    } else {
      var r :| 0 <= r < |xs| && xs[r] == Rejected;
      var p :| 0 <= p < |xs| && xs[p] == PartiallyFilled;
      TerminalFirst(start, xs, r);
      MovedFirstIsPermutation(xs, p);
      PartialFillExcludesRejected(MovedFirst(xs, p)[1..], PartiallyFilled);
      assert Final(start, MovedFirst(xs, p)) != Final(start, MovedFirst(xs, r));
    }
  }

  /** Exactly when delivery order cannot matter to a row that is waiting on the exchange. */
  lemma OrderIndependentIffCompatible(start: Status, xs: seq<Status>)
    requires Rank(start) >= Rank(Submitted) && !Terminal(start)
    ensures OrderIndependent(start, xs) <==> Compatible(start, xs)
  {
    if Compatible(start, xs) {
      forall ys: seq<Status> | multiset(ys) == multiset(xs) ensures Final(start, ys) == Final(start, xs) {
        PermutationKeepsMembers(ys, xs);
        DeliveryOrderIrrelevant(start, xs, ys);
      }
    } else {
      IncompatibleDependsOnOrder(start, xs);
    }
  }

  /** The words with which an exchange reports a status. */
  function WordsFor(exchange: Exchange, s: Status): set<string> {
    match s
    case Submitted => if exchange == Binance then {"PENDING_NEW"} else {}
    case Accepted => Worded(exchange, {"NEW"}, {"New"}, {"live"})
    case PartiallyFilled => Worded(exchange, {"PARTIALLY_FILLED"}, {"PartiallyFilled"}, {"partially_filled"})
    case Filled => Worded(exchange, {"FILLED"}, {"Filled"}, {"filled"})
    case Cancelled =>
      Worded(exchange, {"CANCELED"}, {"Cancelled", "Deactivated"}, {"canceled", "mmp_canceled"})
    case Rejected => Worded(exchange, {"REJECTED"}, {"Rejected"}, {})
    case TimedOut => if exchange == Binance then {"EXPIRED", "EXPIRED_IN_MATCH"} else {}
    case _ => {}
  }

  function Worded(exchange: Exchange, binance: set<string>, bybit: set<string>, okx: set<string>): set<string> {
    match exchange
    case Binance => binance
    case Bybit => bybit
    case Okx => okx
    case Mock => {}
  }

  /** No word is read as anything else, and no other word is known. */
  lemma MappedIffWorded(exchange: Exchange, raw: string, s: Status)
    ensures (MappedStatus(exchange, raw).Some? && MappedStatus(exchange, raw).value == s)
            <==> raw in WordsFor(exchange, s)
  {
  }

  /** The statuses the exchange's own words map to, all of them known. */
  ghost predicate MappedFrom(exchange: Exchange, words: seq<string>, xs: seq<Status>) {
    |words| == |xs| && forall i :: 0 <= i < |xs| ==> MappedStatus(exchange, words[i]) == Some(xs[i])
  }

  /** OKX reports neither REJECTED nor TIMEOUT, so there the order of events can matter only
      if an order is reported both filled and cancelled. */
  lemma OkxOrderMattersIff(start: Status, words: seq<string>, xs: seq<Status>)
    requires Rank(start) >= Rank(Submitted) && !Terminal(start) && MappedFrom(Okx, words, xs)
    ensures OrderIndependent(start, xs) <==> !(Filled in xs && Cancelled in xs)
  {
    forall x | x in xs ensures Terminal(x) ==> x == Filled || x == Cancelled {
      var i :| 0 <= i < |xs| && xs[i] == x;
      assert MappedStatus(Okx, words[i]) == Some(x);
    }
    if Filled in xs && Cancelled in xs {
      assert Clash(start, Filled, Cancelled);
    }
    OrderIndependentIffCompatible(start, xs);
  }
}
