/** The limiter from the callers' side: who is let through, and that nobody is refused for what
    another account does beyond the limits all accounts share. */
module Admission {
  import opened Common
  import opened OrderStateMachine
  import opened RateLimit
  import opened RateLimitRedis

  // ---- counts and recent times -----------------------------------------------------------

  function CountFrom(times: seq<real>, lo: real): nat {
    if times == [] then 0 else CountFrom(times[..|times| - 1], lo) + (if times[|times| - 1] >= lo then 1 else 0)
  }

  function CountAfter(times: seq<real>, lo: real): nat {
    if times == [] then 0 else CountAfter(times[..|times| - 1], lo) + (if times[|times| - 1] > lo then 1 else 0)
  }

  lemma {:induction false} FromWithinAfter(times: seq<real>, lo: real, earlier: real)
    requires earlier < lo
    ensures CountFrom(times, lo) <= CountAfter(times, earlier)
  {
    if times != [] { FromWithinAfter(times[..|times| - 1], lo, earlier); }
  }

  /** A window counts only acquires since it was opened. */
  lemma {:induction false} WindowCountsSinceOpened(times: seq<real>, interval: nat)
    requires NonDecreasing(times) && times != [] && interval > 0
    ensures var w := WindowAfter(times, interval).value; w.count <= CountFrom(times, w.startedAt)
  {
    var n := |times| - 1;
    LastWindow(times, 0, interval, 0.0, 0.0);
    if n > 0 { WindowCountsSinceOpened(times[..n], interval); }
  }

  /** So the next acquire counts at most itself and those of the last interval. */
  lemma NextCountIsRecent(times: seq<real>, interval: nat, now: real)
    requires NonDecreasing(times) && interval > 0
    ensures Acquired(WindowAfter(times, interval), interval, now).count <= 1 + CountAfter(times, now - interval as real)
  {
    if times != [] {
      var w := WindowAfter(times, interval).value;
      WindowCountsSinceOpened(times, interval);
      if now - w.startedAt < interval as real { FromWithinAfter(times, w.startedAt, now - interval as real); }
    }
  }

  // ---- from acquires to calls ---------------------------------------------------------------

  /** Which calls used a counter after a time. */
  function UsedAfter(calls: seq<OrderCall>, x: Exchange, j: nat, k: Key, lo: real): seq<bool> {
    seq(|calls|, i requires 0 <= i < |calls| => Uses(calls[i], x, j, k) && calls[i].now > lo)
  }

  lemma CountAfterPush(times: seq<real>, t: real, lo: real)
    ensures CountAfter(times + [t], lo) == CountAfter(times, lo) + (if t > lo then 1 else 0)
  {
    assert (times + [t])[..|times|] == times;
  }

  /** One more call charges the counter at most once, and only if it uses it. */
  lemma ChargedAtMostOnce(calls: seq<OrderCall>, x: Exchange, j: nat, k: Key, lo: real)
    requires calls != []
    ensures var n := |calls| - 1;
            CountAfter(TimesAt(calls, x, j, k), lo)
              <= CountAfter(TimesAt(calls[..n], x, j, k), lo)
                 + (if Uses(calls[n], x, j, k) && calls[n].now > lo then 1 else 0)
  {
    var n := |calls| - 1;
    var times := TimesAt(calls[..n], x, j, k);
    CountAfterPush(times, calls[n].now, lo);
    assert times + [] == times;
  }

  lemma UsedPush(calls: seq<OrderCall>, x: Exchange, j: nat, k: Key, lo: real)
    requires calls != []
    ensures var n := |calls| - 1;
            Trues(UsedAfter(calls, x, j, k, lo))
              == Trues(UsedAfter(calls[..n], x, j, k, lo))
                 + (if Uses(calls[n], x, j, k) && calls[n].now > lo then 1 else 0)
  {
    var n := |calls| - 1;
    assert UsedAfter(calls, x, j, k, lo)[..n] == UsedAfter(calls[..n], x, j, k, lo);
  }

  lemma {:induction false} ChargesAreCalls(calls: seq<OrderCall>, x: Exchange, j: nat, k: Key, lo: real)
    ensures CountAfter(TimesAt(calls, x, j, k), lo) <= Trues(UsedAfter(calls, x, j, k, lo))
  {
    if calls != [] {
      ChargesAreCalls(calls[..|calls| - 1], x, j, k, lo);
      ChargedAtMostOnce(calls, x, j, k, lo);
      UsedPush(calls, x, j, k, lo);
    }
  }

  lemma {:induction false} NoTrues(a: seq<bool>)
    requires forall i :: 0 <= i < |a| ==> !a[i]
    ensures Trues(a) == 0
  {
    if a != [] { NoTrues(a[..|a| - 1]); }
  }

  // ---- one order ------------------------------------------------------------------------------

  predicate RulePasses(ws: Windows, c: OrderCall, j: nat)
    requires j < |OrderRules(c.exchange)|
  {
    var rule := OrderRules(c.exchange)[j];
    Acquired(Lookup(ws, Keys(c)[j]), rule.interval, c.now).count <= rule.limit
  }

  lemma {:induction false} AllRulesPass(ws: Windows, c: OrderCall, i: nat)
    requires i <= |OrderRules(c.exchange)|
    requires forall j :: i <= j < |OrderRules(c.exchange)| ==> RulePasses(ws, c, j)
    ensures AcquireFrom(ws, c, i).blockedBy.None?
    decreases |OrderRules(c.exchange)| - i
  {
    if i < |OrderRules(c.exchange)| {
      assert RulePasses(ws, c, i);
      var w := Acquired(Lookup(ws, Keys(c)[i]), OrderRules(c.exchange)[i].interval, c.now);
      var ws' := ws[Keys(c)[i] := w];
      forall j | i + 1 <= j < |OrderRules(c.exchange)| ensures RulePasses(ws', c, j) {
        assert RulePasses(ws, c, j) && Keys(c)[j] != Keys(c)[i];
      }
      AllRulesPass(ws', c, i + 1);
    }
  }

  /** The count a counter would answer next, however many calls of others lie in between. */
  lemma NextCount(calls: seq<OrderCall>, x: Exchange, j: nat, k: Key, now: real)
    requires ClockRuns(calls) && IsCounter(x, j, k)
    ensures var interval := OrderRules(x)[j].interval;
            Acquired(Lookup(WindowsAfter(calls), k), interval, now).count
              <= 1 + Trues(UsedAfter(calls, x, j, k, now - interval as real))
  {
    var interval, times := OrderRules(x)[j].interval, TimesAt(calls, x, j, k);
    CounterIsolated(calls, x, j, k);
    TimesFollowClock(calls, x, j, k);
    NextCountIsRecent(times, interval, now);
    ChargesAreCalls(calls, x, j, k, now - interval as real);
  }

  /** Orders on one path of an exchange, of whatever account, placed after a time. */
  function PlacedAfter(calls: seq<OrderCall>, x: Exchange, path: string, lo: real): seq<bool> {
    seq(|calls|, i requires 0 <= i < |calls| => calls[i].exchange == x && calls[i].path == path && calls[i].now > lo)
  }

  /** Fewer orders than the exchange's own limit were placed on the path within its interval:
      300000 in 300 seconds on Binance, 600 in 5 seconds on Bybit, any number elsewhere. */
  predicate ExchangeIsQuiet(calls: seq<OrderCall>, c: OrderCall) {
    match c.exchange
    case Binance => Trues(PlacedAfter(calls, Binance, c.path, c.now - 300.0)) < 300_000
    case Bybit => Trues(PlacedAfter(calls, Bybit, c.path, c.now - 5.0)) < 600
    case _ => true
  }

  /** The account placed no order on the same path of the exchange within the last second. */
  predicate AccountIsQuiet(calls: seq<OrderCall>, c: OrderCall) {
    forall d :: d in calls && d.exchange == c.exchange && d.account == c.account && d.path == c.path ==>
      d.now <= c.now - 1.0
  }

  /** Account ids are UUIDs; all that matters here is that none holds the separator. */
  predicate PlainAccounts(calls: seq<OrderCall>) {
    forall d :: d in calls ==> ':' !in d.account
  }

  lemma OwnAccountsKey(c: OrderCall, d: OrderCall)
    requires ':' !in c.account && ':' !in d.account && Uses(d, c.exchange, 0, Keys(c)[0])
    ensures d.exchange == c.exchange && d.account == c.account && d.path == c.path
  {
    assert Keys(c)[0].2 == c.account + ":" + c.path && Keys(d)[0].2 == d.account + ":" + d.path;
    assert c.account + [':'] + c.path == d.account + [':'] + d.path;
    SplitUnique(':', c.account, c.path, d.account, d.path);
  }

  lemma NoneOfTheAccount(calls: seq<OrderCall>, c: OrderCall)
    requires PlainAccounts(calls) && ':' !in c.account && AccountIsQuiet(calls, c)
    ensures Trues(UsedAfter(calls, c.exchange, 0, Keys(c)[0], c.now - 1.0)) == 0
  {
    var k := Keys(c)[0];
    var used := UsedAfter(calls, c.exchange, 0, k, c.now - 1.0);
    forall i | 0 <= i < |used| ensures !used[i] {
      assert calls[i] in calls;
      if Uses(calls[i], c.exchange, 0, k) { OwnAccountsKey(c, calls[i]); }
    }
    NoTrues(used);
  }

  /** The account rule never blocks such an order, whatever other accounts did. */
  lemma AccountRulePasses(calls: seq<OrderCall>, c: OrderCall)
    requires ClockRuns(calls) && PlainAccounts(calls) && ':' !in c.account && AccountIsQuiet(calls, c)
    ensures RulePasses(WindowsAfter(calls), c, 0)
  {
    NoneOfTheAccount(calls, c);
    NextCount(calls, c.exchange, 0, Keys(c)[0], c.now);
  }

  lemma SharedKey(c: OrderCall, d: OrderCall)
    requires (c.exchange == Binance || c.exchange == Bybit) && d.exchange == c.exchange
    ensures Keys(c)[1] == (ExchangeName(c.exchange), OrderRules(c.exchange)[1].name, "global" + ":" + c.path)
    ensures Keys(d)[1] == Keys(c)[1] <==> d.path == c.path
  {
    var a, b := "global" + ":" + c.path, "global" + ":" + d.path;
    assert a[7..] == c.path && b[7..] == d.path;
  }

  lemma UsedIsPlaced(calls: seq<OrderCall>, c: OrderCall, lo: real)
    requires c.exchange == Binance || c.exchange == Bybit
    ensures UsedAfter(calls, c.exchange, 1, Keys(c)[1], lo) == PlacedAfter(calls, c.exchange, c.path, lo)
  {
    forall i | 0 <= i < |calls| && calls[i].exchange == c.exchange
      ensures Keys(calls[i])[1] == Keys(c)[1] <==> calls[i].path == c.path
    {
      SharedKey(c, calls[i]);
    }
  }

  lemma ExchangeRulePasses(calls: seq<OrderCall>, c: OrderCall)
    requires ClockRuns(calls) && ExchangeIsQuiet(calls, c) && (c.exchange == Binance || c.exchange == Bybit)
    ensures RulePasses(WindowsAfter(calls), c, 1)
  {
    NextCount(calls, c.exchange, 1, Keys(c)[1], c.now);
    UsedIsPlaced(calls, c, c.now - OrderRules(c.exchange)[1].interval as real);
  }

  /** An order is admitted if its own account placed none on the path within the last second and
      the exchange is quiet there: what other accounts do counts only for the latter. */
  lemma QuietOrderAdmitted(calls: seq<OrderCall>, c: OrderCall)
    requires ClockRuns(calls) && PlainAccounts(calls) && ':' !in c.account
    requires AccountIsQuiet(calls, c) && ExchangeIsQuiet(calls, c)
    ensures AcquireFrom(WindowsAfter(calls), c, 0).blockedBy.None?
  {
    AccountRulePasses(calls, c);
    if c.exchange == Binance || c.exchange == Bybit { ExchangeRulePasses(calls, c); }
    AllRulesPass(WindowsAfter(calls), c, 0);
  }

  /** On Redis just the same. */
  lemma QuietOrderAdmittedOnRedis(calls: seq<OrderCall>, c: OrderCall)
    requires ClockRuns(calls) && AllRegular(calls) && Regular(c)
    requires AccountIsQuiet(calls, c) && ExchangeIsQuiet(calls, c)
    ensures RedisAcquireFrom(RedisAfter(calls), c, 0, NoneLost).blockedBy.None?
  {
    StoresAgreeAfter(calls);
    RedisAcquireAgrees(WindowsAfter(calls), RedisAfter(calls), c, 0);
    forall d | d in calls ensures ':' !in d.account { assert Regular(d); }
    QuietOrderAdmitted(calls, c);
  }

  // ---- all accounts together ----------------------------------------------------------------------

  /** Orders on one path of an exchange admitted in [lo, hi), of whatever account. */
  function AdmittedOn(calls: seq<OrderCall>, x: Exchange, path: string, lo: real, hi: real): nat {
    Trues(seq(|calls|, i requires 0 <= i < |calls| =>
      calls[i].exchange == x && calls[i].path == path && AdmittedAt(calls, i) && lo <= calls[i].now < hi))
  }

  /** They are those admitted through the one counter the accounts share. */
  lemma SharedCounter(calls: seq<OrderCall>, c: OrderCall, lo: real, hi: real)
    requires c.exchange == Binance || c.exchange == Bybit
    ensures AdmittedOn(calls, c.exchange, c.path, lo, hi) == AdmittedIn(calls, c.exchange, 1, Keys(c)[1], lo, hi)
  {
    var x, k := c.exchange, Keys(c)[1];
    forall i | 0 <= i < |calls| ensures Uses(calls[i], x, 1, k) <==> calls[i].exchange == x && calls[i].path == c.path {
      if calls[i].exchange == x { SharedKey(c, calls[i]); }
    }
    assert seq(|calls|, i requires 0 <= i < |calls| =>
        calls[i].exchange == x && calls[i].path == c.path && AdmittedAt(calls, i) && lo <= calls[i].now < hi)
      == AdmittedFlags(calls, x, 1, k, lo, hi);
  }

  /** The exchange rules bound all accounts together: below 600000 orders on a path in any 300
      seconds on Binance, below 1200 in any 5 on Bybit. */
  lemma AllAccountsBounded(calls: seq<OrderCall>, path: string, lo: real)
    requires ClockRuns(calls)
    ensures AdmittedOn(calls, Binance, path, lo, lo + 300.0) <= 599_999
    ensures AdmittedOn(calls, Bybit, path, lo, lo + 5.0) <= 1_199
  {
    var b, y := OrderCall(Binance, "", path, lo), OrderCall(Bybit, "", path, lo);
    SharedCounter(calls, b, lo, lo + 300.0);
    AdmittedOrdersBounded(calls, Binance, 1, Keys(b)[1], lo);
    SharedCounter(calls, y, lo, lo + 5.0);
    AdmittedOrdersBounded(calls, Bybit, 1, Keys(y)[1], lo);
  }
}
