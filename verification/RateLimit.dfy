/** The fixed-window limiter in front of testnet orders: its in-memory store, the sliding
    bound it implies, and the rules acquired one after another. Clocks are read as reals. */
module RateLimit {
  import opened Common
  import opened OrderStateMachine

  datatype Window = Window(startedAt: real, count: nat)

  /** _active_window followed by the increment. */
  function Acquired(w: Option<Window>, interval: nat, now: real): Window {
    if w.None? || now - w.value.startedAt >= interval as real then Window(now, 1)
    else w.value.(count := w.value.count + 1)
  }

  /** int(): truncation toward zero. */
  function Truncated(x: real): int {
    if x >= 0.0 then x.Floor else -((-x).Floor)
  }

  function RetryAfter(now: real, startedAt: real, interval: nat): int {
    var remaining := interval - Truncated(now - startedAt);
    if remaining >= 1 then remaining else 1
  }

  // ---- one counter ------------------------------------------------------------------

  /** The window one key is left with after acquires at the given times. */
  function WindowAfter(times: seq<real>, interval: nat): Option<Window> {
    if times == [] then None
    else Some(Acquired(WindowAfter(times[..|times| - 1], interval), interval, times[|times| - 1]))
  }

  /** The times of the acquires whose count was within the limit. */
  function Passes(times: seq<real>, limit: nat, interval: nat): seq<real> {
    if times == [] then []
    else
      Passes(times[..|times| - 1], limit, interval)
      + (if WindowAfter(times, interval).value.count <= limit then [times[|times| - 1]] else [])
  }

  function CountIn(times: seq<real>, lo: real, hi: real): nat {
    if times == [] then 0
    else CountIn(times[..|times| - 1], lo, hi) + (if lo <= times[|times| - 1] < hi then 1 else 0)
  }

  ghost predicate NonDecreasing(times: seq<real>) {
    forall i, j :: 0 <= i < j < |times| ==> times[i] <= times[j]
  }

  function Min(a: int, b: int): int { if a <= b then a else b }

  lemma CountOfPush(times: seq<real>, t: real, lo: real, hi: real)
    ensures CountIn(times + [t], lo, hi) == CountIn(times, lo, hi) + (if lo <= t < hi then 1 else 0)
  {
    assert (times + [t])[..|times|] == times;
  }

  lemma {:induction false} CountOfConcat(a: seq<real>, b: seq<real>, lo: real, hi: real)
    ensures CountIn(a + b, lo, hi) == CountIn(a, lo, hi) + CountIn(b, lo, hi)
  {
    if b == [] {
      assert a + b == a;
    } else {
      assert (a + b)[..|a + b| - 1] == a + b[..|b| - 1];
      CountOfConcat(a, b[..|b| - 1], lo, hi);
    }
  }

  /** One more acquire adds its time to the passes, or not. */
  lemma CountOfPasses(times: seq<real>, limit: nat, interval: nat, lo: real, hi: real)
    requires times != []
    ensures CountIn(Passes(times, limit, interval), lo, hi)
         == CountIn(Passes(times[..|times| - 1], limit, interval), lo, hi)
            + (if WindowAfter(times, interval).value.count <= limit && lo <= times[|times| - 1] < hi then 1 else 0)
  {
    var n := |times| - 1;
    var before := Passes(times[..n], limit, interval);
    CountOfPush(before, times[n], lo, hi);
    assert before + [] == before;
  }

  /** The last time lies in the last window, and nothing passed later than it. */
  lemma {:induction false} LastWindow(times: seq<real>, limit: nat, interval: nat, lo: real, hi: real)
    requires NonDecreasing(times) && times != [] && interval > 0
    ensures var w, last := WindowAfter(times, interval).value, times[|times| - 1];
            && w.count >= 1 && w.startedAt <= last < w.startedAt + interval as real
            && (lo > last ==> CountIn(Passes(times, limit, interval), lo, hi) == 0)
  {
    var n := |times| - 1;
    if n > 0 {
      LastWindow(times[..n], limit, interval, lo, hi);
    }
    CountOfPasses(times, limit, interval, lo, hi);
  }

  /** Passes from `lo` on, seen from the last window: within it, one fewer unless its opening
      is included; across the one before, at most `limit - 1` more. */
  lemma {:induction false} PassesFrom(times: seq<real>, limit: nat, interval: nat, lo: real, hi: real)
    requires NonDecreasing(times) && times != [] && limit > 0 && interval > 0
    requires hi >= lo + interval as real
    ensures var w := WindowAfter(times, interval).value;
            var passed := CountIn(Passes(times, limit, interval), lo, hi);
            && (lo > w.startedAt ==> passed <= Min(w.count, limit) - 1)
            && (lo == w.startedAt ==> passed <= Min(w.count, limit))
            && (w.startedAt - interval as real < lo <= w.startedAt ==> passed <= Min(w.count, limit) + limit - 1)
  {
    var n := |times| - 1;
    var before := times[..n];
    if n > 0 {
      LastWindow(before, limit, interval, lo, hi);
      PassesFrom(before, limit, interval, lo, hi);
    }
    LastWindow(times, limit, interval, lo, hi);
    CountOfPasses(times, limit, interval, lo, hi);
  }

  /** No half-open interval as long as the window sees more than 2 * limit - 1 passes. */
  lemma {:induction false} SlidingBound(times: seq<real>, limit: nat, interval: nat, lo: real)
    requires NonDecreasing(times) && interval > 0
    ensures CountIn(Passes(times, limit, interval), lo, lo + interval as real) <= (if limit == 0 then 0
        else 2 * limit - 1)
  {
    if times != [] {
      var n := |times| - 1;
      var hi := lo + interval as real;
      SlidingBound(times[..n], limit, interval, lo);
      LastWindow(times, limit, interval, lo, hi);
      CountOfPasses(times, limit, interval, lo, hi);
      if limit > 0 {
        PassesFrom(times, limit, interval, lo, hi);
      }
    }
  }

  function Repeated(t: real, k: nat): seq<real> { seq(k, _ => t) }

  lemma PushPasses(times: seq<real>, t: real, limit: nat, interval: nat)
    requires WindowAfter(times, interval).Some?
    requires var w := WindowAfter(times, interval).value; t - w.startedAt < interval as real && w.count < limit
    ensures var w := WindowAfter(times, interval).value;
            WindowAfter(times + [t], interval) == Some(w.(count := w.count + 1))
    ensures Passes(times + [t], limit, interval) == Passes(times, limit, interval) + [t]
  {
    assert (times + [t])[..|times|] == times;
  }

  lemma {:induction false} RepeatedPasses(times: seq<real>, t: real, k: nat, limit: nat, interval: nat)
    requires WindowAfter(times, interval).Some?
    requires var w := WindowAfter(times, interval).value;
             t - w.startedAt < interval as real && w.count + k <= limit
    ensures var w := WindowAfter(times, interval).value;
            && WindowAfter(times + Repeated(t, k), interval) == Some(w.(count := w.count + k))
            && Passes(times + Repeated(t, k), limit, interval) == Passes(times, limit, interval) + Repeated(t, k)
  {
    if k == 0 {
      assert times + Repeated(t, k) == times;
      assert Passes(times, limit, interval) + Repeated(t, k) == Passes(times, limit, interval);
    } else {
      var shorter := times + Repeated(t, k - 1);
      RepeatedPasses(times, t, k - 1, limit, interval);
      PushPasses(shorter, t, limit, interval);
      assert times + Repeated(t, k) == shorter + [t];
      assert Passes(times, limit, interval) + Repeated(t, k) ==
          Passes(times, limit, interval) + Repeated(t, k - 1) + [t];
    }
  }

  lemma {:induction false} CountOfRepeated(t: real, k: nat, lo: real, hi: real)
    ensures CountIn(Repeated(t, k), lo, hi) == if lo <= t < hi then k else 0
  {
    if k > 0 {
      assert Repeated(t, k)[..k - 1] == Repeated(t, k - 1);
      CountOfRepeated(t, k - 1, lo, hi);
    }
  }

  lemma OneWindowPasses(limit: nat, interval: nat, t: real)
    requires limit > 0 && 0.0 <= t < interval as real
    ensures WindowAfter([0.0] + Repeated(t, limit - 1), interval) == Some(Window(0.0, limit))
    ensures Passes([0.0] + Repeated(t, limit - 1), limit, interval) == [0.0] + Repeated(t, limit - 1)
  {
    assert [0.0][..0] == [];
    assert WindowAfter([0.0], interval) == Some(Window(0.0, 1));
    assert Passes([0.0], limit, interval) == [] + [0.0];
    RepeatedPasses([0.0], t, limit - 1, limit, interval);
  }

  /** `limit - 1` acquires late in one window, and a full next window at its opening. */
  function Burst(limit: nat, late: real, opening: real): seq<real>
    requires limit > 0
  {
    [0.0] + Repeated(late, limit - 1) + [opening] + Repeated(opening, limit - 1)
  }

  lemma BurstPasses(limit: nat, interval: nat, late: real)
    requires limit > 0 && 0.0 < late < interval as real
    ensures Passes(Burst(limit, late, interval as real), limit, interval) == Burst(limit, late, interval as real)
  {
    var first := [0.0] + Repeated(late, limit - 1);
    var next := first + [interval as real];
    OneWindowPasses(limit, interval, late);
    assert next[..|first|] == first;
    assert Passes(next, limit, interval) == next;
    RepeatedPasses(next, interval as real, limit - 1, limit, interval);
  }

  lemma BurstCount(limit: nat, late: real, opening: real, hi: real)
    requires limit > 0 && 0.0 < late < opening < hi
    ensures CountIn(Burst(limit, late, opening), late, hi) == 2 * limit - 1
  {
    var first := [0.0] + Repeated(late, limit - 1);
    assert [0.0][..0] == [];
    CountOfConcat([0.0], Repeated(late, limit - 1), late, hi);
    CountOfPush(first, opening, late, hi);
    CountOfConcat(first + [opening], Repeated(opening, limit - 1), late, hi);
    CountOfRepeated(late, limit - 1, late, hi);
    CountOfRepeated(opening, limit - 1, late, hi);
  }

  /** The bound is met: late in one window and early in the next, 2 * limit - 1 pass. */
  lemma SlidingBoundIsReached(limit: nat, interval: nat) returns (times: seq<real>, lo: real)
    requires limit > 0 && interval > 0
    ensures NonDecreasing(times)
    ensures CountIn(Passes(times, limit, interval), lo, lo + interval as real) == 2 * limit - 1
  {
    lo := interval as real / 2.0;
    times := Burst(limit, lo, interval as real);
    BurstPasses(limit, interval, lo);
    BurstCount(limit, lo, interval as real, lo + interval as real);
  }

  /** An acquire `k` seconds later would still count in the same window. */
  predicate StillCounting(w: Window, interval: nat, now: real, k: int) {
    Acquired(Some(w), interval, now + k as real) == w.(count := w.count + 1)
  }

  /** Retry-After is the least whole number of seconds after which the key has a fresh window. */
  lemma RetryAfterIsLeast(w: Window, interval: nat, now: real)
    requires w.startedAt <= now < w.startedAt + interval as real
    ensures var r := RetryAfter(now, w.startedAt, interval);
            && r >= 1
            && Acquired(Some(w), interval, now + r as real) == Window(now + r as real, 1)
            && (forall k: int :: 0 <= k < r ==> StillCounting(w, interval, now, k))
            && r as real < w.startedAt + interval as real - now + 1.0
  {
    var elapsed := now - w.startedAt;
    var whole := elapsed.Floor;
    assert whole as real <= elapsed < whole as real + 1.0;
    assert whole < interval;
  }

  // ---- the in-memory store -------------------------------------------------------------

  type Key = (string, string, string)
  type Windows = map<Key, Window>

  function Lookup(ws: Windows, k: Key): Option<Window> {
    if k in ws then Some(ws[k]) else None
  }

  class InMemoryStore {
    var windows: Windows

    constructor ()
      ensures windows == map[]
    {
      windows := map[];
    }

    method Acquire(key: Key, interval: nat, now: real) returns (count: nat, retryAfter: int)
      modifies this
      ensures windows == old(windows)[key := Acquired(Lookup(old(windows), key), interval, now)]
      ensures count == windows[key].count
      ensures retryAfter == RetryAfter(now, windows[key].startedAt, interval)
    {
      if key !in windows || now - windows[key].startedAt >= interval as real {
        windows := windows[key := Window(now, 0)];
      }
      windows := windows[key := windows[key].(count := windows[key].count + 1)];
      count := windows[key].count;
      retryAfter := RetryAfter(now, windows[key].startedAt, interval);
    }
  }

  // ---- all rules of an order ---------------------------------------------------------------

  datatype Scope = IpScope | AccountScope

  datatype Rule = Rule(name: string, scope: Scope, limit: nat, interval: nat)

  function ExchangeName(x: Exchange): string {
    match x
    case Binance => "binance"
    case Okx => "okx"
    case Bybit => "bybit"
    case Mock => "mock"
  }

  const AccountSafety := Rule("TESTNET_ORDER_ACCOUNT_SAFETY", AccountScope, 1, 1)

  /** _testnet_order_rules: the account rule, then the exchange's numeric REST rules. */
  function OrderRules(x: Exchange): (rules: seq<Rule>)
    ensures rules != [] && rules[0] == AccountSafety
    ensures forall i, j :: 0 <= i < j < |rules| ==> rules[i].name != rules[j].name
    ensures forall i :: 0 <= i < |rules| ==> rules[i].interval > 0
  {
    match x
    case Binance => [AccountSafety, Rule("RAW_REQUESTS", IpScope, 300_000, 300)]
    case Bybit => [AccountSafety, Rule("HTTP_IP", IpScope, 600, 5)]
    case _ => [AccountSafety]
  }

  /** One acquire_testnet_order call. */
  datatype OrderCall = OrderCall(exchange: Exchange, account: string, path: string, now: real)

  function RuleKey(rule: Rule, c: OrderCall): Key {
    (ExchangeName(c.exchange), rule.name, (if rule.scope == IpScope then "global" else c.account) + ":" + c.path)
  }

  function Keys(c: OrderCall): (keys: seq<Key>)
    ensures |keys| == |OrderRules(c.exchange)|
    ensures forall i, j :: 0 <= i < j < |keys| ==> keys[i] != keys[j]
  {
    var rules := OrderRules(c.exchange);
    seq(|rules|, i requires 0 <= i < |rules| => RuleKey(rules[i], c))
  }

  datatype Admission = Admission(windows: Windows, blockedBy: Option<nat>)

  /** Acquire rule by rule from `i` on; the first count over its limit stops. */
  function AcquireFrom(ws: Windows, c: OrderCall, i: nat): Admission
    requires i <= |OrderRules(c.exchange)|
    decreases |OrderRules(c.exchange)| - i
  {
    var rules := OrderRules(c.exchange);
    if i == |rules| then Admission(ws, None)
    else
      var w := Acquired(Lookup(ws, Keys(c)[i]), rules[i].interval, c.now);
      var ws' := ws[Keys(c)[i] := w];
      if w.count > rules[i].limit then Admission(ws', Some(i)) else AcquireFrom(ws', c, i + 1)
  }

  datatype RateLimitError = RateLimited(rule: string, retryAfter: int)

  class RateLimitService {
    const store: InMemoryStore

    constructor ()
      ensures fresh(store) && store.windows == map[]
    {
      store := new InMemoryStore();
    }

    /** acquire_testnet_order; the clock is read once. */
    method AcquireTestnetOrder(c: OrderCall) returns (r: Result<(), RateLimitError>)
      modifies store
      ensures store.windows == AcquireFrom(old(store.windows), c, 0).windows
      ensures r.Ok? <==> AcquireFrom(old(store.windows), c, 0).blockedBy.None?
      ensures r.Err? ==>
                var b := AcquireFrom(old(store.windows), c, 0).blockedBy.value;
                && b < |OrderRules(c.exchange)|
                && r.error.rule == OrderRules(c.exchange)[b].name
                && Keys(c)[b] in store.windows
                && r.error.retryAfter ==
                       RetryAfter(c.now, store.windows[Keys(c)[b]].startedAt, OrderRules(c.exchange)[b].interval)
    {
      var rules := OrderRules(c.exchange);
      var keys := Keys(c);
      for i := 0 to |rules|
        invariant AcquireFrom(store.windows, c, i) == AcquireFrom(old(store.windows), c, 0)
      {
        var count, retryAfter := store.Acquire(keys[i], rules[i].interval, c.now);
        if count > rules[i].limit {
          return Err(RateLimited(rules[i].name, retryAfter));
        }
      }
      return Ok(());
    }
  }

  // ---- any run of order calls ------------------------------------------------------------------

  function WindowsAfter(calls: seq<OrderCall>): Windows {
    if calls == [] then map[]
    else AcquireFrom(WindowsAfter(calls[..|calls| - 1]), calls[|calls| - 1], 0).windows
  }

  predicate AdmittedAt(calls: seq<OrderCall>, i: nat)
    requires i < |calls|
  {
    AcquireFrom(WindowsAfter(calls[..i]), calls[i], 0).blockedBy.None?
  }

  /** Call `i` acquired rule `j`: no earlier rule had stopped it. */
  predicate Charged(calls: seq<OrderCall>, i: nat, j: nat)
    requires i < |calls|
  {
    var b := AcquireFrom(WindowsAfter(calls[..i]), calls[i], 0).blockedBy;
    b.None? || j <= b.value
  }

  /** What one call does to the counter of its rule `j`, and to every counter it has no rule for. */
  lemma {:induction false} AcquireTouches(ws: Windows, c: OrderCall, i: nat, j: nat, other: Key)
    requires i <= j < |OrderRules(c.exchange)|
    ensures var a, k := AcquireFrom(ws, c, i), Keys(c)[j];
            var w := Acquired(Lookup(ws, k), OrderRules(c.exchange)[j].interval, c.now);
            if a.blockedBy.Some? && a.blockedBy.value < j then Lookup(a.windows, k) == Lookup(ws, k)
            else Lookup(a.windows, k) == Some(w) && (a.blockedBy == Some(j) <==>
                w.count > OrderRules(c.exchange)[j].limit)
    ensures (forall n :: i <= n < |Keys(c)| ==> Keys(c)[n] != other) ==>
              Lookup(AcquireFrom(ws, c, i).windows, other) == Lookup(ws, other)
    decreases |OrderRules(c.exchange)| - i
  {
    var rules, keys := OrderRules(c.exchange), Keys(c);
    var w := Acquired(Lookup(ws, keys[i]), rules[i].interval, c.now);
    var ws' := ws[keys[i] := w];
    if w.count <= rules[i].limit {
      if i < j {
        AcquireTouches(ws', c, i + 1, j, other);
      } else if i + 1 < |rules| {
        AcquireTouches(ws', c, i + 1, i + 1, keys[i]);
        AcquireTouches(ws', c, i + 1, i + 1, other);
      }
    }
  }

  /** One counter: rule `j` of exchange `x`, for the accounts and path that share key `k`. */
  predicate Uses(c: OrderCall, x: Exchange, j: nat, k: Key) {
    c.exchange == x && j < |OrderRules(x)| && Keys(c)[j] == k
  }

  predicate IsCounter(x: Exchange, j: nat, k: Key) {
    j < |OrderRules(x)| && k.0 == ExchangeName(x) && k.1 == OrderRules(x)[j].name
  }

  lemma OtherCallsMiss(c: OrderCall, x: Exchange, j: nat, k: Key, n: nat)
    requires IsCounter(x, j, k) && !Uses(c, x, j, k) && n < |Keys(c)|
    ensures Keys(c)[n] != k
  {
    if c.exchange == x && n != j {
      assert OrderRules(x)[n].name != OrderRules(x)[j].name;
    }
  }

  /** The times at which the counter was acquired. */
  function TimesAt(calls: seq<OrderCall>, x: Exchange, j: nat, k: Key): seq<real> {
    if calls == [] then []
    else
      var n := |calls| - 1;
      TimesAt(calls[..n], x, j, k) + (if Uses(calls[n], x, j, k) && Charged(calls, n, j) then [calls[n].now] else [])
  }

  function Trues(flags: seq<bool>): nat {
    if flags == [] then 0 else Trues(flags[..|flags| - 1]) + (if flags[|flags| - 1] then 1 else 0)
  }

  /** Which calls were admitted and used the counter in [lo, hi). */
  function AdmittedFlags(calls: seq<OrderCall>, x: Exchange, j: nat, k: Key, lo: real, hi: real): seq<bool> {
    seq(|calls|, i requires 0 <= i < |calls| => Uses(calls[i], x, j, k) && AdmittedAt(calls, i) &&
        lo <= calls[i].now < hi)
  }

  /** How many of them there are. */
  function AdmittedIn(calls: seq<OrderCall>, x: Exchange, j: nat, k: Key, lo: real, hi: real): nat {
    Trues(AdmittedFlags(calls, x, j, k, lo, hi))
  }

  lemma AdmittedLast(calls: seq<OrderCall>, x: Exchange, j: nat, k: Key, lo: real, hi: real)
    requires calls != []
    ensures var n := |calls| - 1;
            AdmittedIn(calls, x, j, k, lo, hi)
            == AdmittedIn(calls[..n], x, j, k, lo, hi)
               + (if Uses(calls[n], x, j, k) && AdmittedAt(calls, n) && lo <= calls[n].now < hi then 1 else 0)
  {
    var n := |calls| - 1;
    assert forall i :: 0 <= i < n ==> calls[..n][..i] == calls[..i];
    assert AdmittedFlags(calls, x, j, k, lo, hi)[..n] == AdmittedFlags(calls[..n], x, j, k, lo, hi);
  }

  lemma {:induction false} TwoTrues(flags: seq<bool>, i: nat, j: nat)
    requires i < j < |flags| && flags[i] && flags[j]
    ensures Trues(flags) >= 2
  {
    if j < |flags| - 1 {
      TwoTrues(flags[..|flags| - 1], i, j);
    } else {
      OneTrue(flags[..j], i);
    }
  }

  lemma {:induction false} OneTrue(flags: seq<bool>, i: nat)
    requires i < |flags| && flags[i]
    ensures Trues(flags) >= 1
  {
    if i < |flags| - 1 { OneTrue(flags[..|flags| - 1], i); }
  }

  ghost predicate ClockRuns(calls: seq<OrderCall>) {
    forall i, j :: 0 <= i < j < |calls| ==> calls[i].now <= calls[j].now
  }

  predicate NoneAfter(times: seq<real>, t: real) {
    forall s :: s in times ==> s <= t
  }

  lemma OneLater(times: seq<real>, last: real, t: real)
    requires NonDecreasing(times) && NoneAfter(times, last) && last <= t
    ensures NonDecreasing(times + [t]) && NoneAfter(times + [t], t) && NoneAfter(times, t)
  {
    forall i | 0 <= i < |times| ensures times[i] <= t { assert times[i] in times; }
  }

  lemma {:induction false} TimesFollowClock(calls: seq<OrderCall>, x: Exchange, j: nat, k: Key)
    requires ClockRuns(calls)
    ensures NonDecreasing(TimesAt(calls, x, j, k))
    ensures if calls == [] then TimesAt(calls, x, j, k) == []
            else NoneAfter(TimesAt(calls, x, j, k), calls[|calls| - 1].now)
  {
    if calls != [] {
      var n := |calls| - 1;
      var times := TimesAt(calls[..n], x, j, k);
      TimesFollowClock(calls[..n], x, j, k);
      OneLater(times, if n == 0 then calls[n].now else calls[n - 1].now, calls[n].now);
      assert times + [] == times;
    }
  }

  /** Whatever else the service serves, each counter sees only its own acquires. */
  lemma {:induction false} CounterIsolated(calls: seq<OrderCall>, x: Exchange, j: nat, k: Key)
    requires IsCounter(x, j, k)
    ensures Lookup(WindowsAfter(calls), k) == WindowAfter(TimesAt(calls, x, j, k), OrderRules(x)[j].interval)
  {
    if calls != [] {
      var n := |calls| - 1;
      CounterIsolated(calls[..n], x, j, k);
      var times, all := TimesAt(calls[..n], x, j, k), TimesAt(calls, x, j, k);
      if Uses(calls[n], x, j, k) {
        AcquireTouches(WindowsAfter(calls[..n]), calls[n], 0, j, k);
        assert if Charged(calls, n, j) then all == times + [calls[n].now] && all[..|times|] == times
            else all == times + [] == times;
      } else {
        assert all == times + [] == times;
        forall i | 0 <= i < |Keys(calls[n])| ensures Keys(calls[n])[i] != k { OtherCallsMiss(calls[n], x, j, k, i); }
        AcquireTouches(WindowsAfter(calls[..n]), calls[n], 0, 0, k);
      }
    }
  }

  /** An admitted order was charged to each of its counters, within the limit. */
  lemma AdmittedWithinLimit(calls: seq<OrderCall>, x: Exchange, j: nat, k: Key)
    requires IsCounter(x, j, k) && calls != []
    requires Uses(calls[|calls| - 1], x, j, k) && AdmittedAt(calls, |calls| - 1)
    ensures var n, all := |calls| - 1, TimesAt(calls, x, j, k);
            && all == TimesAt(calls[..n], x, j, k) + [calls[n].now]
            && WindowAfter(all, OrderRules(x)[j].interval).value.count <= OrderRules(x)[j].limit
  {
    var n := |calls| - 1;
    CounterIsolated(calls, x, j, k);
    AcquireTouches(WindowsAfter(calls[..n]), calls[n], 0, j, k);
  }

  lemma {:induction false} AdmittedPass(calls: seq<OrderCall>, x: Exchange, j: nat, k: Key, lo: real, hi: real)
    requires IsCounter(x, j, k)
    ensures AdmittedIn(calls, x, j, k, lo, hi)
         <= CountIn(Passes(TimesAt(calls, x, j, k), OrderRules(x)[j].limit, OrderRules(x)[j].interval), lo, hi)
  {
    if calls != [] {
      var n := |calls| - 1;
      var times, all := TimesAt(calls[..n], x, j, k), TimesAt(calls, x, j, k);
      AdmittedPass(calls[..n], x, j, k, lo, hi);
      AdmittedLast(calls, x, j, k, lo, hi);
      if Uses(calls[n], x, j, k) && AdmittedAt(calls, n) {
        AdmittedWithinLimit(calls, x, j, k);
      }
      if all == times {
        return;
      }
      assert all[..|times|] == times;
      CountOfPasses(all, OrderRules(x)[j].limit, OrderRules(x)[j].interval, lo, hi);
    }
  }

  lemma ChargesBounded(calls: seq<OrderCall>, x: Exchange, j: nat, k: Key, lo: real)
    requires ClockRuns(calls) && IsCounter(x, j, k)
    ensures var rule := OrderRules(x)[j];
            CountIn(Passes(TimesAt(calls, x, j, k), rule.limit, rule.interval), lo, lo + rule.interval as real)
              <= if rule.limit == 0 then 0 else 2 * rule.limit - 1
  {
    TimesFollowClock(calls, x, j, k);
    SlidingBound(TimesAt(calls, x, j, k), OrderRules(x)[j].limit, OrderRules(x)[j].interval, lo);
  }

  /** Over any run with a clock that never steps back, each rule admits at most 2 * limit - 1
      orders per counter in any half-open interval as long as its window. */
  lemma AdmittedOrdersBounded(calls: seq<OrderCall>, x: Exchange, j: nat, k: Key, lo: real)
    requires ClockRuns(calls) && IsCounter(x, j, k)
    ensures var rule := OrderRules(x)[j];
            AdmittedIn(calls, x, j, k, lo, lo + rule.interval as real)
              <= if rule.limit == 0 then 0 else 2 * rule.limit - 1
  {
    AdmittedPass(calls, x, j, k, lo, lo + OrderRules(x)[j].interval as real);
    ChargesBounded(calls, x, j, k, lo);
  }

  lemma AdmittedTwice(calls: seq<OrderCall>, x: Exchange, n: nat, k: Key, lo: real, hi: real, i: nat, j: nat)
    requires i < j < |calls| && Uses(calls[i], x, n, k) && Uses(calls[j], x, n, k)
    requires AdmittedAt(calls, i) && AdmittedAt(calls, j) && lo <= calls[i].now < hi && lo <= calls[j].now < hi
    ensures AdmittedIn(calls, x, n, k, lo, hi) >= 2
  {
    TwoTrues(AdmittedFlags(calls, x, n, k, lo, hi), i, j);
  }

  /** Two admitted orders of one account on one path are at least one second apart. */
  lemma AdmittedOrdersApart(calls: seq<OrderCall>, i: nat, j: nat)
    requires ClockRuns(calls) && i < j < |calls|
    requires calls[i].exchange == calls[j].exchange && calls[i].account == calls[j].account &&
        calls[i].path == calls[j].path
    requires AdmittedAt(calls, i) && AdmittedAt(calls, j)
    ensures calls[j].now - calls[i].now >= 1.0
  {
    var x, k, lo := calls[i].exchange, RuleKey(AccountSafety, calls[i]), calls[i].now;
    assert Uses(calls[i], x, 0, k) && Uses(calls[j], x, 0, k);
    AdmittedOrdersBounded(calls, x, 0, k, lo);
    if calls[j].now < lo + 1.0 {
      AdmittedTwice(calls, x, 0, k, lo, lo + 1.0, i, j);
    }
  }
}
