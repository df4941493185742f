/** The Redis window store, over counters that expire, refines the in-memory one. */
module RateLimitRedis {
  import opened Common
  import opened OrderStateMachine
  import opened RateLimit

  /** A Redis integer key and, once EXPIRE was called on it, when it goes away. */
  datatype Counter = Counter(count: nat, expiresAt: Option<real>)

  type Redis = map<string, Counter>

  predicate Live(c: Counter, now: real) {
    c.expiresAt.None? || now < c.expiresAt.value
  }

  /** INCR, then EXPIRE if the count is 1; `lost` says that this EXPIRE never arrived. */
  function Incremented(db: Redis, key: string, interval: nat, now: real, lost: bool): Counter {
    var current := if key in db && Live(db[key], now) then db[key] else Counter(0, None);
    var count := current.count + 1;
    Counter(count, if count == 1 && !lost then Some(now + interval as real) else current.expiresAt)
  }

  function EscapeChar(c: char): char {
    if c == ':' || c == '/' then '_' else c
  }

  function Escape(s: string): string {
    seq(|s|, i requires 0 <= i < |s| => EscapeChar(s[i]))
  }

  /** Colons and slashes become underscores, and nothing else changes. */
  lemma EscapeReplaces(s: string)
    ensures |Escape(s)| == |s|
    ensures forall i :: 0 <= i < |s| && (s[i] == ':' || s[i] == '/') ==> Escape(s)[i] == '_'
    ensures forall i :: 0 <= i < |s| && s[i] != ':' && s[i] != '/' ==> Escape(s)[i] == s[i]
  {
  }

  const KeyPrefix := "trading:rate_limit"

  function RedisKey(k: Key): string {
    KeyPrefix + ":" + (Escape(k.0) + ":" + (Escape(k.1) + ":" + Escape(k.2)))
  }

  /** Retry-After from the server's TTL reply; a missing or non-positive one counts as the interval. */
  function RedisRetryAfter(ttl: int, interval: nat): int {
    var wait := if ttl > 0 then ttl else interval;
    if wait >= 1 then wait else 1
  }

  /** Whatever the server rounds its TTL to, waiting that long opens a fresh window exactly if it
      is not less than what the counter still has to live. */
  lemma RedisRetryAfterSufficesIff(db: Redis, key: string, interval: nat, now: real, ttl: int)
    requires key in db && db[key].expiresAt.Some? && db[key].count >= 1 && Live(db[key], now)
    ensures var r := RedisRetryAfter(ttl, interval);
            Incremented(db, key, interval, now + r as real, false).count == 1
            <==> WaitSuffices(interval, db[key].expiresAt.value - now, ttl)
  {
  }

  /** Waiting for the answer to `ttl` opens a fresh window on a counter that lives `left` longer. */
  predicate WaitSuffices(interval: nat, left: real, ttl: int) {
    RedisRetryAfter(ttl, interval) as real >= left
  }

  /** An answer that rounds the remaining life down by at most `slack` seconds. */
  predicate RoundsDownBy(slack: real, left: real, ttl: int) {
    left - slack <= ttl as real
  }

  /** The wait is always sufficient exactly if the server never rounds the remaining life down, or
      the window is a single second; it is never short by more than the rounding. So the account
      rule is safe with any server, the exchange rules only with one that rounds up. */
  lemma TtlRoundingSufficesIff(interval: nat, slack: real)
    requires 0.0 <= slack <= 1.0
    ensures (forall left: real, ttl: int :: 0.0 < left <= interval as real && RoundsDownBy(slack, left, ttl) ==>
               WaitSuffices(interval, left, ttl))
            <==> slack == 0.0 || interval <= 1
    ensures forall left: real, ttl: int :: 0.0 < left <= interval as real && RoundsDownBy(slack, left, ttl) ==>
              RedisRetryAfter(ttl, interval) as real >= left - slack
  {
    if slack > 0.0 && interval >= 2 {
      assert RoundsDownBy(slack, 1.0 + slack, 1) && !WaitSuffices(interval, 1.0 + slack, 1);
    }
  }

  class RedisStore {
    var db: Redis

    constructor ()
      ensures db == map[]
    {
      db := map[];
    }

    /** `ttl` is the server's answer to TTL. */
    method Acquire(key: Key, interval: nat, now: real, lost: bool, ttl: int) returns (count: nat, retryAfter: int)
      modifies this
      ensures retryAfter == RedisRetryAfter(ttl, interval) >= 1
      ensures db == old(db)[RedisKey(key) := Incremented(old(db), RedisKey(key), interval, now, lost)]
      ensures count == db[RedisKey(key)].count
    {
      var name := RedisKey(key);
      if name !in db || !Live(db[name], now) {
        db := db[name := Counter(0, None)];
      }
      db := db[name := db[name].(count := db[name].count + 1)];
      count := db[name].count;
      if count == 1 && !lost {
        db := db[name := db[name].(expiresAt := Some(now + interval as real))];
      }
      retryAfter := if ttl > 0 then ttl else interval;
      if retryAfter < 1 { retryAfter := 1; }
    }
  }

  // ---- keys -------------------------------------------------------------------------

  predicate FreeOf(s: string, cs: set<char>) {
    forall c :: c in s ==> c !in cs
  }

  /** Exchange and rule name without separators, and scope ":" path with a scope free of
      separators and a path whose only separators are slashes. */
  ghost predicate Separable(k: Key) {
    && FreeOf(k.0, {':', '/'}) && FreeOf(k.1, {':', '/'})
    && exists scope: string, path: string ::
         k.2 == scope + ":" + path && FreeOf(scope, {':', '/', '_'}) && FreeOf(path, {':', '_'})
  }

  lemma EscapePlain(s: string)
    requires FreeOf(s, {':', '/'})
    ensures Escape(s) == s
  {
    assert forall i :: 0 <= i < |s| ==> s[i] in s;
  }

  lemma EscapePathInjective(p: string, q: string)
    requires FreeOf(p, {':', '_'}) && FreeOf(q, {':', '_'}) && Escape(p) == Escape(q)
    ensures p == q
  {
    assert |p| == |Escape(p)| == |q|;
    forall i | 0 <= i < |p| ensures p[i] == q[i] {
      assert p[i] in p && q[i] in q;
      assert Escape(p)[i] == Escape(q)[i];
    }
  }

  /** Text before the first separator is determined, and so is the rest. */
  lemma {:induction false} SplitUnique(c: char, a: string, b: string, a': string, b': string)
    requires c !in a && c !in a' && a + [c] + b == a' + [c] + b'
    ensures a == a' && b == b'
  {
    var s := a + [c] + b;
    assert s[0] == (if a == "" then c else a[0]) == (if a' == "" then c else a'[0]);
    assert s[1..] == (if a == "" then b else a[1..] + [c] + b) == (if a' == "" then b' else a'[1..] + [c] + b');
    if a != "" && a' != "" {
      SplitUnique(c, a[1..], b, a'[1..], b');
      assert a == [a[0]] + a[1..] && a' == [a'[0]] + a'[1..];
    }
  }

  lemma EscapeJoin(scope: string, path: string)
    ensures Escape(scope + ":" + path) == Escape(scope) + "_" + Escape(path)
  {
  }

  lemma ThirdPartInjective(x: string, y: string, s: string, p: string, s': string, p': string)
    requires x == s + ":" + p && FreeOf(s, {':', '/', '_'}) && FreeOf(p, {':', '_'})
    requires y == s' + ":" + p' && FreeOf(s', {':', '/', '_'}) && FreeOf(p', {':', '_'})
    requires Escape(x) == Escape(y)
    ensures x == y
  {
    EscapeJoin(s, p);
    EscapeJoin(s', p');
    EscapePlain(s);
    EscapePlain(s');
    SplitUnique('_', s, Escape(p), s', Escape(p'));
    EscapePathInjective(p, p');
  }

  /** No two in-memory windows share a Redis counter. */
  lemma RedisKeyInjective(k: Key, k': Key)
    requires Separable(k) && Separable(k') && RedisKey(k) == RedisKey(k')
    ensures k == k'
  {
    EscapePlain(k.0);
    EscapePlain(k.1);
    EscapePlain(k'.0);
    EscapePlain(k'.1);
    var n := |KeyPrefix| + 1;
    var rest, rest' := k.1 + ":" + Escape(k.2), k'.1 + ":" + Escape(k'.2);
    assert RedisKey(k)[n..] == k.0 + ":" + rest && RedisKey(k')[n..] == k'.0 + ":" + rest';
    SplitUnique(':', k.0, rest, k'.0, rest');
    SplitUnique(':', k.1, Escape(k.2), k'.1, Escape(k'.2));
    var s: string, p: string :| k.2 == s + ":" + p && FreeOf(s, {':', '/', '_'}) && FreeOf(p, {':', '_'});
    var s': string, p': string :| k'.2 == s' + ":" + p' && FreeOf(s', {':', '/', '_'}) && FreeOf(p', {':', '_'});
    ThirdPartInjective(k.2, k'.2, s, p, s', p');
  }

  /** _testnet_order_request_path */
  function OrderPath(x: Exchange): string {
    match x
    case Binance => "/api/v3/order"
    case Bybit => "/v5/order/create"
    case _ => "/api/v5/trade/order"
  }

  lemma ExchangeNamesPlain(x: Exchange)
    ensures FreeOf(ExchangeName(x), {':', '/'})
  {
  }

  lemma RuleLiteralsPlain()
    ensures FreeOf("TESTNET_ORDER_ACCOUNT_SAFETY", {':', '/'})
    ensures FreeOf("RAW_REQUESTS", {':', '/'}) && FreeOf("HTTP_IP", {':', '/'})
  {
  }

  lemma RuleNamesPlain(x: Exchange, j: nat)
    requires j < |OrderRules(x)|
    ensures FreeOf(OrderRules(x)[j].name, {':', '/'})
  {
    RuleLiteralsPlain();
    match x
    case Binance => assert OrderRules(x)[j].name in ["TESTNET_ORDER_ACCOUNT_SAFETY", "RAW_REQUESTS"];
    case Bybit => assert OrderRules(x)[j].name in ["TESTNET_ORDER_ACCOUNT_SAFETY", "HTTP_IP"];
    case _ =>
  }

  lemma OrderPathsPlain(x: Exchange)
    ensures FreeOf(OrderPath(x), {':', '_'}) && FreeOf("global", {':', '/', '_'})
  {
  }

  /** Every key of an order call is separable: account ids are UUIDs and the paths are fixed. */
  lemma OrderKeysSeparable(c: OrderCall, j: nat)
    requires FreeOf(c.account, {':', '/', '_'}) && c.path == OrderPath(c.exchange) && j < |Keys(c)|
    ensures Separable(Keys(c)[j])
  {
    ExchangeNamesPlain(c.exchange);
    RuleNamesPlain(c.exchange, j);
    OrderPathsPlain(c.exchange);
    var scope := if OrderRules(c.exchange)[j].scope == IpScope then "global" else c.account;
    assert Keys(c)[j].2 == scope + ":" + c.path;
  }

  // ---- refinement ---------------------------------------------------------------------------

  /** One acquire of a store; each key always comes with the same interval. */
  datatype StoreCall = StoreCall(key: Key, now: real)

  function MemoryCounts(ws: Windows, calls: seq<StoreCall>, interval: Key -> nat): seq<nat>
    decreases |calls|
  {
    if calls == [] then []
    else
      var w := Acquired(Lookup(ws, calls[0].key), interval(calls[0].key), calls[0].now);
      [w.count] + MemoryCounts(ws[calls[0].key := w], calls[1..], interval)
  }

  function RedisCounts(db: Redis, calls: seq<StoreCall>, interval: Key -> nat): seq<nat>
    decreases |calls|
  {
    if calls == [] then []
    else
      var name := RedisKey(calls[0].key);
      var c := Incremented(db, name, interval(calls[0].key), calls[0].now, false);
      [c.count] + RedisCounts(db[name := c], calls[1..], interval)
  }

  /** A window and its counter agree: same count, and gone when the window is over. */
  ghost predicate Agree(ws: Windows, db: Redis, k: Key, interval: Key -> nat) {
    && (k in ws <==> RedisKey(k) in db)
    && (k in ws ==> db[RedisKey(k)] == Counter(ws[k].count, Some(ws[k].startedAt + interval(k) as real)))
  }

  lemma StepAgrees(ws: Windows, db: Redis, c: StoreCall, other: Key, interval: Key -> nat)
    requires Separable(c.key) && Separable(other)
    requires Agree(ws, db, c.key, interval) && Agree(ws, db, other, interval)
    requires c.key in ws ==> ws[c.key].count >= 1
    ensures var w := Acquired(Lookup(ws, c.key), interval(c.key), c.now);
            var r := Incremented(db, RedisKey(c.key), interval(c.key), c.now, false);
            && r.count == w.count >= 1
            && Agree(ws[c.key := w], db[RedisKey(c.key) := r], other, interval)
  {
    if RedisKey(other) == RedisKey(c.key) {
      RedisKeyInjective(other, c.key);
    }
  }

  ghost predicate AllAgree(ws: Windows, db: Redis, interval: Key -> nat) {
    && (forall k :: Separable(k) ==> Agree(ws, db, k, interval))
    && (forall k :: k in ws ==> ws[k].count >= 1)
  }

  lemma StepsAgree(ws: Windows, db: Redis, c: StoreCall, interval: Key -> nat)
    requires Separable(c.key) && AllAgree(ws, db, interval)
    ensures var w := Acquired(Lookup(ws, c.key), interval(c.key), c.now);
            var r := Incremented(db, RedisKey(c.key), interval(c.key), c.now, false);
            r.count == w.count && AllAgree(ws[c.key := w], db[RedisKey(c.key) := r], interval)
  {
    var w := Acquired(Lookup(ws, c.key), interval(c.key), c.now);
    var r := Incremented(db, RedisKey(c.key), interval(c.key), c.now, false);
    forall k | Separable(k) ensures Agree(ws[c.key := w], db[RedisKey(c.key) := r], k, interval) {
      StepAgrees(ws, db, c, k, interval);
    }
    StepAgrees(ws, db, c, c.key, interval);
  }

  lemma EmptyStoresAgree(interval: Key -> nat)
    ensures AllAgree(map[], map[], interval)
  {
    forall k ensures Agree(map[], map[], k, interval) {
    }
  }

  /** With every first INCR followed by its EXPIRE, both stores return the same counts on
      every sequence of calls, whatever the clock does. */
  lemma {:induction false} RedisRefinesMemory(ws: Windows, db: Redis, calls: seq<StoreCall>, interval: Key -> nat)
    requires forall i :: 0 <= i < |calls| ==> Separable(calls[i].key)
    requires AllAgree(ws, db, interval)
    ensures RedisCounts(db, calls, interval) == MemoryCounts(ws, calls, interval)
    decreases |calls|
  {
    if calls != [] {
      var c := calls[0];
      var w := Acquired(Lookup(ws, c.key), interval(c.key), c.now);
      var r := Incremented(db, RedisKey(c.key), interval(c.key), c.now, false);
      StepsAgree(ws, db, c, interval);
      RedisRefinesMemory(ws[c.key := w], db[RedisKey(c.key) := r], calls[1..], interval);
    }
  }

  /** From empty stores on. */
  lemma RedisMatchesMemory(calls: seq<StoreCall>, interval: Key -> nat)
    requires forall i :: 0 <= i < |calls| ==> Separable(calls[i].key)
    ensures RedisCounts(map[], calls, interval) == MemoryCounts(map[], calls, interval)
  {
    EmptyStoresAgree(interval);
    RedisRefinesMemory(map[], map[], calls, interval);
  }

  // ---- the EXPIRE that is lost --------------------------------------------------------------------

  function CountsAfter(db: Redis, key: string, times: seq<real>, interval: nat): nat
    decreases |times|
  {
    if times == [] then (if key in db then db[key].count else 0)
    else CountsAfter(db[key := Incremented(db, key, interval, times[0], false)], key, times[1..], interval)
  }

  /** A counter without expiry only ever grows: once past its limit, the key is refused for good. */
  lemma {:induction false} WithoutExpiryNeverResets(db: Redis, key: string, times: seq<real>, interval: nat)
    requires key in db && db[key].expiresAt.None? && db[key].count >= 1
    ensures CountsAfter(db, key, times, interval) == db[key].count + |times|
    decreases |times|
  {
    if times != [] {
      WithoutExpiryNeverResets(db[key := Incremented(db, key, interval, times[0], false)], key, times[1..], interval);
    }
  }

  ghost predicate SameCountsFrom(ws: Windows, db: Redis, interval: Key -> nat) {
    forall calls: seq<StoreCall> :: (forall i :: 0 <= i < |calls| ==> Separable(calls[i].key)) ==>
      RedisCounts(db, calls, interval) == MemoryCounts(ws, calls, interval)
  }

  /** So stores that agree still agree on all further calls after one more acquire exactly if
      that acquire did not open the counter and lose its EXPIRE. */
  lemma AgreementNeedsExpire(ws: Windows, db: Redis, k: Key, interval: Key -> nat, now: real, lost: bool)
    requires Separable(k) && AllAgree(ws, db, interval)
    ensures var w := Acquired(Lookup(ws, k), interval(k), now);
            var c := Incremented(db, RedisKey(k), interval(k), now, lost);
            SameCountsFrom(ws[k := w], db[RedisKey(k) := c], interval) <==> !(lost && c.count == 1)
  {
    var w := Acquired(Lookup(ws, k), interval(k), now);
    var c := Incremented(db, RedisKey(k), interval(k), now, lost);
    StepsAgree(ws, db, StoreCall(k, now), interval);
    if lost && c.count == 1 {
      LostExpireDiverges(ws, db, k, interval, now);
    } else {
      forall calls: seq<StoreCall> | forall i :: 0 <= i < |calls| ==> Separable(calls[i].key)
        ensures RedisCounts(db[RedisKey(k) := c], calls, interval) == MemoryCounts(ws[k := w], calls, interval)
      {
        RedisRefinesMemory(ws[k := w], db[RedisKey(k) := c], calls, interval);
      }
    }
  }

  lemma LostExpireDiverges(ws: Windows, db: Redis, k: Key, interval: Key -> nat, now: real)
    requires Separable(k) && AllAgree(ws, db, interval)
    requires Incremented(db, RedisKey(k), interval(k), now, true).count == 1
    ensures var w := Acquired(Lookup(ws, k), interval(k), now);
            var c := Incremented(db, RedisKey(k), interval(k), now, true);
            !SameCountsFrom(ws[k := w], db[RedisKey(k) := c], interval)
  {
    var w := Acquired(Lookup(ws, k), interval(k), now);
    var c := Incremented(db, RedisKey(k), interval(k), now, true);
    assert Agree(ws, db, k, interval);
    assert c == Counter(1, None) && w == Window(now, 1);
    var later := [StoreCall(k, now + interval(k) as real)];
    assert RedisCounts(db[RedisKey(k) := c], later, interval)[0] == 2;
    assert MemoryCounts(ws[k := w], later, interval)[0] == 1;
  }

  // ---- all rules of an order, on the Redis store -----------------------------------------------

  datatype RedisAdmission = RedisAdmission(db: Redis, blockedBy: Option<nat>)

  /** Acquire rule by rule from `i` on; `lost(n)` says that the EXPIRE of rule `n` never arrived. */
  function RedisAcquireFrom(db: Redis, c: OrderCall, i: nat, lost: nat -> bool): RedisAdmission
    requires i <= |OrderRules(c.exchange)|
    decreases |OrderRules(c.exchange)| - i
  {
    var rules := OrderRules(c.exchange);
    if i == |rules| then RedisAdmission(db, None)
    else
      var name := RedisKey(Keys(c)[i]);
      var counter := Incremented(db, name, rules[i].interval, c.now, lost(i));
      var db' := db[name := counter];
      if counter.count > rules[i].limit then RedisAdmission(db', Some(i)) else RedisAcquireFrom(db', c, i + 1, lost)
  }

  /** The service as it is shipped, on the Redis store. */
  class RedisRateLimitService {
    const store: RedisStore

    constructor ()
      ensures fresh(store) && store.db == map[]
    {
      store := new RedisStore();
    }

    /** acquire_testnet_order; `ttl(n)` is the server's answer for rule `n`. */
    method AcquireTestnetOrder(c: OrderCall, lost: nat -> bool, ttl: nat -> int) returns (r: Result<(), RateLimitError>)
      modifies store
      ensures store.db == RedisAcquireFrom(old(store.db), c, 0, lost).db
      ensures r.Ok? <==> RedisAcquireFrom(old(store.db), c, 0, lost).blockedBy.None?
      ensures r.Err? ==>
                var b := RedisAcquireFrom(old(store.db), c, 0, lost).blockedBy.value;
                && b < |OrderRules(c.exchange)|
                && r.error.rule == OrderRules(c.exchange)[b].name
                && r.error.retryAfter == RedisRetryAfter(ttl(b), OrderRules(c.exchange)[b].interval)
    {
      var rules := OrderRules(c.exchange);
      var keys := Keys(c);
      for i := 0 to |rules|
        invariant RedisAcquireFrom(store.db, c, i, lost) == RedisAcquireFrom(old(store.db), c, 0, lost)
      {
        var count, retryAfter := store.Acquire(keys[i], rules[i].interval, c.now, lost(i), ttl(i));
        if count > rules[i].limit { return Err(RateLimited(rules[i].name, retryAfter)); }
      }
      return Ok(());
    }
  }

  /** The window length that goes with a key of an order call. */
  function IntervalOf(k: Key): nat {
    if k.1 == "RAW_REQUESTS" then 300 else if k.1 == "HTTP_IP" then 5 else 1
  }

  lemma IntervalOfKey(c: OrderCall, i: nat)
    requires i < |Keys(c)|
    ensures IntervalOf(Keys(c)[i]) == OrderRules(c.exchange)[i].interval
  {
    var name := Keys(c)[i].1;
    assert name == OrderRules(c.exchange)[i].name;
    assert |"TESTNET_ORDER_ACCOUNT_SAFETY"| == 28 && |"RAW_REQUESTS"| == 12 && |"HTTP_IP"| == 7;
    match c.exchange
    case Binance => assert i == 0 || i == 1;
    case Bybit => assert i == 0 || i == 1;
    case _ =>
  }

  /** A call as the order route makes it: a UUID account, and the path of its exchange. */
  predicate Regular(c: OrderCall) {
    FreeOf(c.account, {':', '/', '_'}) && c.path == OrderPath(c.exchange)
  }

  const NoneLost: nat -> bool := (n: nat) => false

  lemma {:induction false} RedisAcquireAgrees(ws: Windows, db: Redis, c: OrderCall, i: nat)
    requires Regular(c) && AllAgree(ws, db, IntervalOf) && i <= |OrderRules(c.exchange)|
    ensures var m, r := AcquireFrom(ws, c, i), RedisAcquireFrom(db, c, i, NoneLost);
            m.blockedBy == r.blockedBy && AllAgree(m.windows, r.db, IntervalOf)
    decreases |OrderRules(c.exchange)| - i
  {
    if i < |OrderRules(c.exchange)| {
      var k := Keys(c)[i];
      OrderKeysSeparable(c, i);
      IntervalOfKey(c, i);
      StepsAgree(ws, db, StoreCall(k, c.now), IntervalOf);
      var w := Acquired(Lookup(ws, k), IntervalOf(k), c.now);
      var r := Incremented(db, RedisKey(k), IntervalOf(k), c.now, false);
      RedisAcquireAgrees(ws[k := w], db[RedisKey(k) := r], c, i + 1);
    }
  }

  function RedisAfter(calls: seq<OrderCall>): Redis {
    if calls == [] then map[]
    else RedisAcquireFrom(RedisAfter(calls[..|calls| - 1]), calls[|calls| - 1], 0, NoneLost).db
  }

  predicate RedisAdmittedAt(calls: seq<OrderCall>, i: nat)
    requires i < |calls|
  {
    RedisAcquireFrom(RedisAfter(calls[..i]), calls[i], 0, NoneLost).blockedBy.None?
  }

  ghost predicate AllRegular(calls: seq<OrderCall>) {
    forall i :: 0 <= i < |calls| ==> Regular(calls[i])
  }

  lemma {:induction false} StoresAgreeAfter(calls: seq<OrderCall>)
    requires AllRegular(calls)
    ensures AllAgree(WindowsAfter(calls), RedisAfter(calls), IntervalOf)
  {
    if calls == [] {
      EmptyStoresAgree(IntervalOf);
    } else {
      var n := |calls| - 1;
      StoresAgreeAfter(calls[..n]);
      RedisAcquireAgrees(WindowsAfter(calls[..n]), RedisAfter(calls[..n]), calls[n], 0);
    }
  }

  /** On every run of order calls in which no EXPIRE is lost, the service on Redis admits exactly
      the orders the in-memory one does. */
  lemma RedisAdmitsTheSame(calls: seq<OrderCall>, i: nat)
    requires AllRegular(calls) && i < |calls|
    ensures RedisAdmittedAt(calls, i) <==> AdmittedAt(calls, i)
  {
    StoresAgreeAfter(calls[..i]);
    RedisAcquireAgrees(WindowsAfter(calls[..i]), RedisAfter(calls[..i]), calls[i], 0);
  }

  /** How many orders the service on Redis admitted that used the counter in [lo, hi). */
  function RedisAdmittedIn(calls: seq<OrderCall>, x: Exchange, j: nat, k: Key, lo: real, hi: real): nat {
    Trues(seq(|calls|, i requires 0 <= i < |calls| =>
      Uses(calls[i], x, j, k) && RedisAdmittedAt(calls, i) && lo <= calls[i].now < hi))
  }

  /** So the sliding bound holds for it, rule by rule. */
  lemma RedisOrdersBounded(calls: seq<OrderCall>, x: Exchange, j: nat, k: Key, lo: real)
    requires AllRegular(calls) && ClockRuns(calls) && IsCounter(x, j, k)
    ensures var rule := OrderRules(x)[j];
            RedisAdmittedIn(calls, x, j, k, lo, lo + rule.interval as real)
              <= if rule.limit == 0 then 0 else 2 * rule.limit - 1
  {
    var hi := lo + OrderRules(x)[j].interval as real;
    SameAdmissions(calls, x, j, k, lo, hi);
    AdmittedOrdersBounded(calls, x, j, k, lo);
  }

  lemma SameAdmissions(calls: seq<OrderCall>, x: Exchange, j: nat, k: Key, lo: real, hi: real)
    requires AllRegular(calls)
    ensures RedisAdmittedIn(calls, x, j, k, lo, hi) == AdmittedIn(calls, x, j, k, lo, hi)
  {
    var flags := seq(|calls|, i requires 0 <= i < |calls| =>
      Uses(calls[i], x, j, k) && RedisAdmittedAt(calls, i) && lo <= calls[i].now < hi);
    forall i | 0 <= i < |calls| ensures flags[i] == AdmittedFlags(calls, x, j, k, lo, hi)[i] {
      RedisAdmitsTheSame(calls, i);
    }
    assert flags == AdmittedFlags(calls, x, j, k, lo, hi);
  }

  /** And two orders it admits for one account on one path are at least one second apart. */
  lemma RedisOrdersApart(calls: seq<OrderCall>, i: nat, j: nat)
    requires AllRegular(calls) && ClockRuns(calls) && i < j < |calls|
    requires calls[i].exchange == calls[j].exchange && calls[i].account == calls[j].account
    requires RedisAdmittedAt(calls, i) && RedisAdmittedAt(calls, j)
    ensures calls[j].now - calls[i].now >= 1.0
  {
    RedisAdmitsTheSame(calls, i);
    RedisAdmitsTheSame(calls, j);
    AdmittedOrdersApart(calls, i, j);
  }
}
