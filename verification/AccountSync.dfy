/** Balance and position snapshots pushed by a testnet user stream: validation, all-or-nothing
    upserts, and what the tables hold after any run of deliveries. */
module AccountSync {
  import opened Common
  import OrderStateMachine
  import Ledger
  import Text

  // ---- decimals: exact integers in units of 10^-10 -----------------------------------------

  /** What Decimal(str(value)) yields; a number is coefficient * 10^exponent. */
  datatype Raw = NotNumeric | NotFinite | Number(coefficient: int, exponent: int)

  function Pow10(n: nat): (r: nat)
    ensures r >= 1
  {
    if n == 0 then 1 else 10 * Pow10(n - 1)
  }

  /** Number of decimal digits of a positive integer. */
  function Digits(n: nat): nat {
    if n == 0 then 0 else 1 + Digits(n / 10)
  }

  function Abs(n: int): nat { if n < 0 then -n else n }

  /** 10^18 in units of 10^-10: the first magnitude NUMERIC(28, 10) cannot hold. */
  const LIMIT := 1_0000_0000_0000_0000_0000_0000_0000

  /** _quantity */
  function Quantity(r: Raw, nonnegative: bool): (q: Option<int>)
    ensures q.Some? && nonnegative ==> q.value >= 0
  {
    if !r.Number? || r.exponent < -10 then None
    else if r.coefficient != 0 && r.exponent + Digits(Abs(r.coefficient)) - 1 >= 18 then None
    else if nonnegative && r.coefficient < 0 then None
    else Some(r.coefficient * Pow10(r.exponent + 10))
  }

  lemma {:induction false} PowAdds(a: nat, b: nat)
    ensures Pow10(a + b) == Pow10(a) * Pow10(b)
  {
    if a > 0 {
      PowAdds(a - 1, b);
      assert Pow10(a + b) == 10 * Pow10(a + b - 1) == 10 * (Pow10(a - 1) * Pow10(b));
    }
  }

  lemma PowMonotone(a: nat, b: nat)
    requires a <= b
    ensures Pow10(a) <= Pow10(b)
  {
    PowAdds(a, b - a);
    assert Pow10(a) * Pow10(b - a) >= Pow10(a) * 1;
  }

  lemma {:induction false} DigitsBound(n: nat)
    requires n > 0
    ensures Digits(n) > 0 && Pow10(Digits(n) - 1) <= n < Pow10(Digits(n))
  {
    if n >= 10 { DigitsBound(n / 10); }
  }

  lemma LimitIsPower()
    ensures LIMIT == Pow10(28)
  {
    assert Pow10(7) == 1_000_0000;
    PowAdds(7, 7);
    PowAdds(14, 14);
  }

  lemma MulOrder(a: nat, b: nat, c: nat, m: nat)
    requires a <= b < c && m > 0
    ensures a * m <= b * m < c * m
  {
  }

  /** Shifting a number of `d` digits by `e` places. */
  lemma ShiftedBounds(c: nat, d: nat, e: nat)
    requires d > 0 && Pow10(d - 1) <= c < Pow10(d)
    ensures Pow10(d - 1 + e) <= c * Pow10(e) < Pow10(d + e)
  {
    PowAdds(d, e);
    PowAdds(d - 1, e);
    MulOrder(Pow10(d - 1), c, Pow10(d), Pow10(e));
  }

  lemma ScaledBelowLimit(c: nat, e: nat)
    requires c > 0
    ensures c * Pow10(e) < LIMIT <==> e + Digits(c) <= 28
  {
    var d := Digits(c);
    DigitsBound(c);
    ShiftedBounds(c, d, e);
    LimitIsPower();
    if e + d <= 28 {
      PowMonotone(d + e, 28);
    } else {
      PowMonotone(28, d - 1 + e);
    }
  }

  lemma ScaledSign(c: int, p: nat)
    requires p >= 1
    ensures Abs(c * p) == Abs(c) * p && (c * p >= 0 <==> c >= 0)
  {
    if c < 0 {
      MulOrder(0, 0, -c, p);
      assert c * p == -((-c) * p);
    } else {
      MulOrder(0, c, c + 1, p);
    }
  }

  /** The digit-counting checks accept exactly the numbers with at most ten decimals and a
      magnitude below 10^18, and keep them exactly. */
  lemma QuantityAcceptsExactly(r: Raw, nonnegative: bool)
    ensures Quantity(r, nonnegative).Some? <==>
            && r.Number? && r.exponent >= -10
            && Abs(r.coefficient * Pow10(r.exponent + 10)) < LIMIT
            && (nonnegative ==> r.coefficient >= 0)
    ensures Quantity(r, nonnegative).Some? ==> -LIMIT < Quantity(r, nonnegative).value < LIMIT
    ensures Quantity(r, true).Some? ==> 0 <= Quantity(r, true).value < LIMIT
  {
    if r.Number? && r.exponent >= -10 {
      ScaledSign(r.coefficient, Pow10(r.exponent + 10));
      if r.coefficient != 0 {
        ScaledBelowLimit(Abs(r.coefficient), r.exponent + 10);
      }
    }
  }

  /** A sum of two quantities after rounding to 28 significant digits, ties to even. */
  function Rounded(n: nat): nat {
    if n < LIMIT then n
    else
      var q, d := n / 10, n % 10;
      10 * (if d > 5 || (d == 5 && q % 2 == 1) then q + 1 else q)
  }

  /** Exactly when the rounded sum is not below the true one. */
  predicate RoundsNotDown(n: nat) {
    n < LIMIT || n % 10 == 0 || n % 10 > 5 || (n % 10 == 5 && n / 10 % 2 == 1)
  }

  // ---- payloads ------------------------------------------------------------------------------

  datatype Listed<T> = Malformed | Items(items: seq<T>)
  datatype Field = NotText | TextField(text: string)

  datatype BinanceBalance = BinanceBalance(a: Field, f: Raw, l: Raw)
  datatype BybitCoin = BybitCoin(coin: Field, walletBalance: Raw, locked: Option<Raw>)
  datatype OkxDetail = OkxDetail(ccy: Field, availBal: Raw, frozenBal: Option<Raw>, cashBal: Raw)
  datatype BybitSide = Buy | Sell | EmptySide | OtherSide
  datatype BybitPosition = BybitPosition(symbol: Field, side: BybitSide, size: Raw)
  datatype OkxPosition = OkxPosition(instId: Field, pos: Raw)

  datatype Event =
    | BinanceBalances(binance: Listed<BinanceBalance>)
    | BybitBalances(wallets: Listed<Listed<BybitCoin>>)
    | OkxBalances(details: Listed<Listed<OkxDetail>>)
    | BybitPositions(bybit: Listed<BybitPosition>)
    | OkxPositions(okx: Listed<OkxPosition>)
    | MockBalances
    | BinancePositions
    | MockPositions
    | OtherEvent(exchange: OrderStateMachine.Exchange)

  function ExchangeOf(e: Event): OrderStateMachine.Exchange {
    match e
    case BinanceBalances(_) | BinancePositions => OrderStateMachine.Binance
    case BybitBalances(_) | BybitPositions(_) => OrderStateMachine.Bybit
    case OkxBalances(_) | OkxPositions(_) => OrderStateMachine.Okx
    case MockBalances | MockPositions => OrderStateMachine.Mock
    case OtherEvent(x) => x
  }

  datatype Balance = Balance(available: int, locked: int, total: int)

  datatype Update<V> = Update(name: string, value: V)

  predicate IsNameChar(c: char) {
    'A' <= c <= 'Z' || 'a' <= c <= 'z' || '0' <= c <= '9' || c == '-' || c == '_'
  }

  /** _identifier */
  function Identifier(f: Field): Option<string> {
    if f.NotText? then None
    else
      var s := Text.Normalized(f.text);
      if s == "" || |s| > 40 || exists i :: 0 <= i < |s| && !IsNameChar(s[i]) then None else Some(s)
  }

  const ZERO := Number(0, 0)

  function OrZero(r: Option<Raw>): Raw { if r.Some? then r.value else ZERO }

  function BinanceUpdate(b: BinanceBalance): Option<Update<Balance>> {
    var available, locked, asset := Quantity(b.f, true), Quantity(b.l, true), Identifier(b.a);
    if available.None? || locked.None? || asset.None? then None
    else Some(Update(asset.value, Balance(available.value, locked.value, Rounded(available.value + locked.value))))
  }

  function BybitUpdate(c: BybitCoin): Option<Update<Balance>> {
    var total, locked, asset := Quantity(c.walletBalance, true), Quantity(OrZero(c.locked), true), Identifier(c.coin);
    if total.None? || locked.None? || asset.None? || locked.value > total.value then None
    else Some(Update(asset.value, Balance(total.value - locked.value, locked.value, total.value)))
  }

  function OkxUpdate(d: OkxDetail): Option<Update<Balance>> {
    var available, locked := Quantity(d.availBal, true), Quantity(OrZero(d.frozenBal), true);
    var total, asset := Quantity(d.cashBal, true), Identifier(d.ccy);
    if available.None? || locked.None? || total.None? || asset.None? then None
    else if Rounded(available.value + locked.value) > total.value then None
    else Some(Update(asset.value, Balance(available.value, locked.value, total.value)))
  }

  function BybitPositionUpdate(p: BybitPosition): Option<Update<int>> {
    var size, symbol := Quantity(p.size, true), Identifier(p.symbol);
    if size.None? || symbol.None? then None
    else
      match p.side
      case Buy => Some(Update(symbol.value, size.value))
      case Sell => Some(Update(symbol.value, -size.value))
      case EmptySide => if size.value == 0 then Some(Update(symbol.value, 0)) else None
      case OtherSide => None
  }

  function OkxPositionUpdate(p: OkxPosition): Option<Update<int>> {
    var quantity, symbol := Quantity(p.pos, false), Identifier(p.instId);
    if quantity.None? || symbol.None? then None else Some(Update(symbol.value, quantity.value))
  }

  // ---- updates of a whole event ---------------------------------------------------------------

  /** Every item built, in order; nothing if one of them is refused. */
  function Collect<A, V>(items: seq<A>, build: A -> Option<Update<V>>): Option<seq<Update<V>>> {
    if forall i :: 0 <= i < |items| ==> build(items[i]).Some?
    then Some(seq(|items|, i requires 0 <= i < |items| && build(items[i]).Some? => build(items[i]).value))
    else None
  }

  function Flatten<T>(groups: seq<Listed<T>>): Option<seq<T>> {
    if groups == [] then Some([])
    else
      var front, last := Flatten(groups[..|groups| - 1]), groups[|groups| - 1];
      if front.None? || last.Malformed? then None else Some(front.value + last.items)
  }

  function ItemsOf<T>(l: Listed<T>): Option<seq<T>> { if l.Malformed? then None else Some(l.items) }

  function GroupedItemsOf<T>(l: Listed<Listed<T>>): Option<seq<T>> { if l.Malformed? then None else Flatten(l.items) }

  function CollectAll<A, V(==)>(items: Option<seq<A>>, build: A -> Option<Update<V>>): Option<seq<Update<V>>> {
    if items.None? then None else Checked(Collect(items.value, build))
  }

  function NamesOf<V(==)>(us: seq<Update<V>>): set<string> { set u | u in us :: u.name }

  /** An event with a repeated name, or with nothing in it, is refused. */
  function Checked<V(==)>(us: Option<seq<Update<V>>>): Option<seq<Update<V>>> {
    if us.None? || |us.value| != |NamesOf(us.value)| || us.value == [] then None else us
  }

  /** _balance_updates */
  function BalanceUpdates(e: Event): Option<seq<Update<Balance>>> {
    match e
    case BinanceBalances(l) => CollectAll(ItemsOf(l), BinanceUpdate)
    case BybitBalances(l) => CollectAll(GroupedItemsOf(l), BybitUpdate)
    case OkxBalances(l) => CollectAll(GroupedItemsOf(l), OkxUpdate)
    case _ => None
  }

  /** _position_updates */
  function PositionUpdates(e: Event): Option<seq<Update<int>>> {
    match e
    case BybitPositions(l) => CollectAll(ItemsOf(l), BybitPositionUpdate)
    case OkxPositions(l) => CollectAll(ItemsOf(l), OkxPositionUpdate)
    case _ => None
  }

  predicate IsBalanceEvent(e: Event) {
    e.BinanceBalances? || e.BybitBalances? || e.OkxBalances? || e.MockBalances?
  }

  predicate IsPositionEvent(e: Event) {
    e.BybitPositions? || e.OkxPositions? || e.BinancePositions? || e.MockPositions?
  }

  // ---- the tables -----------------------------------------------------------------------------

  /** Rows are unique per account and asset, or per account and symbol. */
  type Key = (nat, string)

  datatype Tables = Tables(balances: map<Key, Balance>, positions: map<Key, int>)

  datatype Outcome = Rejected | Ignored | Synced(balances: nat, positions: nat)

  datatype Delivery = Delivery(user: nat, account: nat, event: Event)

  function Upserted<V>(t: map<Key, V>, a: nat, us: seq<Update<V>>): map<Key, V> {
    if us == [] then t
    else
      var last := us[|us| - 1];
      Upserted(t, a, us[..|us| - 1])[(a, last.name) := last.value]
  }

  /** _require_testnet_account */
  predicate Admits(accounts: seq<Ledger.Account>, d: Delivery) {
    && d.account < |accounts|
    && var account := accounts[d.account];
       && account.owner == d.user && account.active
       && account.mode == Ledger.Testnet && account.exchange == ExchangeOf(d.event)
  }

  /** The balances a delivery writes; nothing if it is refused or carries none. */
  function AcceptedBalances(accounts: seq<Ledger.Account>, d: Delivery): seq<Update<Balance>> {
    var us := BalanceUpdates(d.event);
    if Admits(accounts, d) && us.Some? then us.value else []
  }

  function AcceptedPositions(accounts: seq<Ledger.Account>, d: Delivery): seq<Update<int>> {
    var us := PositionUpdates(d.event);
    if Admits(accounts, d) && us.Some? then us.value else []
  }

  /** sync_testnet_account_state_event */
  function OutcomeOf(accounts: seq<Ledger.Account>, d: Delivery): Outcome {
    if !Admits(accounts, d) then Rejected
    else if IsBalanceEvent(d.event) then
      var us := BalanceUpdates(d.event);
      if us.None? then Rejected else Synced(|us.value|, 0)
    else if IsPositionEvent(d.event) then
      var us := PositionUpdates(d.event);
      if us.None? then Rejected else Synced(0, |us.value|)
    else Ignored
  }

  function Sync(accounts: seq<Ledger.Account>, t: Tables, d: Delivery): Tables {
    Tables(
      Upserted(t.balances, d.account, AcceptedBalances(accounts, d)),
      Upserted(t.positions, d.account, AcceptedPositions(accounts, d)))
  }

  // ---- what one delivery does -------------------------------------------------------------------

  predicate Distinct<V>(us: seq<Update<V>>) {
    forall i, j :: 0 <= i < j < |us| ==> us[i].name != us[j].name
  }

  lemma {:induction false} NamesBounded<V>(us: seq<Update<V>>)
    ensures |NamesOf(us)| <= |us|
    ensures |NamesOf(us)| == |us| ==> Distinct(us)
  {
    if us == [] {
      assert NamesOf(us) == {};
    } else {
      var front, last := us[..|us| - 1], us[|us| - 1];
      NamesBounded(front);
      assert us == front + [last];
      assert NamesOf(us) == NamesOf(front) + {last.name};
      if |NamesOf(us)| == |us| {
        assert last.name !in NamesOf(front);
        forall i | 0 <= i < |front| ensures us[i].name != last.name {
          assert us[i] == front[i] && front[i] in front && front[i].name in NamesOf(front);
        }
      }
    }
  }

  /** Distinct updates land each in its own row; every other row is untouched. */
  lemma {:induction false} UpsertedRows<V>(t: map<Key, V>, a: nat, us: seq<Update<V>>)
    requires Distinct(us)
    ensures forall u :: u in us ==> (a, u.name) in Upserted(t, a, us) && Upserted(t, a, us)[(a, u.name)] == u.value
    ensures forall k :: !Writes(a, us, k) ==> (k in Upserted(t, a, us) <==> k in t)
    ensures forall k :: !Writes(a, us, k) && k in t ==> Upserted(t, a, us)[k] == t[k]
  {
    if us != [] {
      var front, last := us[..|us| - 1], us[|us| - 1];
      UpsertedRows(t, a, front);
      forall u | u in us ensures u == last || (u in front && u.name != last.name) {
        var i :| 0 <= i < |us| && us[i] == u;
        if i < |us| - 1 { assert front[i] == u; }
      }
      assert last in us;
      forall k ensures Writes(a, us, k) <==> Writes(a, front, k) || k == (a, last.name) {
      }
    }
  }

  ghost predicate Writes<V>(a: nat, us: seq<Update<V>>, k: Key) {
    k.0 == a && exists u :: u in us && u.name == k.1
  }

  lemma AcceptedAreDistinct(accounts: seq<Ledger.Account>, d: Delivery)
    ensures Distinct(AcceptedBalances(accounts, d)) && Distinct(AcceptedPositions(accounts, d))
  {
    NamesBounded(AcceptedBalances(accounts, d));
    NamesBounded(AcceptedPositions(accounts, d));
  }

  /** All or nothing: a delivery that is not synced changes no row, and one that is writes the
      rows of its own account that it names, each with the value it carries, and nothing else. */
  lemma SyncIsAtomic(accounts: seq<Ledger.Account>, t: Tables, d: Delivery)
    ensures var r := Sync(accounts, t, d);
            var bs, ps := AcceptedBalances(accounts, d), AcceptedPositions(accounts, d);
            && (!OutcomeOf(accounts, d).Synced? <==> bs == [] && ps == [])
            && (!OutcomeOf(accounts, d).Synced? ==> r == t)
            && (OutcomeOf(accounts, d).Synced? ==> OutcomeOf(accounts, d) == Synced(|bs|, |ps|))
            && (bs == [] || ps == [])
            && (forall u :: u in bs ==> (d.account, u.name) in r.balances && r.balances[(d.account, u.name)] == u.value)
            && (forall u :: u in ps ==>
                   (d.account, u.name) in r.positions && r.positions[(d.account, u.name)] == u.value)
            && (forall k :: !Writes(d.account, bs, k) ==> SameRow(t.balances, r.balances, k))
            && (forall k :: !Writes(d.account, ps, k) ==> SameRow(t.positions, r.positions, k))
  {
    AcceptedAreDistinct(accounts, d);
    UpsertedRows(t.balances, d.account, AcceptedBalances(accounts, d));
    UpsertedRows(t.positions, d.account, AcceptedPositions(accounts, d));
  }

  predicate SameRow<V(==)>(t: map<Key, V>, r: map<Key, V>, k: Key) {
    (k in t <==> k in r) && (k in t ==> t[k] == r[k])
  }

  // ---- order and repetition -----------------------------------------------------------------------

  ghost predicate SameItems<T>(x: Option<seq<T>>, y: Option<seq<T>>) {
    (x.None? && y.None?) || (x.Some? && y.Some? && multiset(x.value) == multiset(y.value))
  }

  /** The same items in another order, and for grouped payloads in other groups. */
  ghost predicate Reordered(e: Event, f: Event) {
    match (e, f)
    case (BinanceBalances(x), BinanceBalances(y)) => SameItems(ItemsOf(x), ItemsOf(y))
    case (BybitBalances(x), BybitBalances(y)) => SameItems(GroupedItemsOf(x), GroupedItemsOf(y))
    case (OkxBalances(x), OkxBalances(y)) => SameItems(GroupedItemsOf(x), GroupedItemsOf(y))
    case (BybitPositions(x), BybitPositions(y)) => SameItems(ItemsOf(x), ItemsOf(y))
    case (OkxPositions(x), OkxPositions(y)) => SameItems(ItemsOf(x), ItemsOf(y))
    case _ => e == f
  }

  ghost predicate SameUpdates<V(!new)>(us: Option<seq<Update<V>>>, vs: Option<seq<Update<V>>>) {
    || us == vs
    || (us.Some? && vs.Some? && |us.value| == |vs.value| && forall u :: u in us.value <==> u in vs.value)
  }

  lemma CollectIgnoresOrder<A, V(!new)>(s: seq<A>, t: seq<A>, build: A -> Option<Update<V>>)
    requires multiset(s) == multiset(t)
    ensures SameUpdates(Collect(s, build), Collect(t, build))
  {
    PermutationKeepsMembers(s, t);
    assert |s| == |multiset(s)| == |multiset(t)| == |t|;
    CollectedFromMembers(s, t, build);
    CollectedFromMembers(t, s, build);
  }

  lemma CollectedFromMembers<A, V>(s: seq<A>, t: seq<A>, build: A -> Option<Update<V>>)
    requires forall x :: x in s ==> x in t
    ensures Collect(t, build).Some? ==> Collect(s, build).Some?
    ensures Collect(t, build).Some? ==> forall u :: u in Collect(s, build).value ==> u in Collect(t, build).value
  {
    if Collect(t, build).Some? {
      forall i | 0 <= i < |s| ensures build(s[i]).Some? && build(s[i]).value in Collect(t, build).value {
        assert s[i] in t;
        var j :| 0 <= j < |t| && t[j] == s[i];
        assert Collect(t, build).value[j] == build(t[j]).value;
      }
    }
  }

  lemma CheckedIgnoresOrder<V(!new)>(us: Option<seq<Update<V>>>, vs: Option<seq<Update<V>>>)
    requires SameUpdates(us, vs)
    ensures SameUpdates(Checked(us), Checked(vs))
  {
    if us.Some? && vs.Some? {
      assert NamesOf(us.value) == NamesOf(vs.value);
      assert us.value == [] <==> vs.value == [];
    }
  }

  lemma CollectAllIgnoresOrder<A, V(!new)>(x: Option<seq<A>>, y: Option<seq<A>>, build: A -> Option<Update<V>>)
    requires SameItems(x, y)
    ensures SameUpdates(CollectAll(x, build), CollectAll(y, build))
  {
    if x.Some? {
      CollectIgnoresOrder(x.value, y.value, build);
      CheckedIgnoresOrder(Collect(x.value, build), Collect(y.value, build));
    }
  }

  lemma UpdatesIgnoreOrder(e: Event, f: Event)
    requires Reordered(e, f)
    ensures SameUpdates(BalanceUpdates(e), BalanceUpdates(f)) && SameUpdates(PositionUpdates(e), PositionUpdates(f))
  {
    match (e, f)
    case (BinanceBalances(x), BinanceBalances(y)) => CollectAllIgnoresOrder(ItemsOf(x), ItemsOf(y), BinanceUpdate);
    case (BybitBalances(x), BybitBalances(y)) => CollectAllIgnoresOrder(GroupedItemsOf(x), GroupedItemsOf(y),
        BybitUpdate);
    case (OkxBalances(x), OkxBalances(y)) => CollectAllIgnoresOrder(GroupedItemsOf(x), GroupedItemsOf(y), OkxUpdate);
    case (BybitPositions(x), BybitPositions(y)) => CollectAllIgnoresOrder(ItemsOf(x), ItemsOf(y), BybitPositionUpdate);
    case (OkxPositions(x), OkxPositions(y)) => CollectAllIgnoresOrder(ItemsOf(x), ItemsOf(y), OkxPositionUpdate);
    case _ =>
  }

  lemma UpsertedIgnoresOrder<V(!new)>(t: map<Key, V>, a: nat, us: seq<Update<V>>, vs: seq<Update<V>>)
    requires Distinct(us) && Distinct(vs) && forall u :: u in us <==> u in vs
    ensures Upserted(t, a, us) == Upserted(t, a, vs)
  {
    UpsertedRows(t, a, us);
    UpsertedRows(t, a, vs);
    forall k ensures Writes(a, us, k) <==> Writes(a, vs, k) {
    }
    forall k | Writes(a, us, k)
      ensures k in Upserted(t, a, us) && k in Upserted(t, a, vs) && Upserted(t, a, us)[k] == Upserted(t, a, vs)[k]
    {
      var u :| u in us && u.name == k.1;
      assert k == (a, u.name);
    }
    assert Upserted(t, a, us).Keys == Upserted(t, a, vs).Keys;
  }

  /** The order and the grouping of an event's items never matter, not even to whether it is
      accepted. */
  lemma OrderOfItemsIrrelevant(accounts: seq<Ledger.Account>, t: Tables, d: Delivery, f: Event)
    requires Reordered(d.event, f)
    ensures Sync(accounts, t, d) == Sync(accounts, t, d.(event := f))
    ensures OutcomeOf(accounts, d) == OutcomeOf(accounts, d.(event := f))
  {
    var d' := d.(event := f);
    UpdatesIgnoreOrder(d.event, f);
    assert Admits(accounts, d) <==> Admits(accounts, d');
    AcceptedAreDistinct(accounts, d);
    AcceptedAreDistinct(accounts, d');
    UpsertedIgnoresOrder(t.balances, d.account, AcceptedBalances(accounts, d), AcceptedBalances(accounts, d'));
    UpsertedIgnoresOrder(t.positions, d.account, AcceptedPositions(accounts, d), AcceptedPositions(accounts, d'));
  }

  // ---- runs -----------------------------------------------------------------------------------------

  /** A delivery and the account rows it meets; between two deliveries any of them may change. */
  datatype Meeting = Meeting(accounts: seq<Ledger.Account>, delivery: Delivery)

  function SyncAll(t: Tables, ms: seq<Meeting>): Tables {
    if ms == [] then t
    else
      var last := ms[|ms| - 1];
      Sync(last.accounts, SyncAll(t, ms[..|ms| - 1]), last.delivery)
  }

  /** The value the last update of that name carries. */
  function ValueFor<V>(us: seq<Update<V>>, name: string): (r: Option<V>)
    ensures r.Some? ==> exists u :: u in us && u.name == name && u.value == r.value
    ensures r.None? ==> forall u :: u in us ==> u.name != name
  {
    if us == [] then None
    else if us[|us| - 1].name == name then Some(us[|us| - 1].value)
    else ValueFor(us[..|us| - 1], name)
  }

  /** What the last accepted delivery naming the row said about it. */
  function LastBalance(ms: seq<Meeting>, k: Key): Option<Balance> {
    if ms == [] then None
    else
      var m := ms[|ms| - 1];
      var v := if m.delivery.account == k.0 then ValueFor(AcceptedBalances(m.accounts, m.delivery), k.1) else None;
      if v.Some? then v else LastBalance(ms[..|ms| - 1], k)
  }

  function LastPosition(ms: seq<Meeting>, k: Key): Option<int> {
    if ms == [] then None
    else
      var m := ms[|ms| - 1];
      var v := if m.delivery.account == k.0 then ValueFor(AcceptedPositions(m.accounts, m.delivery), k.1) else None;
      if v.Some? then v else LastPosition(ms[..|ms| - 1], k)
  }

  predicate RowIs<V(==)>(t: map<Key, V>, before: map<Key, V>, k: Key, written: Option<V>) {
    if written.Some? then k in t && t[k] == written.value else SameRow(before, t, k)
  }

  lemma {:induction false} UpsertedRow<V>(t: map<Key, V>, a: nat, us: seq<Update<V>>, k: Key)
    ensures RowIs(Upserted(t, a, us), t, k, if a == k.0 then ValueFor(us, k.1) else None)
  {
    if us != [] { UpsertedRow(t, a, us[..|us| - 1], k); }
  }

  /** After any run of deliveries every row says what the last accepted delivery naming it said,
      and rows never named are as they were. */
  lemma {:induction false} TablesHoldLastWord(t: Tables, ms: seq<Meeting>, k: Key)
    ensures RowIs(SyncAll(t, ms).balances, t.balances, k, LastBalance(ms, k))
    ensures RowIs(SyncAll(t, ms).positions, t.positions, k, LastPosition(ms, k))
  {
    if ms != [] {
      var front, m := ms[..|ms| - 1], ms[|ms| - 1];
      var d := m.delivery;
      TablesHoldLastWord(t, front, k);
      UpsertedRow(SyncAll(t, front).balances, d.account, AcceptedBalances(m.accounts, d), k);
      UpsertedRow(SyncAll(t, front).positions, d.account, AcceptedPositions(m.accounts, d), k);
    }
  }

  /** Delivering the latest event again changes nothing, whatever came before. */
  lemma RedeliveryIsHarmless(accounts: seq<Ledger.Account>, t: Tables, d: Delivery)
    ensures Sync(accounts, Sync(accounts, t, d), d) == Sync(accounts, t, d)
  {
    var r := Sync(accounts, t, d);
    var s := Sync(accounts, r, d);
    forall k ensures SameRow(r.balances, s.balances, k) && SameRow(r.positions, s.positions, k) {
      UpsertedRow(t.balances, d.account, AcceptedBalances(accounts, d), k);
      UpsertedRow(r.balances, d.account, AcceptedBalances(accounts, d), k);
      UpsertedRow(t.positions, d.account, AcceptedPositions(accounts, d), k);
      UpsertedRow(r.positions, d.account, AcceptedPositions(accounts, d), k);
    }
    SameRowsSameMap(r.balances, s.balances);
    SameRowsSameMap(r.positions, s.positions);
  }

  lemma SameRowsSameMap<V>(t: map<Key, V>, r: map<Key, V>)
    requires forall k :: SameRow(t, r, k)
    ensures t == r
  {
    forall k: Key ensures k in t <==> k in r {
      assert SameRow(t, r, k);
    }
    forall k | k in t ensures t[k] == r[k] {
      assert SameRow(t, r, k);
    }
  }

  // ---- balances ----------------------------------------------------------------------------------------

  /** What a synced balance keeps. A Binance total is the rounded sum of its parts, and only
      there can it reach 10^18; elsewhere, and below 10^18, it covers them. */
  predicate Shaped(x: OrderStateMachine.Exchange, b: Balance) {
    && 0 <= b.available < LIMIT && 0 <= b.locked < LIMIT && 0 <= b.total
    && (b.total < LIMIT ==> b.available + b.locked <= b.total)
    && (if x == OrderStateMachine.Binance then b.total == Rounded(b.available + b.locked) else b.total < LIMIT)
  }

  lemma BinanceShaped(b: BinanceBalance)
    requires BinanceUpdate(b).Some?
    ensures Shaped(OrderStateMachine.Binance, BinanceUpdate(b).value.value)
  {
    QuantityAcceptsExactly(b.f, true);
    QuantityAcceptsExactly(b.l, true);
  }

  lemma BybitShaped(c: BybitCoin)
    requires BybitUpdate(c).Some?
    ensures Shaped(OrderStateMachine.Bybit, BybitUpdate(c).value.value)
  {
    QuantityAcceptsExactly(c.walletBalance, true);
    QuantityAcceptsExactly(OrZero(c.locked), true);
  }

  lemma OkxShaped(d: OkxDetail)
    requires OkxUpdate(d).Some?
    ensures Shaped(OrderStateMachine.Okx, OkxUpdate(d).value.value)
  {
    QuantityAcceptsExactly(d.availBal, true);
    QuantityAcceptsExactly(OrZero(d.frozenBal), true);
    QuantityAcceptsExactly(d.cashBal, true);
  }

  lemma CollectedFrom<A, V>(items: seq<A>, build: A -> Option<Update<V>>, u: Update<V>) returns (x: A)
    requires Collect(items, build).Some? && u in Collect(items, build).value
    ensures x in items && build(x) == Some(u)
  {
    var i :| 0 <= i < |items| && Collect(items, build).value[i] == u;
    x := items[i];
  }

  lemma UpdatesShaped(e: Event, u: Update<Balance>)
    requires BalanceUpdates(e).Some? && u in BalanceUpdates(e).value
    ensures Shaped(ExchangeOf(e), u.value)
  {
    match e
    case BinanceBalances(l) =>
      var b := CollectedFrom(l.items, BinanceUpdate, u);
      BinanceShaped(b);
    case BybitBalances(l) =>
      var c := CollectedFrom(Flatten(l.items).value, BybitUpdate, u);
      BybitShaped(c);
    case OkxBalances(l) =>
      var d := CollectedFrom(Flatten(l.items).value, OkxUpdate, u);
      OkxShaped(d);
  }

  /** Every balance is shaped for the exchange of its account. */
  predicate AllShaped(x: nat -> OrderStateMachine.Exchange, t: Tables) {
    forall k :: k in t.balances ==> Shaped(x(k.0), t.balances[k])
  }

  /** Modes, flags and owners may change as they will; an account's exchange never does. */
  ghost predicate OnExchanges(x: nat -> OrderStateMachine.Exchange, accounts: seq<Ledger.Account>) {
    forall a :: 0 <= a < |accounts| ==> accounts[a].exchange == x(a)
  }

  /** Every balance in every reachable table is shaped: no negative part, and the parts never
      exceed the total as long as the total fits the column. */
  lemma {:induction false} BalancesStayShaped(x: nat -> OrderStateMachine.Exchange, t: Tables, ms: seq<Meeting>)
    requires AllShaped(x, t) && forall i :: 0 <= i < |ms| ==> OnExchanges(x, ms[i].accounts)
    ensures AllShaped(x, SyncAll(t, ms))
  {
    if ms != [] {
      var front, m := ms[..|ms| - 1], ms[|ms| - 1];
      var d := m.delivery;
      BalancesStayShaped(x, t, front);
      var before, after := SyncAll(t, front), SyncAll(t, ms);
      forall k | k in after.balances ensures Shaped(x(k.0), after.balances[k]) {
        UpsertedRow(before.balances, d.account, AcceptedBalances(m.accounts, d), k);
        var v := if d.account == k.0 then ValueFor(AcceptedBalances(m.accounts, d), k.1) else None;
        if v.Some? {
          var u :| u in AcceptedBalances(m.accounts, d) && u.name == k.1 && u.value == v.value;
          UpdatesShaped(d.event, u);
          assert OnExchanges(x, m.accounts);
        }
      }
    }
  }

  lemma RoundedCoversIff(n: nat)
    ensures n <= Rounded(n) <==> RoundsNotDown(n)
  {
  }

  /** A Binance row covers its parts exactly when the 28-digit sum was not rounded down. */
  lemma BinanceTotalCoversIff(b: BinanceBalance)
    requires BinanceUpdate(b).Some?
    ensures var v := BinanceUpdate(b).value.value;
            v.available + v.locked <= v.total <==> RoundsNotDown(v.available + v.locked)
  {
    var v := BinanceUpdate(b).value.value;
    QuantityAcceptsExactly(b.f, true);
    QuantityAcceptsExactly(b.l, true);
    RoundedCoversIff(v.available + v.locked);
  }

  /** Rounding moves a sum by at most five units, to a multiple of ten if at all. */
  lemma RoundedIsNear(n: nat)
    ensures Rounded(n) - 5 <= n <= Rounded(n) + 5
    ensures n >= LIMIT ==> Rounded(n) % 10 == 0
    ensures n % 10 == 5 && n / 10 % 2 == 1 ==> n <= Rounded(n)
  {
  }

  lemma RoundedReachesTwice(n: nat)
    requires n < 2 * LIMIT
    ensures Rounded(n) <= 2 * LIMIT
    ensures Rounded(n) < 2 * LIMIT <==> n < 2 * LIMIT - 5
  {
    RoundedIsNear(n);
    if n >= 2 * LIMIT - 5 {
      var tens := 2 * LIMIT / 10 - 1;
      assert n / 10 == tens && tens % 2 == 1;
    }
  }

  /** A Binance total stays below 2 * 10^18 exactly when its parts add up to more than five units
      of 10^-10 less than that; it never exceeds 2 * 10^18. */
  lemma BinanceTotalBelowBoundIff(b: BinanceBalance)
    requires BinanceUpdate(b).Some?
    ensures var v := BinanceUpdate(b).value.value;
            && v.total <= 2 * LIMIT
            && (v.total < 2 * LIMIT <==> v.available + v.locked < 2 * LIMIT - 5)
  {
    BinanceShaped(b);
    RoundedReachesTwice(BinanceUpdate(b).value.value.available + BinanceUpdate(b).value.value.locked);
  }

  /** Two parts of 999999999999999999.9999999999 add up to a stored total of 2 * 10^18: rounding
      makes the bound attainable although each part is below half of it. */
  lemma BinanceTotalReachesBound()
    ensures var b := BinanceBalance(TextField("BTC"), Number(LIMIT - 1, -10), Number(LIMIT - 1, -10));
            BinanceUpdate(b).Some? && BinanceUpdate(b).value.value.total == 2 * LIMIT
  {
    QuantityAcceptsExactly(Number(LIMIT - 1, -10), true);
    assert Pow10(0) == 1;
    assert Text.Strip("BTC") == "BTC";
    assert Text.Upper("BTC") == "BTC";
  }

  /** 999999999999999999.9999999999 and 0.0000000002: the stored total is below their sum. */
  lemma BinanceTotalCanFallShort()
    ensures var b := BinanceBalance(TextField("BTC"), Number(LIMIT - 1, -10), Number(2, -10));
            && BinanceUpdate(b).Some?
            && BinanceUpdate(b).value.value.total < BinanceUpdate(b).value.value.available +
                   BinanceUpdate(b).value.value.locked
  {
    var big, small := Number(LIMIT - 1, -10), Number(2, -10);
    QuantityAcceptsExactly(big, true);
    QuantityAcceptsExactly(small, true);
    assert Pow10(0) == 1;
    assert Text.Strip("BTC") == "BTC";
    assert Text.Upper("BTC") == "BTC";
  }

  // ---- the code's own loops --------------------------------------------------------------------------------

  lemma {:induction false} FlattenPrefix<T>(groups: seq<Listed<T>>, i: nat)
    requires i <= |groups|
    ensures Flatten(groups[..i]).None? ==> Flatten(groups).None?
    ensures Flatten(groups).Some? ==> Flatten(groups[..i]).Some? && Flatten(groups[..i]).value <= Flatten(groups).value
    decreases |groups| - i
  {
    if i == |groups| {
      assert groups[..i] == groups;
    } else {
      FlattenPrefix(groups, i + 1);
      assert groups[..i + 1][..i] == groups[..i];
    }
  }

  lemma CollectGrows<A, V>(items: seq<A>, x: A, build: A -> Option<Update<V>>, rows: seq<Update<V>>)
    requires Collect(items, build) == Some(rows)
    ensures Collect(items + [x], build) == if build(x).None? then None else Some(rows + [build(x).value])
  {
    var longer := items + [x];
    assert longer[|items|] == x;
    assert forall i :: 0 <= i < |items| ==> longer[i] == items[i] && build(items[i]).Some?;
    if build(x).Some? {
      assert Collect(longer, build).value == rows + [build(x).value];
    }
  }

  /** The builder loops: items in order, the first refused one stops. */
  method BinanceRows(l: Listed<BinanceBalance>) returns (us: Option<seq<Update<Balance>>>)
    ensures us == if l.Malformed? then None else Collect(l.items, BinanceUpdate)
  {
    if l.Malformed? { return None; }
    var rows: seq<Update<Balance>> := [];
    assert Collect<BinanceBalance, Balance>([], BinanceUpdate).value == [];
    for i := 0 to |l.items|
      invariant Collect(l.items[..i], BinanceUpdate) == Some(rows)
    {
      var built := BinanceUpdate(l.items[i]);
      CollectGrows(l.items[..i], l.items[i], BinanceUpdate, rows);
      assert l.items[..i + 1] == l.items[..i] + [l.items[i]];
      if built.None? { return None; }
      rows := rows + [built.value];
    }
    assert l.items[..|l.items|] == l.items;
    return Some(rows);
  }

  /** The nested loops shared by the Bybit and OKX balance builders. */
  method GroupedRows<T>(l: Listed<Listed<T>>, build: T -> Option<Update<Balance>>)
      returns (us: Option<seq<Update<Balance>>>)
    ensures us == if GroupedItemsOf(l).None? then None else Collect(GroupedItemsOf(l).value, build)
  {
    if l.Malformed? { return None; }
    var rows: seq<Update<Balance>> := [];
    assert Collect<T, Balance>([], build).value == [];
    for i := 0 to |l.items|
      invariant Flatten(l.items[..i]).Some? && Collect(Flatten(l.items[..i]).value, build) == Some(rows)
    {
      ghost var done := Flatten(l.items[..i]).value;
      FlattenPrefix(l.items, i + 1);
      assert l.items[..i + 1][..i] == l.items[..i];
      if l.items[i].Malformed? { return None; }
      var group := l.items[i].items;
      assert done + group[..0] == done;
      for j := 0 to |group|
        invariant Collect(done + group[..j], build) == Some(rows)
      {
        var built := build(group[j]);
        CollectGrows(done + group[..j], group[j], build, rows);
        assert done + group[..j + 1] == done + group[..j] + [group[j]];
        assert (done + group)[|done| + j] == group[j];
        if built.None? { return None; }
        rows := rows + [built.value];
      }
      assert group[..|group|] == group;
    }
    assert l.items[..|l.items|] == l.items;
    return Some(rows);
  }

  /** The two tables, changed row by row. */
  class AccountState {
    var balances: map<Key, Balance>
    var positions: map<Key, int>

    ghost function State(): Tables
      reads this
    {
      Tables(balances, positions)
    }

    constructor ()
      ensures State() == Tables(map[], map[])
    {
      balances, positions := map[], map[];
    }

    method UpsertBalances(a: nat, us: seq<Update<Balance>>)
      modifies this`balances
      ensures balances == Upserted(old(balances), a, us)
    {
      for i := 0 to |us|
        invariant balances == Upserted(old(balances), a, us[..i])
      {
        assert us[..i + 1][..i] == us[..i];
        balances := balances[(a, us[i].name) := us[i].value];
      }
      assert us[..|us|] == us;
    }

    method UpsertPositions(a: nat, us: seq<Update<int>>)
      modifies this`positions
      ensures positions == Upserted(old(positions), a, us)
    {
      for i := 0 to |us|
        invariant positions == Upserted(old(positions), a, us[..i])
      {
        assert us[..i + 1][..i] == us[..i];
        positions := positions[(a, us[i].name) := us[i].value];
      }
      assert us[..|us|] == us;
    }

    /** `accounts` are the account rows as they are when the event comes in. */
    method SyncEvent(accounts: seq<Ledger.Account>, user: nat, a: nat, event: Event) returns (outcome: Outcome)
      modifies this
      ensures State() == Sync(accounts, old(State()), Delivery(user, a, event))
      ensures outcome == OutcomeOf(accounts, Delivery(user, a, event))
    {
      if !Admits(accounts, Delivery(user, a, event)) { return Rejected; }
      if IsBalanceEvent(event) {
        var rows: Option<seq<Update<Balance>>> := None;
        match event {
          case BinanceBalances(l) => rows := BinanceRows(l);
          case BybitBalances(l) => rows := GroupedRows(l, BybitUpdate);
          case OkxBalances(l) => rows := GroupedRows(l, OkxUpdate);
          case _ =>
        }
        rows := Checked(rows);
        if rows.None? { return Rejected; }
        UpsertBalances(a, rows.value);
        return Synced(|rows.value|, 0);
      }
      if IsPositionEvent(event) {
        var rows := PositionUpdates(event);
        if rows.None? { return Rejected; }
        UpsertPositions(a, rows.value);
        return Synced(0, |rows.value|);
      }
      return Ignored;
    }
  }
}
