/** Account snapshots against the numbers and names the exchange sent: which events are synced, and
    that what is then stored is worth exactly what was sent. */
module SyncedValues {
  import opened Common
  import opened AccountSync
  import Ledger
  import Text

  // ---- what is stored, in the event's own numbers ---------------------------------------------

  /** 10^e, also for negative exponents. */
  function Power(e: int): (r: real)
    ensures r > 0.0
    decreases if e < 0 then -e else e
  {
    if e == 0 then 1.0 else if e > 0 then 10.0 * Power(e - 1) else Power(e + 1) / 10.0
  }

  /** The number an item spells. */
  function Worth(r: Raw): real
    requires r.Number?
  {
    r.coefficient as real * Power(r.exponent)
  }

  const UNIT := 10_000_000_000.0

  lemma {:induction false} ScaledPower(e: int)
    requires e >= -10
    ensures Pow10(e + 10) as real == Power(e) * UNIT
    decreases e + 10
  {
    if e == -10 {
      assert Power(-5) == 0.00001;
      assert Power(-10) == 0.0000000001;
    } else {
      ScaledPower(e - 1);
      PowerStep(e - 1);
    }
  }

  lemma PowerStep(e: int)
    ensures Power(e + 1) == 10.0 * Power(e)
  {
  }

  lemma Reassociated(c: real, p: real, q: real, u: real)
    requires p == q * u
    ensures c * p == c * q * u
  {
  }

  lemma ProductAsReal(a: int, b: nat)
    ensures (a * b) as real == a as real * b as real
  {
  }

  lemma ScaledWorth(c: int, p: nat, q: real, u: real)
    requires p as real == q * u
    ensures (c * p) as real == c as real * q * u
  {
    ProductAsReal(c, p);
    Reassociated(c as real, p as real, q, u);
  }

  lemma WorthScaled(r: Raw, v: int, p: nat)
    requires r.Number? && p as real == Power(r.exponent) * UNIT && v == r.coefficient * p
    ensures v as real == Worth(r) * UNIT
  {
    ScaledWorth(r.coefficient, p, Power(r.exponent), UNIT);
  }

  lemma QuantityScales(r: Raw, nonnegative: bool)
    requires Quantity(r, nonnegative).Some?
    ensures r.Number? && r.exponent >= -10
    ensures Quantity(r, nonnegative).value == r.coefficient * Pow10(r.exponent + 10)
  {
  }

  /** A quantity that is accepted is kept at its exact worth, in units of 10^-10. */
  lemma QuantityKeepsWorth(r: Raw, nonnegative: bool)
    requires Quantity(r, nonnegative).Some?
    ensures Quantity(r, nonnegative).value as real == Worth(r) * UNIT
  {
    QuantityScales(r, nonnegative);
    ScaledPower(r.exponent);
    WorthScaled(r, Quantity(r, nonnegative).value, Pow10(r.exponent + 10));
  }

  lemma TimesTen(c: int, p: int)
    ensures 10 * c * p == c * (10 * p)
  {
  }

  /** Two spellings of one number are stored the same; ten decimals are stored as they are. */
  lemma SpellingsStoredTheSame(c: int, e: int, nonnegative: bool)
    requires e >= -10
    ensures Quantity(Number(10 * c, e), nonnegative) == Quantity(Number(c, e + 1), nonnegative)
    ensures Quantity(Number(c, -10), nonnegative).Some? ==> Quantity(Number(c, -10), nonnegative).value == c
  {
    TimesTen(c, Pow10(e + 10));
    assert 10 * c * Pow10(e + 10) == c * Pow10(e + 1 + 10);
    QuantityAcceptsExactly(Number(c, e + 1), nonnegative);
    QuantityAcceptsExactly(Number(10 * c, e), nonnegative);
    TimesOne(c);
  }

  lemma TimesOne(c: int)
    ensures c * Pow10(-10 + 10) == c
  {
  }

  /** The name of a row: the text stripped and in upper case, one to forty letters, digits, dashes
      and underscores. */
  predicate Names(f: Field, name: string) {
    && f.TextField? && name == Text.Normalized(f.text) && 1 <= |name| <= 40
    && forall i :: 0 <= i < |name| ==>
         'A' <= name[i] <= 'Z' || '0' <= name[i] <= '9' || name[i] == '-' || name[i] == '_'
  }

  lemma IdentifierNames(f: Field, name: string)
    ensures Identifier(f) == Some(name) <==> Names(f, name)
  {
    if f.TextField? {
      var s := Text.Normalized(f.text);
      Text.UpperIsUpper(Text.Strip(f.text));
      assert forall i :: 0 <= i < |s| ==> !Text.IsLower(s[i]);
    }
  }

  /** `v` units are worth what `r` spells. */
  predicate Keeps(r: Raw, v: int) {
    r.Number? && v as real == Worth(r) * UNIT
  }

  lemma QuantityKeeps(r: Raw, nonnegative: bool)
    ensures Quantity(r, nonnegative).Some? ==> Keeps(r, Quantity(r, nonnegative).value)
    ensures Quantity(r, nonnegative).Some? && nonnegative ==> Worth(r) >= 0.0
  {
    if Quantity(r, nonnegative).Some? {
      QuantityKeepsWorth(r, nonnegative);
      if nonnegative { WorthSign(r); }
    }
  }

  lemma WorthSign(r: Raw)
    requires r.Number? && r.coefficient >= 0
    ensures Worth(r) >= 0.0
  {
  }

  lemma BinanceStored(b: BinanceBalance)
    requires BinanceUpdate(b).Some?
    ensures var u := BinanceUpdate(b).value;
            && Names(b.a, u.name) && Keeps(b.f, u.value.available) && Keeps(b.l, u.value.locked)
  {
    IdentifierNames(b.a, BinanceUpdate(b).value.name);
    QuantityKeeps(b.f, true);
    QuantityKeeps(b.l, true);
  }

  lemma BybitStored(c: BybitCoin)
    requires BybitUpdate(c).Some?
    ensures var u := BybitUpdate(c).value;
            && Names(c.coin, u.name) && Keeps(c.walletBalance, u.value.total)
            && (if c.locked.Some? then Keeps(c.locked.value, u.value.locked) else u.value.locked == 0)
            && u.value.available == u.value.total - u.value.locked
  {
    IdentifierNames(c.coin, BybitUpdate(c).value.name);
    QuantityKeeps(c.walletBalance, true);
    QuantityKeeps(OrZero(c.locked), true);
  }

  lemma OkxStored(d: OkxDetail)
    requires OkxUpdate(d).Some?
    ensures var u := OkxUpdate(d).value;
            && Names(d.ccy, u.name) && Keeps(d.availBal, u.value.available) && Keeps(d.cashBal, u.value.total)
            && (if d.frozenBal.Some? then Keeps(d.frozenBal.value, u.value.locked) else u.value.locked == 0)
  {
    IdentifierNames(d.ccy, OkxUpdate(d).value.name);
    QuantityKeeps(d.availBal, true);
    QuantityKeeps(OrZero(d.frozenBal), true);
    QuantityKeeps(d.cashBal, true);
  }

  /** A Bybit position is positive for Buy and negative for Sell. */
  lemma BybitPositionStored(p: BybitPosition)
    ensures BybitPositionUpdate(p).Some? ==>
              var u := BybitPositionUpdate(p).value;
              && Names(p.symbol, u.name) && p.size.Number?
              && u.value as real == (if p.side == Sell then -Worth(p.size) else Worth(p.size)) * UNIT
              && (p.side == Buy ==> u.value >= 0) && (p.side == Sell ==> u.value <= 0)
              && (p.side == EmptySide ==> u.value == 0) && p.side != OtherSide
  {
    if BybitPositionUpdate(p).Some? {
      IdentifierNames(p.symbol, BybitPositionUpdate(p).value.name);
      QuantityKeeps(p.size, true);
    }
  }

  lemma OkxPositionStored(p: OkxPosition)
    requires OkxPositionUpdate(p).Some?
    ensures Names(p.instId, OkxPositionUpdate(p).value.name) && Keeps(p.pos, OkxPositionUpdate(p).value.value)
  {
    IdentifierNames(p.instId, OkxPositionUpdate(p).value.name);
    QuantityKeeps(p.pos, false);
  }

  /** One row, whatever the exchange calls its parts. */
  ghost predicate RowHolds(t: Tables, a: nat, f: Field, good: Balance -> bool) {
    exists name :: Names(f, name) && (a, name) in t.balances && good(t.balances[(a, name)])
  }

  ghost predicate PositionHolds(t: Tables, a: nat, f: Field, worth: real) {
    exists name :: Names(f, name) && (a, name) in t.positions && t.positions[(a, name)] as real == worth * UNIT
  }

  /** What a Bybit position is worth: bought ones positive, sold ones negative. */
  function SignedWorth(p: BybitPosition): real
    requires p.size.Number?
  {
    if p.side == Sell then -Worth(p.size) else Worth(p.size)
  }

  /** After a synced event every item is in the table, under its own name and at its own worth. */
  lemma SyncedBalancesHold(accounts: seq<Ledger.Account>, t: Tables, d: Delivery)
    requires OutcomeOf(accounts, d).Synced?
    ensures d.event.BinanceBalances? ==> forall b :: b in d.event.binance.items ==>
              RowHolds(Sync(accounts, t, d), d.account, b.a, (v: Balance) =>
                Keeps(b.f, v.available) && Keeps(b.l, v.locked))
    ensures d.event.BybitBalances? ==> forall c :: c in Flatten(d.event.wallets.items).value ==>
              RowHolds(Sync(accounts, t, d), d.account, c.coin, (v: Balance) =>
                Keeps(c.walletBalance, v.total) && Keeps(OrZero(c.locked), v.locked)
                && v.available == v.total - v.locked)
    ensures d.event.OkxBalances? ==> forall c :: c in Flatten(d.event.details.items).value ==>
              RowHolds(Sync(accounts, t, d), d.account, c.ccy, (v: Balance) =>
                Keeps(c.availBal, v.available) && Keeps(OrZero(c.frozenBal), v.locked) && Keeps(c.cashBal, v.total))
  {
    SyncIsAtomic(accounts, t, d);
    match d.event
    case BinanceBalances(l) =>
      forall b | b in l.items ensures RowHolds(Sync(accounts, t, d), d.account, b.a, (v: Balance) =>
                Keeps(b.f, v.available) && Keeps(b.l, v.locked)) {
        var u := CollectedFor(l.items, BinanceUpdate, b);
        BinanceStored(b);
        assert Names(b.a, u.name) && u in AcceptedBalances(accounts, d);
      }
    case BybitBalances(l) =>
      forall c | c in Flatten(l.items).value ensures RowHolds(Sync(accounts, t, d), d.account, c.coin, (v: Balance) =>
                Keeps(c.walletBalance, v.total) && Keeps(OrZero(c.locked), v.locked)
                && v.available == v.total - v.locked) {
        var u := CollectedFor(Flatten(l.items).value, BybitUpdate, c);
        BybitStored(c);
        QuantityKeeps(OrZero(c.locked), true);
        assert Names(c.coin, u.name) && u in AcceptedBalances(accounts, d);
      }
    case OkxBalances(l) =>
      forall c | c in Flatten(l.items).value ensures RowHolds(Sync(accounts, t, d), d.account, c.ccy, (v: Balance) =>
                Keeps(c.availBal, v.available) && Keeps(OrZero(c.frozenBal), v.locked) && Keeps(c.cashBal, v.total)) {
        var u := CollectedFor(Flatten(l.items).value, OkxUpdate, c);
        OkxStored(c);
        QuantityKeeps(OrZero(c.frozenBal), true);
        assert Names(c.ccy, u.name) && u in AcceptedBalances(accounts, d);
      }
    case _ =>
  }

  /** The same for positions. */
  lemma SyncedPositionsHold(accounts: seq<Ledger.Account>, t: Tables, d: Delivery)
    requires OutcomeOf(accounts, d).Synced?
    ensures d.event.BybitPositions? ==> forall p :: p in d.event.bybit.items ==>
              p.size.Number? && PositionHolds(Sync(accounts, t, d), d.account, p.symbol, SignedWorth(p))
    ensures d.event.OkxPositions? ==> forall p :: p in d.event.okx.items ==>
              p.pos.Number? && PositionHolds(Sync(accounts, t, d), d.account, p.instId, Worth(p.pos))
  {
    SyncIsAtomic(accounts, t, d);
    match d.event
    case BybitPositions(l) =>
      forall p | p in l.items
        ensures p.size.Number? && PositionHolds(Sync(accounts, t, d), d.account, p.symbol, SignedWorth(p))
      {
        var u := CollectedFor(l.items, BybitPositionUpdate, p);
        BybitPositionStored(p);
        assert Names(p.symbol, u.name) && u in AcceptedPositions(accounts, d);
      }
    case OkxPositions(l) =>
      forall p | p in l.items
        ensures p.pos.Number? && PositionHolds(Sync(accounts, t, d), d.account, p.instId, Worth(p.pos))
      {
        var u := CollectedFor(l.items, OkxPositionUpdate, p);
        OkxPositionStored(p);
        assert Names(p.instId, u.name) && u in AcceptedPositions(accounts, d);
      }
    case _ =>
  }

  lemma CollectedFor<A, V>(items: seq<A>, build: A -> Option<Update<V>>, x: A) returns (u: Update<V>)
    requires Collect(items, build).Some? && x in items
    ensures build(x) == Some(u) && u in Collect(items, build).value
  {
    var i :| 0 <= i < |items| && items[i] == x;
    u := Collect(items, build).value[i];
  }

  // ---- which events are synced ------------------------------------------------------------------

  lemma {:induction false} DistinctNamesCount<V>(us: seq<Update<V>>)
    requires Distinct(us)
    ensures |NamesOf(us)| == |us|
  {
    if us == [] {
      assert NamesOf(us) == {};
    } else {
      var front, last := us[..|us| - 1], us[|us| - 1];
      DistinctNamesCount(front);
      assert us == front + [last];
      assert NamesOf(us) == NamesOf(front) + {last.name};
      assert last.name !in NamesOf(front);
    }
  }

  /** A list of items is accepted exactly if it is one, is not empty, and every item is accepted
      under a name of its own. */
  ghost predicate Acceptable<A(!new), V(!new)>(items: Option<seq<A>>, build: A -> Option<Update<V>>) {
    && items.Some? && items.value != []
    && (forall i :: 0 <= i < |items.value| ==> build(items.value[i]).Some?)
    && (forall i, j :: 0 <= i < j < |items.value| ==>
          build(items.value[i]).value.name != build(items.value[j]).value.name)
  }

  lemma CollectAllIff<A(!new), V(!new)>(items: Option<seq<A>>, build: A -> Option<Update<V>>)
    ensures CollectAll(items, build).Some? <==> Acceptable(items, build)
  {
    if items.Some? && Collect(items.value, build).Some? {
      var us := Collect(items.value, build).value;
      NamesBounded(us);
      if Acceptable(items, build) { DistinctNamesCount(us); }
      if CollectAll(items, build).Some? {
        forall i, j | 0 <= i < j < |items.value|
          ensures build(items.value[i]).value.name != build(items.value[j]).value.name
        {
          assert us[i].name != us[j].name;
        }
      }
    }
  }

  /** When an event is synced: the account is the user's own, active, in TESTNET and on the event's
      exchange, and all its items are acceptable. Events that carry neither balances nor positions
      are ignored, all others refused. */
  lemma SyncedIff(accounts: seq<Ledger.Account>, d: Delivery)
    ensures var mine := && d.account < |accounts| && accounts[d.account].owner == d.user
                        && accounts[d.account].active && accounts[d.account].mode == Ledger.Testnet
                        && accounts[d.account].exchange == ExchangeOf(d.event);
            && (OutcomeOf(accounts, d).Synced? <==> mine && match d.event
                  case BinanceBalances(l) => Acceptable(ItemsOf(l), BinanceUpdate)
                  case BybitBalances(l) => Acceptable(GroupedItemsOf(l), BybitUpdate)
                  case OkxBalances(l) => Acceptable(GroupedItemsOf(l), OkxUpdate)
                  case BybitPositions(l) => Acceptable(ItemsOf(l), BybitPositionUpdate)
                  case OkxPositions(l) => Acceptable(ItemsOf(l), OkxPositionUpdate)
                  case _ => false)
            && (OutcomeOf(accounts, d) == Ignored <==> mine && d.event.OtherEvent?)
  {
    match d.event
    case BinanceBalances(l) => CollectAllIff(ItemsOf(l), BinanceUpdate);
    case BybitBalances(l) => CollectAllIff(GroupedItemsOf(l), BybitUpdate);
    case OkxBalances(l) => CollectAllIff(GroupedItemsOf(l), OkxUpdate);
    case BybitPositions(l) => CollectAllIff(ItemsOf(l), BybitPositionUpdate);
    case OkxPositions(l) => CollectAllIff(ItemsOf(l), OkxPositionUpdate);
    case _ =>
  }

  lemma NamedIff(f: Field)
    ensures Identifier(f).Some? <==> exists name :: Names(f, name)
  {
    if Identifier(f).Some? { IdentifierNames(f, Identifier(f).value); }
    if name :| Names(f, name) { IdentifierNames(f, name); }
  }

  /** Which single items are accepted. */
  lemma BinanceAcceptedIff(b: BinanceBalance)
    ensures BinanceUpdate(b).Some? <==>
            Quantity(b.f, true).Some? && Quantity(b.l, true).Some? && exists name :: Names(b.a, name)
  {
    NamedIff(b.a);
  }

  lemma BybitCovers(c: BybitCoin)
    ensures Quantity(c.walletBalance, true).Some? && Quantity(OrZero(c.locked), true).Some? ==>
              (Quantity(OrZero(c.locked), true).value <= Quantity(c.walletBalance, true).value
               <==> Worth(OrZero(c.locked)) <= Worth(c.walletBalance))
  {
    QuantityKeeps(c.walletBalance, true);
    QuantityKeeps(OrZero(c.locked), true);
  }

  lemma StoredWithin(r: Raw)
    ensures Quantity(r, true).Some? ==>
              r.Number? && 0 <= Quantity(r, true).value < LIMIT && Quantity(r, true).value as real == Worth(r) * UNIT
  {
    QuantityAcceptsExactly(r, true);
    if Quantity(r, true).Some? { QuantityKeepsWorth(r, true); }
  }

  /** Rounding a sum cannot bring it below a number that is not rounded. */
  lemma RoundedWithin(n: nat, z: nat)
    requires z < LIMIT
    ensures Rounded(n) <= z <==> n <= z
  {
  }

  lemma ScaledSum(x: int, y: int, z: int, a: real, b: real, c: real)
    requires x as real == a * UNIT && y as real == b * UNIT && z as real == c * UNIT
    ensures x + y <= z <==> a + b <= c
  {
  }

  lemma OkxCovers(d: OkxDetail)
    ensures Quantity(d.availBal, true).Some? && Quantity(OrZero(d.frozenBal), true).Some?
            && Quantity(d.cashBal, true).Some? ==>
              (Rounded(Quantity(d.availBal, true).value + Quantity(OrZero(d.frozenBal), true).value)
                 <= Quantity(d.cashBal, true).value
               <==> Worth(d.availBal) + Worth(OrZero(d.frozenBal)) <= Worth(d.cashBal))
  {
    var x, y, z := Quantity(d.availBal, true), Quantity(OrZero(d.frozenBal), true), Quantity(d.cashBal, true);
    StoredWithin(d.availBal);
    StoredWithin(OrZero(d.frozenBal));
    StoredWithin(d.cashBal);
    if x.Some? && y.Some? && z.Some? {
      RoundedWithin(x.value + y.value, z.value);
      ScaledSum(x.value, y.value, z.value, Worth(d.availBal), Worth(OrZero(d.frozenBal)), Worth(d.cashBal));
    }
  }

  lemma BybitAcceptedIff(c: BybitCoin)
    ensures BybitUpdate(c).Some? <==>
            && Quantity(c.walletBalance, true).Some? && Quantity(OrZero(c.locked), true).Some?
            && Worth(OrZero(c.locked)) <= Worth(c.walletBalance) && exists name :: Names(c.coin, name)
  {
    NamedIff(c.coin);
    BybitCovers(c);
  }

  lemma OkxAcceptedIff(d: OkxDetail)
    ensures OkxUpdate(d).Some? <==>
            && Quantity(d.availBal, true).Some? && Quantity(OrZero(d.frozenBal), true).Some?
            && Quantity(d.cashBal, true).Some?
            && Worth(d.availBal) + Worth(OrZero(d.frozenBal)) <= Worth(d.cashBal)
            && exists name :: Names(d.ccy, name)
  {
    NamedIff(d.ccy);
    OkxCovers(d);
  }

  lemma ZeroWorth(r: Raw, nonnegative: bool)
    requires Quantity(r, nonnegative).Some?
    ensures Quantity(r, nonnegative).value == 0 <==> Worth(r) == 0.0
  {
    QuantityKeepsWorth(r, nonnegative);
  }

  lemma BybitPositionAcceptedIff(p: BybitPosition)
    ensures BybitPositionUpdate(p).Some? <==>
            && Quantity(p.size, true).Some? && (exists name :: Names(p.symbol, name))
            && (p.side == Buy || p.side == Sell || (p.side == EmptySide && Worth(p.size) == 0.0))
  {
    NamedIff(p.symbol);
    if Quantity(p.size, true).Some? { ZeroWorth(p.size, true); }
  }

  lemma OkxPositionAcceptedIff(p: OkxPosition)
    ensures OkxPositionUpdate(p).Some? <==> Quantity(p.pos, false).Some? && exists name :: Names(p.instId, name)
  {
    NamedIff(p.instId);
  }
}
