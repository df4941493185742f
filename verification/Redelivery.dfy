/** Events delivered late, twice and out of order to one stored row. The row is found by its
    client order id, or by the exchange order id once an event that moved it has brought that. */
module Redelivery {
  import opened Common
  import opened OrderStateMachine
  import opened OrderLifecycle

  /** Events delivered one after another; an event that fits row `id` is taken to be about it. */
  function Delivered(o: Orders, user: nat, account: nat, id: nat, evs: seq<OrderEvent>): (r: Orders)
    ensures |r.executions| == |o.executions|
    decreases |evs|
  {
    if evs == [] then o
    else Delivered(ApplyEvent(o, user, account, evs[0], id).orders, user, account, id, evs[1..])
  }

  /** What identifies a row's order: `name` is the id the exchange gives it. */
  datatype OrderKey = OrderKey(exchange: Exchange, clientOrderId: string, name: string)

  /** Carries the client order id only, both ids, the exchange's id only, or neither. */
  datatype Kind = Plain | Naming | ByName | Stranger

  function KindOf(key: OrderKey, ev: OrderEvent): Kind {
    if ev.exchange != key.exchange then Stranger
    else if ev.clientOrderId == Some(key.clientOrderId)
    then if ev.exchangeOrderId == Some(key.name) then Naming else Plain
    else if ev.exchangeOrderId == Some(key.name) then ByName else Stranger
  }

  /** As much of a row as its events depend on. */
  datatype Row = Row(status: Status, named: bool)

  predicate Reaches(row: Row, k: Kind) {
    k == Plain || k == Naming || (k == ByName && row.named)
  }

  predicate Moves(s: Status, x: Status) {
    x in Allowed(s) && x != s
  }

  function Hear(key: OrderKey, row: Row, ev: OrderEvent): Row {
    if Reaches(row, KindOf(key, ev)) && Moves(row.status, ev.status)
    then Row(ev.status, row.named || KindOf(key, ev) == Naming) else row
  }

  function HearAll(key: OrderKey, row: Row, evs: seq<OrderEvent>): Row
    decreases |evs|
  {
    if evs == [] then row else HearAll(key, Hear(key, row, evs[0]), evs[1..])
  }

  // ---- stored rows follow it ----------------------------------------------------------

  /** Row `id` is this tenant's, and the exchange calls its order `key.name` if it names it at all. */
  predicate Follows(o: Orders, user: nat, account: nat, id: nat, key: OrderKey) {
    && id < |o.executions|
    && var e := o.executions[id];
       && e.owner == user && e.account == account
       && e.exchange == key.exchange && e.clientOrderId == key.clientOrderId
       && (e.exchangeOrderId.Some? ==> e.exchangeOrderId.value == key.name)
  }

  function RowOf(o: Orders, id: nat): Row
    requires id < |o.executions|
  {
    Row(o.executions[id].status, o.executions[id].exchangeOrderId.Some?)
  }

  /** No event that carries the client order id brings another exchange order id. */
  ghost predicate OneName(key: OrderKey, evs: seq<OrderEvent>) {
    forall ev :: ev in evs && KindOf(key, ev) == Plain ==> ev.exchangeOrderId.None?
  }

  lemma FoundIffReached(o: Orders, user: nat, account: nat, id: nat, key: OrderKey, ev: OrderEvent)
    requires Follows(o, user, account, id, key)
    ensures Matches(o.executions[id], user, account, ev) <==> Reaches(RowOf(o, id), KindOf(key, ev))
  {
  }

  /** An event about another row, or none, leaves this one alone. */
  lemma UnmatchedEvent(o: Orders, user: nat, account: nat, id: nat, ev: OrderEvent)
    requires id < |o.executions| && !Matches(o.executions[id], user, account, ev)
    ensures var o' := ApplyEvent(o, user, account, ev, id).orders;
            |o'.executions| == |o.executions| && o'.executions[id] == o.executions[id]
  {
  }

  lemma EventFollows(o: Orders, user: nat, account: nat, id: nat, key: OrderKey, ev: OrderEvent)
    requires Follows(o, user, account, id, key)
    requires o.executions[id].exchangeOrderId.Some? || KindOf(key, ev) != Plain || ev.exchangeOrderId.None?
    ensures var o' := ApplyEvent(o, user, account, ev, id).orders;
            Follows(o', user, account, id, key) && RowOf(o', id) == Hear(key, RowOf(o, id), ev)
  {
    FoundIffReached(o, user, account, id, key, ev);
    if !Matches(o.executions[id], user, account, ev) {
      UnmatchedEvent(o, user, account, id, ev);
    } else {
      assert FindExecution(o.executions, user, account, ev, id) == Some(id);
    }
  }

  lemma {:induction false} DeliveredFollows(o: Orders, user: nat, account: nat, id: nat, key: OrderKey,
      evs: seq<OrderEvent>)
    requires Follows(o, user, account, id, key)
    requires o.executions[id].exchangeOrderId.Some? || OneName(key, evs)
    ensures RowOf(Delivered(o, user, account, id, evs), id) == HearAll(key, RowOf(o, id), evs)
    decreases |evs|
  {
    if evs != [] {
      assert evs[0] in evs;
      EventFollows(o, user, account, id, key, evs[0]);
      DeliveredFollows(ApplyEvent(o, user, account, evs[0], id).orders, user, account, id, key, evs[1..]);
    }
  }

  // ---- which statuses count -------------------------------------------------------------

  /** Some event of this kind carries this status. */
  predicate Said(key: OrderKey, evs: seq<OrderEvent>, k: Kind, x: Status) {
    exists i :: 0 <= i < |evs| && KindOf(key, evs[i]) == k && evs[i].status == x
  }

  /** The statuses of the events of these kinds, in order. */
  function Words(key: OrderKey, evs: seq<OrderEvent>, kinds: set<Kind>): (xs: seq<Status>)
    decreases |evs|
  {
    if evs == [] then []
    else (if KindOf(key, evs[0]) in kinds then [evs[0].status] else []) + Words(key, evs[1..], kinds)
  }

  const ByClient := {Plain, Naming}
  const AnyId := {Plain, Naming, ByName}

  lemma {:induction false} WordsAreSaid(key: OrderKey, evs: seq<OrderEvent>, kinds: set<Kind>, x: Status)
    ensures x in Words(key, evs, kinds) <==> exists k :: k in kinds && Said(key, evs, k, x)
    decreases |evs|
  {
    if evs != [] {
      var rest := evs[1..];
      WordsAreSaid(key, rest, kinds, x);
      forall k
        ensures Said(key, evs, k, x) <==> (KindOf(key, evs[0]) == k && evs[0].status == x) || Said(key, rest, k, x) {
        if Said(key, evs, k, x) {
          var i :| 0 <= i < |evs| && KindOf(key, evs[i]) == k && evs[i].status == x;
          if i > 0 { assert rest[i - 1] == evs[i]; }
        }
        if Said(key, rest, k, x) {
          var i :| 0 <= i < |rest| && KindOf(key, rest[i]) == k && rest[i].status == x;
          assert evs[i + 1] == rest[i];
        }
      }
    }
  }

  ghost predicate SameWords(key: OrderKey, evs: seq<OrderEvent>, evs': seq<OrderEvent>) {
    forall k, x :: Said(key, evs, k, x) <==> Said(key, evs', k, x)
  }

  lemma SameWordsSameMembers(key: OrderKey, evs: seq<OrderEvent>, evs': seq<OrderEvent>, kinds: set<Kind>)
    requires SameWords(key, evs, evs')
    ensures forall x :: x in Words(key, evs, kinds) <==> x in Words(key, evs', kinds)
  {
    forall x ensures x in Words(key, evs, kinds) <==> x in Words(key, evs', kinds) {
      WordsAreSaid(key, evs, kinds, x);
      WordsAreSaid(key, evs', kinds, x);
    }
  }

  lemma PermutationSaysTheSame(key: OrderKey, evs: seq<OrderEvent>, evs': seq<OrderEvent>)
    requires multiset(evs) == multiset(evs')
    ensures SameWords(key, evs, evs')
    ensures OneName(key, evs) <==> OneName(key, evs')
  {
    PermutationKeepsMembers(evs, evs');
    forall k, x ensures Said(key, evs, k, x) <==> Said(key, evs', k, x) {
      SaidByMember(key, evs, evs', k, x);
      SaidByMember(key, evs', evs, k, x);
    }
  }

  lemma SaidByMember(key: OrderKey, evs: seq<OrderEvent>, evs': seq<OrderEvent>, k: Kind, x: Status)
    requires forall ev :: ev in evs ==> ev in evs'
    ensures Said(key, evs, k, x) ==> Said(key, evs', k, x)
  {
    if Said(key, evs, k, x) {
      var i :| 0 <= i < |evs| && KindOf(key, evs[i]) == k && evs[i].status == x;
      assert evs[i] in evs';
    }
  }

  /** The statuses of the events that found the row. */
  function Taken(key: OrderKey, row: Row, evs: seq<OrderEvent>): seq<Status>
    decreases |evs|
  {
    if evs == [] then []
    else (if Reaches(row, KindOf(key, evs[0])) then [evs[0].status]
        else []) + Taken(key, Hear(key, row, evs[0]), evs[1..])
  }

  lemma {:induction false} EndsAsTaken(key: OrderKey, row: Row, evs: seq<OrderEvent>)
    ensures HearAll(key, row, evs).status == Final(row.status, Taken(key, row, evs))
    decreases |evs|
  {
    if evs != [] {
      var next := Hear(key, row, evs[0]);
      EndsAsTaken(key, next, evs[1..]);
      if Reaches(row, KindOf(key, evs[0])) {
        assert Taken(key, row, evs)[1..] == Taken(key, next, evs[1..]);
        assert next.status == ApplyStatus(row.status, evs[0].status);
      } else {
        assert Taken(key, row, evs) == Taken(key, next, evs[1..]);
      }
    }
  }

  lemma {:induction false} TakenBetween(key: OrderKey, row: Row, evs: seq<OrderEvent>)
    ensures forall x :: x in Words(key, evs, ByClient) ==> x in Taken(key, row, evs)
    ensures forall x :: x in Taken(key, row, evs) ==> x in Words(key, evs, AnyId)
    decreases |evs|
  {
    if evs != [] {
      TakenBetween(key, Hear(key, row, evs[0]), evs[1..]);
    }
  }

  lemma {:induction false} NamedRowTakesAll(key: OrderKey, row: Row, evs: seq<OrderEvent>)
    requires row.named
    ensures Taken(key, row, evs) == Words(key, evs, AnyId)
    decreases |evs|
  {
    if evs != [] {
      NamedRowTakesAll(key, Hear(key, row, evs[0]), evs[1..]);
    }
  }

  lemma MovesShrink(s: Status, t: Status, x: Status)
    requires Rank(s) >= Rank(Submitted) && t in Allowed(s) && Moves(t, x)
    ensures Moves(s, x)
  {
  }

  // ---- when the order cannot matter ------------------------------------------------------

  /** Where the events by client order id take a row that starts at `start`. */
  function ByClientEnd(key: OrderKey, start: Status, evs: seq<OrderEvent>): Status {
    Final(start, Words(key, evs, ByClient))
  }

  /** Right after an event with both ids has moved the row to `n`, a late word `b` takes it where
      the events by client order id do not: to another end, or over a partial fill that they do
      not reach or that shuts out the REJECTED they end in. */
  predicate Diverts(n: Status, b: Status, end: Status) {
    && !Terminal(n) && Moves(n, b)
    && (|| (Terminal(b) && b != end)
        || (b == PartiallyFilled && (Rank(end) < Rank(PartiallyFilled) || end == Rejected)))
  }

  /** Such a pair of words was said: one with both ids, one by exchange order id only. */
  predicate LateWordDiverts(key: OrderKey, start: Status, evs: seq<OrderEvent>) {
    exists n, b :: && Said(key, evs, Naming, n) && Moves(start, n) && Said(key, evs, ByName, b)
                   && Diverts(n, b, ByClientEnd(key, start, evs))
  }

  /** Exactly when a row ends the same whatever the order of its events. */
  predicate OrderCannotMatter(key: OrderKey, row: Row, evs: seq<OrderEvent>) {
    if row.named then Compatible(row.status, Words(key, evs, AnyId))
    else Compatible(row.status, Words(key, evs, ByClient)) && !LateWordDiverts(key, row.status, evs)
  }

  /** The statuses such a set of events comes down to. */
  function Decisive(key: OrderKey, row: Row, evs: seq<OrderEvent>): seq<Status> {
    Words(key, evs, if row.named then AnyId else ByClient)
  }

  /** No late word among `evs` diverts a row that was named in status `n`. */
  ghost predicate Undiverted(key: OrderKey, n: Status, evs: seq<OrderEvent>, end: Status) {
    forall i :: 0 <= i < |evs| && KindOf(key, evs[i]) == ByName ==> !Diverts(n, evs[i].status, end)
  }

  /** `x` took the late words and `y` did not, since the row was named in status `n`: they are the
      same, or `x` is at the end already, or `x` is one partial fill ahead. */
  predicate Abreast(n: Status, x: Status, y: Status, end: Status) {
    || x == y
    || (x == end && Terminal(x))
    || (x == PartiallyFilled && y == Accepted && Rank(end) >= Rank(PartiallyFilled) && end != Rejected)
  }

  lemma AbreastStep(n: Status, x: Status, y: Status, end: Status, w: Status)
    requires Rank(n) >= Rank(Accepted) && !Terminal(n) && (x == n || x in Allowed(n)) && Abreast(n, x, y, end)
    requires Terminal(ApplyStatus(y, w)) ==> ApplyStatus(y, w) == end
    ensures Abreast(n, ApplyStatus(x, w), ApplyStatus(y, w), end)
  {
  }

  lemma AbreastLateStep(n: Status, x: Status, y: Status, end: Status, b: Status)
    requires Rank(n) >= Rank(Accepted) && !Terminal(n) && (x == n || x in Allowed(n)) && Abreast(n, x, y, end)
    requires !Diverts(n, b, end)
    requires y == n || y in Allowed(n)
    ensures Abreast(n, ApplyStatus(x, b), y, end)
  {
  }

  lemma AllowedIsTransitive(n: Status, x: Status, w: Status)
    requires Rank(n) >= Rank(Accepted) && (x == n || x in Allowed(n))
    ensures var x' := ApplyStatus(x, w); x' == n || x' in Allowed(n)
  {
  }

  /** Once named, late words that do not divert the row do not change its end. */
  lemma {:induction false} LateWordsHarmless(key: OrderKey, n: Status, x: Status, y: Status, evs: seq<OrderEvent>,
      end: Status)
    requires Rank(n) >= Rank(Accepted) && !Terminal(n) && (x == n || x in Allowed(n)) && (y == n || y in Allowed(n))
    requires Abreast(n, x, y, end) && Undiverted(key, n, evs, end)
    requires Final(y, Words(key, evs, ByClient)) == end
    ensures Final(x, Words(key, evs, AnyId)) == end
    decreases |evs|
  {
    if evs == [] {
    } else if Terminal(x) {
      if x == y { TerminalIsFinal(y, Words(key, evs, ByClient)); }
      TerminalIsFinal(x, Words(key, evs, AnyId));
    } else {
      var w, rest := evs[0].status, evs[1..];
      FinalAfterFirst(key, evs, AnyId, x);
      FinalAfterFirst(key, evs, ByClient, y);
      AllowedIsTransitive(n, x, w);
      AllowedIsTransitive(n, y, w);
      assert Undiverted(key, n, rest, end);
      if KindOf(key, evs[0]) in ByClient {
        if Terminal(ApplyStatus(y, w)) { TerminalIsFinal(ApplyStatus(y, w), Words(key, rest, ByClient)); }
        AbreastStep(n, x, y, end, w);
        LateWordsHarmless(key, n, ApplyStatus(x, w), ApplyStatus(y, w), rest, end);
      } else if KindOf(key, evs[0]) == ByName {
        AbreastLateStep(n, x, y, end, w);
        LateWordsHarmless(key, n, ApplyStatus(x, w), y, rest, end);
      } else {
        LateWordsHarmless(key, n, x, y, rest, end);
      }
    }
  }

  function AfterFirst(key: OrderKey, ev: OrderEvent, kinds: set<Kind>, s: Status): Status {
    if KindOf(key, ev) in kinds then ApplyStatus(s, ev.status) else s
  }

  lemma FinalAfterFirst(key: OrderKey, evs: seq<OrderEvent>, kinds: set<Kind>, s: Status)
    requires evs != []
    ensures Final(s, Words(key, evs, kinds)) == Final(AfterFirst(key, evs[0], kinds, s), Words(key, evs[1..], kinds))
  {
    var words, rest := Words(key, evs, kinds), Words(key, evs[1..], kinds);
    if KindOf(key, evs[0]) in kinds {
      assert words == [evs[0].status] + rest && words[1..] == rest;
    } else {
      assert words == rest;
    }
  }

  /** No late word diverts the row, whichever event with both ids names it. */
  ghost predicate NeverDiverted(key: OrderKey, s: Status, evs: seq<OrderEvent>, end: Status) {
    forall i :: 0 <= i < |evs| && KindOf(key, evs[i]) == Naming && Moves(s, evs[i].status) && !Terminal(evs[i].status)
      ==> Undiverted(key, evs[i].status, evs, end)
  }

  lemma {:induction false} UnnamedRowEnds(key: OrderKey, s: Status, evs: seq<OrderEvent>, end: Status)
    requires Rank(s) >= Rank(Submitted) && NeverDiverted(key, s, evs, end)
    requires ByClientEnd(key, s, evs) == end
    ensures HearAll(key, Row(s, false), evs).status == end
    decreases |evs|
  {
    if evs != [] {
      var w, rest := evs[0].status, evs[1..];
      FinalAfterFirst(key, evs, ByClient, s);
      var next := Hear(key, Row(s, false), evs[0]);
      if next.named {
        NamedRowEnds(key, w, rest);
        if Terminal(w) {
          TerminalIsFinal(w, Words(key, rest, ByClient));
          TerminalIsFinal(w, Words(key, rest, AnyId));
        } else {
          assert Undiverted(key, w, evs, end);
          assert Undiverted(key, w, rest, end);
          LateWordsHarmless(key, w, w, w, rest, end);
        }
      } else {
        StillNeverDiverted(key, s, evs, end);
        UnnamedRowEnds(key, next.status, rest, end);
      }
    }
  }

  lemma StillNeverDiverted(key: OrderKey, s: Status, evs: seq<OrderEvent>, end: Status)
    requires Rank(s) >= Rank(Submitted) && evs != [] && NeverDiverted(key, s, evs, end)
    ensures NeverDiverted(key, Hear(key, Row(s, false), evs[0]).status, evs[1..], end)
  {
    var next, rest := Hear(key, Row(s, false), evs[0]).status, evs[1..];
    forall i | 0 <= i < |rest| && KindOf(key, rest[i]) == Naming && Moves(next, rest[i].status) &&
        !Terminal(rest[i].status)
      ensures Undiverted(key, rest[i].status, rest, end)
    {
      if next != s { MovesShrink(s, next, rest[i].status); }
      assert evs[i + 1] == rest[i];
      assert Undiverted(key, evs[i + 1].status, evs, end);
    }
  }

  /** A named row takes an event that finds it as the status fold does. */
  lemma NamedRowEnds(key: OrderKey, start: Status, evs: seq<OrderEvent>)
    ensures HearAll(key, Row(start, true), evs).status == Final(start, Words(key, evs, AnyId))
  {
    EndsAsTaken(key, Row(start, true), evs);
    NamedRowTakesAll(key, Row(start, true), evs);
  }

  lemma OrderlessEnds(key: OrderKey, row: Row, evs: seq<OrderEvent>)
    requires Rank(row.status) >= Rank(Submitted) && OrderCannotMatter(key, row, evs)
    ensures HearAll(key, row, evs).status == Final(row.status, Decisive(key, row, evs))
  {
    if row.named {
      NamedRowEnds(key, row.status, evs);
    } else {
      var end := ByClientEnd(key, row.status, evs);
      forall i | 0 <= i < |evs| && KindOf(key, evs[i]) == Naming && Moves(row.status, evs[i].status) &&
          !Terminal(evs[i].status)
        ensures Undiverted(key, evs[i].status, evs, end)
      {
        assert Said(key, evs, Naming, evs[i].status);
        forall j | 0 <= j < |evs| && KindOf(key, evs[j]) == ByName ensures !Diverts(evs[i].status, evs[j].status, end) {
          assert Said(key, evs, ByName, evs[j].status);
        }
      }
      UnnamedRowEnds(key, row.status, evs, end);
    }
  }

  lemma CompatibleSubset(start: Status, xs: seq<Status>, ys: seq<Status>)
    requires Compatible(start, xs) && forall y :: y in ys ==> y in xs
    ensures Compatible(start, ys)
  {
  }

  lemma SameWordsSameEnd(key: OrderKey, row: Row, evs: seq<OrderEvent>, evs': seq<OrderEvent>)
    requires Rank(row.status) >= Rank(Submitted) && SameWords(key, evs, evs')
    requires Compatible(row.status, Decisive(key, row, evs))
    ensures Compatible(row.status, Decisive(key, row, evs'))
    ensures Final(row.status, Decisive(key, row, evs')) == Final(row.status, Decisive(key, row, evs))
    ensures IsHighest(row.status, Decisive(key, row, evs), Final(row.status, Decisive(key, row, evs')))
  {
    SameWordsSameMembers(key, evs, evs', if row.named then AnyId else ByClient);
    CompatibleSubset(row.status, Decisive(key, row, evs), Decisive(key, row, evs'));
    DeliveryOrderIrrelevant(row.status, Decisive(key, row, evs), Decisive(key, row, evs'));
  }

  /** Whether order can matter depends only on which words are said. */
  lemma OrderlessIsAboutWords(key: OrderKey, row: Row, evs: seq<OrderEvent>, evs': seq<OrderEvent>)
    requires Rank(row.status) >= Rank(Submitted) && SameWords(key, evs, evs') && OrderCannotMatter(key, row, evs)
    ensures OrderCannotMatter(key, row, evs')
  {
    SameWordsSameEnd(key, row, evs, evs');
    if !row.named {
      DivertingIsAboutWords(key, row.status, evs, evs');
    }
  }

  lemma DivertingIsAboutWords(key: OrderKey, start: Status, evs: seq<OrderEvent>, evs': seq<OrderEvent>)
    requires SameWords(key, evs, evs') && ByClientEnd(key, start, evs) == ByClientEnd(key, start, evs')
    ensures LateWordDiverts(key, start, evs') ==> LateWordDiverts(key, start, evs)
  {
    if LateWordDiverts(key, start, evs') {
      var n, b :| && Said(key, evs', Naming, n) && Moves(start, n) && Said(key, evs', ByName, b)
                  && Diverts(n, b, ByClientEnd(key, start, evs'));
      assert Said(key, evs, Naming, n) && Said(key, evs, ByName, b);
    }
  }

  lemma OrderlessListsAgree(key: OrderKey, row: Row, evs: seq<OrderEvent>, evs': seq<OrderEvent>)
    requires Rank(row.status) >= Rank(Submitted) && SameWords(key, evs, evs') && OrderCannotMatter(key, row, evs)
    ensures HearAll(key, row, evs).status == HearAll(key, row, evs').status
    ensures IsHighest(row.status, Decisive(key, row, evs), HearAll(key, row, evs').status)
  {
    OrderlessIsAboutWords(key, row, evs, evs');
    OrderlessEnds(key, row, evs);
    OrderlessEnds(key, row, evs');
    SameWordsSameEnd(key, row, evs, evs');
  }

  // ---- when it does -------------------------------------------------------------------------

  lemma {:induction false} LateWordsLost(key: OrderKey, row: Row, late: seq<OrderEvent>, rest: seq<OrderEvent>)
    requires !row.named && forall ev :: ev in late ==> KindOf(key, ev) == ByName
    ensures HearAll(key, row, late + rest) == HearAll(key, row, rest)
    decreases |late|
  {
    if late == [] {
      assert late + rest == rest;
    } else {
      assert late[0] in late;
      assert (late + rest)[1..] == late[1..] + rest;
      LateWordsLost(key, row, late[1..], rest);
    }
  }

  /** The events by exchange order id only, and the others. */
  function Split(key: OrderKey, evs: seq<OrderEvent>, late: bool): (r: seq<OrderEvent>)
    ensures forall ev :: ev in r ==> (KindOf(key, ev) == ByName) == late
    decreases |evs|
  {
    if evs == [] then []
    else (if (KindOf(key, evs[0]) == ByName) == late then [evs[0]] else []) + Split(key, evs[1..], late)
  }

  lemma {:induction false} SplitIsPermutation(key: OrderKey, evs: seq<OrderEvent>)
    ensures multiset(Split(key, evs, true) + Split(key, evs, false)) == multiset(evs)
    decreases |evs|
  {
    if evs != [] {
      SplitIsPermutation(key, evs[1..]);
      assert evs == [evs[0]] + evs[1..];
    }
  }

  lemma {:induction false} NoLateWords(key: OrderKey, row: Row, evs: seq<OrderEvent>)
    requires forall ev :: ev in evs ==> KindOf(key, ev) != ByName
    ensures Taken(key, row, evs) == Words(key, evs, ByClient)
    decreases |evs|
  {
    if evs != [] {
      assert evs[0] in evs;
      NoLateWords(key, Hear(key, row, evs[0]), evs[1..]);
    }
  }

  lemma HeardWithoutLate(key: OrderKey, start: Status, evs: seq<OrderEvent>)
    requires forall ev :: ev in evs ==> KindOf(key, ev) != ByName
    ensures HearAll(key, Row(start, false), evs).status == ByClientEnd(key, start, evs)
  {
    EndsAsTaken(key, Row(start, false), evs);
    NoLateWords(key, Row(start, false), evs);
  }

  /** With the late words first, they are lost. */
  lemma LateWordsFirst(key: OrderKey, start: Status, late: seq<OrderEvent>, rest: seq<OrderEvent>)
    requires forall ev :: ev in late ==> KindOf(key, ev) == ByName
    requires forall ev :: ev in rest ==> KindOf(key, ev) != ByName
    ensures HearAll(key, Row(start, false), late + rest).status == ByClientEnd(key, start, rest)
  {
    LateWordsLost(key, Row(start, false), late, rest);
    HeardWithoutLate(key, start, rest);
  }

  lemma {:induction false} SplitKeepsByClient(key: OrderKey, evs: seq<OrderEvent>)
    ensures Words(key, Split(key, evs, false), ByClient) == Words(key, evs, ByClient)
    decreases |evs|
  {
    if evs != [] {
      SplitKeepsByClient(key, evs[1..]);
      var rest := Split(key, evs[1..], false);
      if KindOf(key, evs[0]) != ByName {
        assert Split(key, evs, false)[1..] == rest;
      } else {
        assert Split(key, evs, false) == rest;
      }
    }
  }

  lemma {:induction false} WordIndex(key: OrderKey, evs: seq<OrderEvent>, kinds: set<Kind>, x: Status) returns (i: nat)
    requires x in Words(key, evs, kinds)
    ensures i < |evs| && KindOf(key, evs[i]) in kinds && evs[i].status == x
    decreases |evs|
  {
    if KindOf(key, evs[0]) in kinds && evs[0].status == x {
      i := 0;
    } else {
      var k := WordIndex(key, evs[1..], kinds, x);
      i := k + 1;
    }
  }

  /** Delivering a word that moves the row first. */
  lemma WordFirst(key: OrderKey, start: Status, evs: seq<OrderEvent>, kinds: set<Kind>, x: Status)
      returns (a: seq<OrderEvent>)
    requires x in Words(key, evs, kinds) && x in Allowed(start)
    ensures multiset(a) == multiset(evs)
    ensures Terminal(x) ==> Final(start, Words(key, a, kinds)) == x
    ensures x == PartiallyFilled ==> Final(start, Words(key, a, kinds)) != Rejected
  {
    var i := WordIndex(key, evs, kinds, x);
    a := MovedFirst(evs, i);
    MovedFirstIsPermutation(evs, i);
    var xs := Words(key, a, kinds);
    assert xs[0] == x && Final(start, xs) == Final(x, xs[1..]);
    if Terminal(x) { TerminalIsFinal(x, xs[1..]); }
    if x == PartiallyFilled { PartialFillExcludesRejected(xs[1..], x); }
  }

  lemma IncompatibleWordsDiffer(key: OrderKey, start: Status, evs: seq<OrderEvent>, kinds: set<Kind>)
      returns (a: seq<OrderEvent>, b: seq<OrderEvent>)
    requires Rank(start) >= Rank(Submitted) && !Terminal(start) && !Compatible(start, Words(key, evs, kinds))
    ensures multiset(a) == multiset(evs) && multiset(b) == multiset(evs)
    ensures Final(start, Words(key, a, kinds)) != Final(start, Words(key, b, kinds))
  {
    var xs := Words(key, evs, kinds);
    if x, y :| x in xs && y in xs && Clash(start, x, y) {
      a := WordFirst(key, start, evs, kinds, x);
      b := WordFirst(key, start, evs, kinds, y);
    } else {
      a := WordFirst(key, start, evs, kinds, Rejected);
      b := WordFirst(key, start, evs, kinds, PartiallyFilled);
    }
  }

  /** Incompatible words by client order id: with every late word first, their order decides. */
  lemma IncompatibleByClientDiffer(key: OrderKey, start: Status, evs: seq<OrderEvent>)
      returns (a: seq<OrderEvent>, b: seq<OrderEvent>)
    requires Rank(start) >= Rank(Submitted) && !Terminal(start) && !Compatible(start, Words(key, evs, ByClient))
    ensures multiset(a) == multiset(evs) && multiset(b) == multiset(evs)
    ensures HearAll(key, Row(start, false), a).status != HearAll(key, Row(start, false), b).status
  {
    var late, rest := Split(key, evs, true), Split(key, evs, false);
    SplitIsPermutation(key, evs);
    SplitKeepsByClient(key, evs);
    var c, d := IncompatibleWordsDiffer(key, start, rest, ByClient);
    PermutationKeepsMembers(c, rest);
    PermutationKeepsMembers(d, rest);
    LateWordsFirst(key, start, late, c);
    LateWordsFirst(key, start, late, d);
    a, b := late + c, late + d;
  }

  /** Any two events brought to the front, in either order. */
  lemma TwoFirst(evs: seq<OrderEvent>, i: nat, j: nat) returns (a: seq<OrderEvent>)
    requires i < |evs| && j < |evs| && i != j
    ensures multiset(a) == multiset(evs) && |a| >= 2 && a[0] == evs[i] && a[1] == evs[j]
  {
    var first := MovedFirst(evs, i);
    MovedFirstIsPermutation(evs, i);
    var k := if j < i then j + 1 else j;
    assert first[k] == evs[j];
    var rest := MovedFirst(first[1..], k - 1);
    MovedFirstIsPermutation(first[1..], k - 1);
    a := [first[0]] + rest;
    assert first == [first[0]] + first[1..];
    assert rest[0] == first[1..][k - 1];
  }

  lemma AfterNamedAndLate(key: OrderKey, start: Status, a: seq<OrderEvent>)
    requires |a| >= 2 && KindOf(key, a[0]) == Naming && Moves(start, a[0].status)
    requires KindOf(key, a[1]) == ByName && Moves(a[0].status, a[1].status)
    ensures HearAll(key, Row(start, false), a).status == Final(a[1].status, Words(key, a[2..], AnyId))
  {
    var n, b := a[0].status, a[1].status;
    assert a[1..][1..] == a[2..];
    assert Hear(key, Row(start, false), a[0]) == Row(n, true);
    assert Hear(key, Row(n, true), a[1..][0]) == Row(b, true);
    assert HearAll(key, Row(n, true), a[1..]) == HearAll(key, Row(b, true), a[2..]);
    NamedRowEnds(key, b, a[2..]);
  }

  /** The event that names the row first, and the late word right after it. */
  lemma NamedThenLate(key: OrderKey, start: Status, evs: seq<OrderEvent>, n: Status, b: Status)
      returns (a: seq<OrderEvent>)
    requires Said(key, evs, Naming, n) && Moves(start, n) && Said(key, evs, ByName, b) && Moves(n, b)
    ensures multiset(a) == multiset(evs)
    ensures Terminal(b) ==> HearAll(key, Row(start, false), a).status == b
    ensures b == PartiallyFilled ==>
              var r := HearAll(key, Row(start, false), a).status; Rank(r) >= Rank(PartiallyFilled) && r != Rejected
  {
    var i :| 0 <= i < |evs| && KindOf(key, evs[i]) == Naming && evs[i].status == n;
    var j :| 0 <= j < |evs| && KindOf(key, evs[j]) == ByName && evs[j].status == b;
    a := TwoFirst(evs, i, j);
    AfterNamedAndLate(key, start, a);
    var xs := Words(key, a[2..], AnyId);
    if Terminal(b) { TerminalIsFinal(b, xs); }
    if b == PartiallyFilled {
      PartialFillExcludesRejected(xs, b);
      RankNeverFalls(b, xs);
    }
  }

  lemma {:induction false} RankNeverFalls(s: Status, xs: seq<Status>)
    ensures Rank(Final(s, xs)) >= Rank(s)
    decreases |xs|
  {
    if xs != [] {
      if xs[0] in Allowed(s) { AllowedEdgesClimb(s, xs[0]); }
      RankNeverFalls(ApplyStatus(s, xs[0]), xs[1..]);
    }
  }

  lemma DivertedListsDiffer(key: OrderKey, start: Status, evs: seq<OrderEvent>)
      returns (a: seq<OrderEvent>, b: seq<OrderEvent>)
    requires LateWordDiverts(key, start, evs)
    ensures multiset(a) == multiset(evs) && multiset(b) == multiset(evs)
    ensures HearAll(key, Row(start, false), a).status != HearAll(key, Row(start, false), b).status
  {
    var late, rest := Split(key, evs, true), Split(key, evs, false);
    SplitIsPermutation(key, evs);
    SplitKeepsByClient(key, evs);
    LateWordsFirst(key, start, late, rest);
    a := late + rest;
    var n, w :| && Said(key, evs, Naming, n) && Moves(start, n) && Said(key, evs, ByName, w)
                && Diverts(n, w, ByClientEnd(key, start, evs));
    b := NamedThenLate(key, start, evs, n, w);
  }

  lemma OrderMatters(key: OrderKey, row: Row, evs: seq<OrderEvent>) returns (a: seq<OrderEvent>, b: seq<OrderEvent>)
    requires Rank(row.status) >= Rank(Submitted) && !Terminal(row.status) && !OrderCannotMatter(key, row, evs)
    ensures multiset(a) == multiset(evs) && multiset(b) == multiset(evs)
    ensures HearAll(key, row, a).status != HearAll(key, row, b).status
  {
    if row.named {
      a, b := IncompatibleWordsDiffer(key, row.status, evs, AnyId);
      NamedRowEnds(key, row.status, a);
      NamedRowEnds(key, row.status, b);
    } else if !Compatible(row.status, Words(key, evs, ByClient)) {
      a, b := IncompatibleByClientDiffer(key, row.status, evs);
    } else {
      a, b := DivertedListsDiffer(key, row.status, evs);
    }
  }

  // ---- stored rows ----------------------------------------------------------------------------

  ghost predicate RowOrderIndependent(o: Orders, user: nat, account: nat, id: nat, evs: seq<OrderEvent>)
    requires id < |o.executions|
  {
    forall evs': seq<OrderEvent> :: multiset(evs') == multiset(evs) ==>
      Delivered(o, user, account, id, evs').executions[id].status ==
          Delivered(o, user, account, id, evs).executions[id].status
  }

  ghost predicate Waiting(o: Orders, user: nat, account: nat, id: nat, key: OrderKey, evs: seq<OrderEvent>) {
    && Follows(o, user, account, id, key)
    && (o.executions[id].exchangeOrderId.Some? || OneName(key, evs))
    && Rank(o.executions[id].status) >= Rank(Submitted) && !Terminal(o.executions[id].status)
  }

  /** A stored row ends in the same, highest status however its events are ordered and repeated,
      whichever of the two ids they carry, if no late word can divert it. */
  lemma RedeliveryConverges(o: Orders, user: nat, account: nat, id: nat, key: OrderKey,
                            evs: seq<OrderEvent>, evs': seq<OrderEvent>)
    requires Waiting(o, user, account, id, key, evs) && Waiting(o, user, account, id, key, evs')
    requires SameWords(key, evs, evs') && OrderCannotMatter(key, RowOf(o, id), evs)
    ensures var d, d' := Delivered(o, user, account, id, evs), Delivered(o, user, account, id, evs');
            && d.executions[id].status == d'.executions[id].status
            && IsHighest(o.executions[id].status, Decisive(key, RowOf(o, id), evs), d'.executions[id].status)
  {
    DeliveredFollows(o, user, account, id, key, evs);
    DeliveredFollows(o, user, account, id, key, evs');
    OrderlessListsAgree(key, RowOf(o, id), evs, evs');
  }

  /** Exactly when the order of its events cannot matter to a stored row. If the exchange's id is
      stored already: when all their statuses are compatible. If not: when those that came by
      client order id are, and no late word diverts the row from their end. */
  lemma RowOrderIndependentIff(o: Orders, user: nat, account: nat, id: nat, key: OrderKey, evs: seq<OrderEvent>)
    requires Waiting(o, user, account, id, key, evs)
    ensures RowOrderIndependent(o, user, account, id, evs) <==> OrderCannotMatter(key, RowOf(o, id), evs)
  {
    if OrderCannotMatter(key, RowOf(o, id), evs) {
      forall evs': seq<OrderEvent> | multiset(evs') == multiset(evs)
        ensures Delivered(o, user, account, id, evs').executions[id].status
             == Delivered(o, user, account, id, evs).executions[id].status
      {
        PermutationSaysTheSame(key, evs, evs');
        RedeliveryConverges(o, user, account, id, key, evs, evs');
      }
    } else {
      var a, b := OrderMatters(key, RowOf(o, id), evs);
      PermutationSaysTheSame(key, evs, a);
      PermutationSaysTheSame(key, evs, b);
      DeliveredFollows(o, user, account, id, key, a);
      DeliveredFollows(o, user, account, id, key, b);
    }
  }

  lemma ByClientCompatible(key: OrderKey, s: Status, evs: seq<OrderEvent>)
    requires Compatible(s, Words(key, evs, AnyId))
    ensures Compatible(s, Words(key, evs, ByClient))
    ensures forall x :: x in Words(key, evs, ByClient) ==> x in Words(key, evs, AnyId)
  {
    forall x ensures x in Words(key, evs, ByClient) ==> x in Words(key, evs, AnyId) {
      WordsAreSaid(key, evs, ByClient, x);
      WordsAreSaid(key, evs, AnyId, x);
    }
    CompatibleSubset(s, Words(key, evs, AnyId), Words(key, evs, ByClient));
  }

  /** Among compatible words, late ones divert a row only by outranking: if none ranks above the
      start and all words by client order id, order cannot matter. */
  lemma CompatibleWordsDivertByRank(key: OrderKey, row: Row, evs: seq<OrderEvent>)
    requires Rank(row.status) >= Rank(Submitted) && !Terminal(row.status)
    requires Compatible(row.status, Words(key, evs, AnyId))
    requires forall b :: Said(key, evs, ByName, b) && Counts(row.status, b) ==>
               Rank(b) <= Rank(ByClientEnd(key, row.status, evs))
    ensures OrderCannotMatter(key, row, evs)
  {
    var end := ByClientEnd(key, row.status, evs);
    ByClientCompatible(key, row.status, evs);
    CompatibleReachesHighest(row.status, Words(key, evs, ByClient));
    forall b | Said(key, evs, ByName, b) ensures !(Terminal(b) && b != end && Counts(row.status, b)) {
      WordsAreSaid(key, evs, AnyId, b);
      assert !Clash(row.status, b, end) || end == row.status;
    }
    forall b | Said(key, evs, ByName, b) ensures !(b == PartiallyFilled && end == Rejected) {
      WordsAreSaid(key, evs, AnyId, b);
    }
  }

  /** FILLED by exchange order id only, and ACCEPTED with both: in this order the row ends
      ACCEPTED for good, in the other one FILLED. */
  lemma LateWordIsLost(e: Execution)
    requires e.status == Submitted && e.exchangeOrderId.None?
    ensures var o := Orders([e], []);
            var filled := OrderEvent(e.exchange, None, Some("x"), Filled);
            var accepted := OrderEvent(e.exchange, Some(e.clientOrderId), Some("x"), Accepted);
            && Compatible(Submitted, [Filled, Accepted])
            && Delivered(o, e.owner, e.account, 0, [filled, accepted]).executions[0].status == Accepted
            && Delivered(o, e.owner, e.account, 0, [accepted, filled]).executions[0].status == Filled
  {
    var o := Orders([e], []);
    var key := OrderKey(e.exchange, e.clientOrderId, "x");
    var filled := OrderEvent(e.exchange, None, Some("x"), Filled);
    var accepted := OrderEvent(e.exchange, Some(e.clientOrderId), Some("x"), Accepted);
    DeliveredFollows(o, e.owner, e.account, 0, key, [filled, accepted]);
    DeliveredFollows(o, e.owner, e.account, 0, key, [accepted, filled]);
    assert [filled, accepted][1..] == [accepted] && [accepted, filled][1..] == [filled];
    assert HearAll(key, Row(Submitted, false), [accepted]) == Row(Accepted, true);
    assert HearAll(key, Row(Accepted, true), [filled]) == Row(Filled, true);
  }
}
