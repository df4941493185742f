/** Order execution statuses, their transition graph, and the numbered transition log
    kept by a database session that flushes, commits and rolls back. */
module OrderStateMachine {
  import opened Common

  datatype Status =
    | Created | RiskPassed | Submitted | Accepted | PartiallyFilled
    | Filled | Cancelled | Rejected | Failed | TimedOut

  predicate Terminal(s: Status) {
    s in {Filled, Cancelled, Rejected, Failed, TimedOut}
  }

  /** ALLOWED_ORDER_TRANSITIONS, with the empty set where the table has no entry. */
  function Allowed(from: Status): set<Status> {
    match from
    case Created => {RiskPassed, Rejected, Failed}
    case RiskPassed => {Submitted, Failed}
    case Submitted => {Accepted, PartiallyFilled, Filled, Cancelled, Rejected, Failed, TimedOut}
    case Accepted => {PartiallyFilled, Filled, Cancelled, Rejected, Failed, TimedOut}
    case PartiallyFilled => {PartiallyFilled, Filled, Cancelled, Failed, TimedOut}
    case _ => {}
  }

  /** The table read by target: where each status can be reached from. */
  lemma AllowedByTarget(from: Status, to: Status)
    ensures to in Allowed(from) <==>
      && !Terminal(from)
      && match to
         case Created => false
         case RiskPassed => from == Created
         case Submitted => from == RiskPassed
         case Accepted => from == Submitted
         case PartiallyFilled | Filled | Cancelled | TimedOut => from in {Submitted, Accepted, PartiallyFilled}
         case Rejected => from in {Created, Submitted, Accepted}
         case Failed => true
  {
  }

  /** Progress measure: every edge but the PARTIALLY_FILLED self-loop goes up. */
  function Rank(s: Status): nat {
    match s
    case Created => 0
    case RiskPassed => 1
    case Submitted => 2
    case Accepted => 3
    case PartiallyFilled => 4
    case _ => 5
  }

  datatype Exchange = Binance | Okx | Bybit | Mock
  datatype Side = Buy | Sell

  /** One order_executions row. Rows refer to each other by position in their table. */
  datatype Execution = Execution(
    owner: nat, signal: nat, account: nat, exchange: Exchange,
    clientOrderId: string, exchangeOrderId: Option<string>,
    symbol: string, side: Side, price: Option<real>, quantity: real, status: Status)

  /** One order_execution_transitions row. */
  datatype Transition = Transition(execution: nat, sequence: nat, from: Option<Status>, to: Status)

  function LogOf(rows: seq<Transition>, id: nat): (log: seq<Transition>)
    ensures forall t :: t in log ==> t in rows && t.execution == id
  {
    if rows == [] then []
    else
      var last := rows[|rows| - 1];
      LogOf(rows[..|rows| - 1], id) + (if last.execution == id then [last] else [])
  }

  function MaxSequence(rows: seq<Transition>, id: nat): nat {
    if rows == [] then 0
    else
      var last := rows[|rows| - 1];
      var rest := MaxSequence(rows[..|rows| - 1], id);
      if last.execution == id && last.sequence > rest then last.sequence else rest
  }

  ghost predicate Numbered(log: seq<Transition>) {
    forall i :: 0 <= i < |log| ==> log[i].sequence == i + 1
  }

  /** Numbered 1..n, started from nothing at CREATED, linked edge by allowed edge, and
      ending at the status the row carries. */
  ghost predicate Replays(log: seq<Transition>, status: Status) {
    && |log| > 0
    && log[0].from == None && log[0].to == Created
    && Numbered(log)
    && (forall i :: 1 <= i < |log| ==>
          log[i].from == Some(log[i - 1].to) && log[i].to in Allowed(log[i - 1].to))
    && log[|log| - 1].to == status
  }

  lemma {:induction false} LogOfAppend(a: seq<Transition>, b: seq<Transition>, id: nat)
    ensures LogOf(a + b, id) == LogOf(a, id) + LogOf(b, id)
  {
    if b == [] {
      assert a + b == a;
    } else {
      assert (a + b)[..|a + b| - 1] == a + b[..|b| - 1];
      LogOfAppend(a, b[..|b| - 1], id);
    }
  }

  lemma LogOfPush(a: seq<Transition>, t: Transition, id: nat)
    ensures LogOf(a + [t], id) == LogOf(a, id) + (if t.execution == id then [t] else [])
  {
    assert (a + [t])[..|a|] == a;
  }

  lemma {:induction false} MaxSequenceAppend(a: seq<Transition>, b: seq<Transition>, id: nat)
    ensures var x, y := MaxSequence(a, id), MaxSequence(b, id);
            MaxSequence(a + b, id) == if x >= y then x else y
  {
    if b == [] {
      assert a + b == a;
    } else {
      assert (a + b)[..|a + b| - 1] == a + b[..|b| - 1];
      MaxSequenceAppend(a, b[..|b| - 1], id);
    }
  }

  lemma {:induction false} AbsentFromLog(rows: seq<Transition>, id: nat)
    requires forall t :: t in rows ==> t.execution != id
    ensures LogOf(rows, id) == []
  {
    if rows != [] {
      assert rows[|rows| - 1] in rows;
      AbsentFromLog(rows[..|rows| - 1], id);
    }
  }

  /** A log numbered 1..n has maximum n, so the next number is the length plus one. */
  lemma {:induction false} NumberedLogMaximum(rows: seq<Transition>, id: nat)
    requires Numbered(LogOf(rows, id))
    ensures MaxSequence(rows, id) == |LogOf(rows, id)|
  {
    if rows != [] {
      var last := rows[|rows| - 1];
      var rest := rows[..|rows| - 1];
      var log, shorter := LogOf(rows, id), LogOf(rest, id);
      assert log == shorter + (if last.execution == id then [last] else []);
      assert Numbered(shorter) by {
        forall i | 0 <= i < |shorter| ensures shorter[i].sequence == i + 1 {
          assert shorter[i] == log[i];
        }
      }
      NumberedLogMaximum(rest, id);
      if last.execution == id {
        assert log[|log| - 1] == last;
      }
    }
  }

  /** The executions with the log written about them, as one snapshot sees them. */
  datatype Orders = Orders(executions: seq<Execution>, log: seq<Transition>) {

    function History(id: nat): seq<Transition> { LogOf(log, id) }

    function NextSequence(id: nat): nat { MaxSequence(log, id) + 1 }

    function Recorded(id: nat, from: Option<Status>, to: Status): Orders {
      this.(log := log + [Transition(id, NextSequence(id), from, to)])
    }

    /** Add a CREATED row together with its initial log entry. */
    function Insert(e: Execution): Orders {
      Orders(executions + [e], log).Recorded(|executions|, None, Created)
    }

    /** Assign the new status and log it; `exchangeId`, if any, is written just before. */
    function Advance(id: nat, to: Status, exchangeId: Option<string>): Orders
      requires id < |executions|
    {
      var e := executions[id];
      var renamed := if exchangeId.Some? then e.(exchangeOrderId := exchangeId) else e;
      Orders(executions[id := renamed.(status := to)], log).Recorded(id, Some(e.status), to)
    }
  }

  /** A session: rows as the objects carry them, the first `saved` of which have an id;
      what the last commit made durable; and log rows committed, flushed and pending. */
  datatype SessionState = SessionState(
    executions: seq<Execution>, saved: nat, durable: seq<Execution>,
    committed: seq<Transition>, flushed: seq<Transition>, pending: seq<Transition>)
  {
    function Now(): Orders { Orders(executions, committed + flushed + pending) }

    function Durable(): Orders { Orders(durable, committed) }

    ghost predicate Clean() {
      flushed == [] && pending == [] && saved == |executions| && durable == executions
    }
  }

  datatype SessionOp =
    | Add(execution: Execution)
    | RecordInitial(id: nat)
    | Move(id: nat, to: Status)
    | Flush
    | Commit
    | Rollback

  datatype SessionStep = SessionStep(state: SessionState, ok: bool)

  /** _next_sequence_number: the query sees committed and flushed rows, `db.new` the rest. */
  function NextNumber(s: SessionState, id: nat): nat {
    var persisted := MaxSequence(s.committed + s.flushed, id);
    var unsent := MaxSequence(s.pending, id);
    (if persisted >= unsent then persisted else unsent) + 1
  }

  /** _add_transition: refuses a row that has not been given an id yet. */
  function AddTransition(s: SessionState, id: nat, from: Option<Status>, to: Status): SessionStep {
    if id >= s.saved then SessionStep(s, false)
    else SessionStep(s.(pending := s.pending + [Transition(id, NextNumber(s, id), from, to)]), true)
  }

  function RecordInitialStep(s: SessionState, id: nat): SessionStep
    requires id < |s.executions|
  {
    if s.executions[id].status != Created then SessionStep(s, false)
    else AddTransition(s, id, None, Created)
  }

  /** transition_order_execution: the status is assigned before the id is looked at. */
  function MoveStep(s: SessionState, id: nat, to: Status): SessionStep
    requires id < |s.executions|
  {
    var e := s.executions[id];
    if to !in Allowed(e.status) then SessionStep(s, false)
    else AddTransition(s.(executions := s.executions[id := e.(status := to)]), id, Some(e.status), to)
  }

  function Flushed(s: SessionState): SessionState {
    s.(saved := |s.executions|, flushed := s.flushed + s.pending, pending := [])
  }

  function Committed(s: SessionState): SessionState {
    SessionState(s.executions, |s.executions|, s.executions, s.committed + s.flushed + s.pending, [], [])
  }

  function RolledBack(s: SessionState): SessionState {
    SessionState(s.durable, |s.durable|, s.durable, s.committed, [], [])
  }

  function StepSession(s: SessionState, op: SessionOp): SessionStep {
    match op
    case Add(e) => SessionStep(s.(executions := s.executions + [e]), true)
    case RecordInitial(id) =>
      if id < |s.executions| then RecordInitialStep(s, id) else SessionStep(s, false)
    case Move(id, to) =>
      if id < |s.executions| then MoveStep(s, id, to) else SessionStep(s, false)
    case Flush => SessionStep(Flushed(s), true)
    case Commit => SessionStep(Committed(s), true)
    case Rollback => SessionStep(RolledBack(s), true)
  }

  /** A row is either unrecorded and CREATED, or has an id and a log that replays to it. */
  ghost predicate RowOk(o: Orders, id: nat, saved: nat)
    requires id < |o.executions|
  {
    || (o.History(id) == [] && o.executions[id].status == Created)
    || (id < saved && Replays(o.History(id), o.executions[id].status))
  }

  ghost predicate OrdersOk(o: Orders, saved: nat) {
    && (forall id :: 0 <= id < |o.executions| ==> RowOk(o, id, saved))
    && (forall t :: t in o.log ==> t.execution < saved)
  }

  ghost predicate SessionOk(s: SessionState) {
    && s.saved <= |s.executions|
    && |s.durable| <= s.saved
    && OrdersOk(s.Now(), s.saved)
    && OrdersOk(s.Durable(), |s.durable|)
  }

  /** The uses that leave a log that no longer replays: a row born past CREATED, a second
      initial entry, and a move on a row that has no id or no initial entry yet. */
  ghost predicate Misuse(s: SessionState, op: SessionOp) {
    match op
    case Add(e) => e.status != Created
    case RecordInitial(id) =>
      id < s.saved && id < |s.executions| && s.executions[id].status == Created && s.Now().History(id) != []
    case Move(id, to) =>
      id < |s.executions| && to in Allowed(s.executions[id].status) && s.Now().History(id) == []
    case _ => false
  }

  lemma NextNumberIsNextSequence(s: SessionState, id: nat)
    ensures NextNumber(s, id) == s.Now().NextSequence(id)
  {
    MaxSequenceAppend(s.committed + s.flushed, s.pending, id);
  }

  /** On the whole snapshot, a logged step appends exactly one row. */
  lemma AddTransitionRecords(s: SessionState, id: nat, from: Option<Status>, to: Status)
    requires id < s.saved
    ensures AddTransition(s, id, from, to).ok
    ensures AddTransition(s, id, from, to).state.Now() == s.Now().Recorded(id, from, to)
  {
    NextNumberIsNextSequence(s, id);
    var t := Transition(id, NextNumber(s, id), from, to);
    assert s.committed + s.flushed + (s.pending + [t]) == s.committed + s.flushed + s.pending + [t];
  }

  /** On the whole snapshot, a successful transition is an advance. */
  lemma MoveAdvances(s: SessionState, id: nat, to: Status)
    requires id < s.saved <= |s.executions| && to in Allowed(s.executions[id].status)
    ensures MoveStep(s, id, to).ok
    ensures MoveStep(s, id, to).state.Now() == s.Now().Advance(id, to, None)
    ensures MoveStep(s, id, to).state.saved == s.saved
  {
    var e := s.executions[id];
    AddTransitionRecords(s.(executions := s.executions[id := e.(status := to)]), id, Some(e.status), to);
  }

  /** A commit makes exactly the current snapshot durable. */
  lemma CommitIsDurable(s: SessionState)
    ensures Committed(s).Clean() && Committed(s).Now() == Committed(s).Durable() == s.Now()
    ensures Committed(s).executions == s.executions
  {
    assert s.committed + s.flushed + s.pending + [] + [] == s.committed + s.flushed + s.pending;
  }

  /** add, flush and record_initial_order_state together insert one recorded row. */
  lemma CreationInserts(s: SessionState, e: Execution)
    requires s.Clean() && e.status == Created
    ensures var made := RecordInitialStep(Flushed(StepSession(s, Add(e)).state), |s.executions|);
            && made.ok && made.state.Now() == s.Now().Insert(e)
            && made.state.saved == |made.state.executions|
  {
    var flushed := Flushed(StepSession(s, Add(e)).state);
    AddTransitionRecords(flushed, |s.executions|, None, Created);
    assert flushed.Now().log == s.Now().log;
  }

  lemma RecordedHistory(o: Orders, id: nat, from: Option<Status>, to: Status, other: nat)
    ensures o.Recorded(id, from, to).History(other)
         == o.History(other) + (if other == id then [Transition(id, o.NextSequence(id), from, to)] else [])
  {
    LogOfPush(o.log, Transition(id, o.NextSequence(id), from, to), other);
  }

  /** An allowed move extends a log that replays to one that replays to the new status. */
  lemma MoveReplays(log: seq<Transition>, t: Transition, from: Status)
    requires Replays(log, from)
    requires t.sequence == |log| + 1 && t.from == Some(from) && t.to in Allowed(from)
    ensures Replays(log + [t], t.to)
  {
  }

  lemma UnrecordedHistory(o: Orders, id: nat, saved: nat)
    requires OrdersOk(o, saved) && id >= saved
    ensures o.History(id) == []
  {
    AbsentFromLog(o.log, id);
  }

  lemma OtherRowKept(o: Orders, id: nat, from: Option<Status>, to: Status, other: nat, saved: nat)
    requires other < |o.executions| && other != id && RowOk(o, other, saved)
    ensures RowOk(o.Recorded(id, from, to), other, saved)
  {
    RecordedHistory(o, id, from, to, other);
    assert o.Recorded(id, from, to).History(other) == o.History(other);
  }

  lemma FirstEntryReplays(o: Orders, id: nat, saved: nat)
    requires id < |o.executions| && id < saved
    requires o.executions[id].status == Created && o.History(id) == []
    ensures RowOk(o.Recorded(id, None, Created), id, saved)
  {
    RecordedHistory(o, id, None, Created, id);
    NumberedLogMaximum(o.log, id);
    assert o.Recorded(id, None, Created).History(id) == [Transition(id, 1, None, Created)];
  }

  /** record_initial_order_state on a row with an id and no log yet. */
  lemma InitialKeepsOrders(o: Orders, id: nat, saved: nat)
    requires OrdersOk(o, saved) && saved <= |o.executions| && id < saved
    requires o.executions[id].status == Created && o.History(id) == []
    ensures OrdersOk(o.Recorded(id, None, Created), saved)
  {
    var o' := o.Recorded(id, None, Created);
    FirstEntryReplays(o, id, saved);
    forall other | 0 <= other < |o'.executions| ensures RowOk(o', other, saved) {
      assert RowOk(o, other, saved);
      if other != id { OtherRowKept(o, id, None, Created, other, saved); }
    }
  }

  lemma AdvanceKeepsOrders(o: Orders, id: nat, to: Status, exchangeId: Option<string>, saved: nat)
    requires OrdersOk(o, saved) && saved <= |o.executions| && id < saved
    requires o.History(id) != [] && to in Allowed(o.executions[id].status)
    ensures OrdersOk(o.Advance(id, to, exchangeId), saved)
  {
    var o' := o.Advance(id, to, exchangeId);
    var from := o.executions[id].status;
    assert RowOk(o, id, saved);
    NumberedLogMaximum(o.log, id);
    forall other | 0 <= other < |o'.executions| ensures RowOk(o', other, saved) {
      RecordedHistory(Orders(o'.executions, o.log), id, Some(from), to, other);
      assert RowOk(o, other, saved);
      if other == id {
        MoveReplays(o.History(id), Transition(id, o.NextSequence(id), Some(from), to), from);
      } else {
        assert o'.History(other) == o.History(other);
      }
    }
  }

  lemma SavingKeepsOrders(o: Orders, saved: nat)
    requires OrdersOk(o, saved) && saved <= |o.executions|
    ensures OrdersOk(o, |o.executions|)
  {
    forall id | 0 <= id < |o.executions| ensures RowOk(o, id, |o.executions|) {
      assert RowOk(o, id, saved);
    }
  }

  lemma AddKeepsOrders(o: Orders, e: Execution, saved: nat)
    requires OrdersOk(o, saved) && saved <= |o.executions| && e.status == Created
    ensures OrdersOk(Orders(o.executions + [e], o.log), saved)
  {
    var o' := Orders(o.executions + [e], o.log);
    UnrecordedHistory(o, |o.executions|, saved);
    forall id | 0 <= id < |o'.executions| ensures RowOk(o', id, saved) {
      assert id < |o.executions| ==> RowOk(o, id, saved);
    }
  }

  lemma ProperUseKeepsSession(s: SessionState, op: SessionOp)
    requires SessionOk(s) && !Misuse(s, op)
    ensures SessionOk(StepSession(s, op).state)
  {
    match op {
      case Add(e) =>
        AddKeepsOrders(s.Now(), e, s.saved);
      case RecordInitial(id) =>
        if id < s.saved && s.executions[id].status == Created {
          AddTransitionRecords(s, id, None, Created);
          InitialKeepsOrders(s.Now(), id, s.saved);
        }
      case Move(id, to) =>
        if id < |s.executions| && to in Allowed(s.executions[id].status) {
          if id >= s.saved { UnrecordedHistory(s.Now(), id, s.saved); }
          var e := s.executions[id];
          AddTransitionRecords(s.(executions := s.executions[id := e.(status := to)]), id, Some(e.status), to);
          AdvanceKeepsOrders(s.Now(), id, to, None, s.saved);
        }
      case Flush =>
        assert Flushed(s).Now().log == s.Now().log;
        SavingKeepsOrders(s.Now(), s.saved);
      case Commit =>
        assert Committed(s).Now().log == s.Now().log;
        SavingKeepsOrders(s.Now(), s.saved);
      case Rollback =>
        assert RolledBack(s).Now().log == s.Durable().log;
    }
  }

  lemma SecondInitialEntryBreaks(o: Orders, id: nat, saved: nat)
    requires id < |o.executions| && o.History(id) != []
    ensures !OrdersOk(o.Recorded(id, None, Created), saved)
  {
    var o' := o.Recorded(id, None, Created);
    RecordedHistory(o, id, None, Created, id);
    var log := o'.History(id);
    var k := |log| - 1;
    assert k >= 1 && log[k].from == None && log[k].from != Some(log[k - 1].to);
    assert !Replays(log, o'.executions[id].status);
    assert !RowOk(o', id, saved);
  }

  lemma MoveBeforeInitialEntryBreaks(o: Orders, id: nat, to: Status, saved: nat)
    requires id < |o.executions| && o.History(id) == []
    ensures !OrdersOk(o.Advance(id, to, None), saved)
  {
    var o' := o.Advance(id, to, None);
    var from := Some(o.executions[id].status);
    RecordedHistory(Orders(o'.executions, o.log), id, from, to, id);
    assert o'.History(id)[0].from == from;
    assert !RowOk(o', id, saved);
  }

  lemma MisuseBreaksSession(s: SessionState, op: SessionOp)
    requires SessionOk(s) && Misuse(s, op)
    ensures !SessionOk(StepSession(s, op).state)
  {
    match op {
      case Add(e) =>
        UnrecordedHistory(s.Now(), |s.executions|, s.saved);
        assert !RowOk(StepSession(s, op).state.Now(), |s.executions|, s.saved);
      case RecordInitial(id) =>
        AddTransitionRecords(s, id, None, Created);
        SecondInitialEntryBreaks(s.Now(), id, s.saved);
      case Move(id, to) =>
        var e := s.executions[id];
        if id < s.saved {
          AddTransitionRecords(s.(executions := s.executions[id := e.(status := to)]), id, Some(e.status), to);
          MoveBeforeInitialEntryBreaks(s.Now(), id, to, s.saved);
        } else {
          assert to != Created;
          assert !RowOk(StepSession(s, op).state.Now(), id, s.saved);
        }
    }
  }

  /** Exactly the misuses break log replay; every other call keeps it, also when it raises. */
  lemma ReplayKeptExactlyWithoutMisuse(s: SessionState, op: SessionOp)
    requires SessionOk(s)
    ensures SessionOk(StepSession(s, op).state) <==> !Misuse(s, op)
  {
    if Misuse(s, op) {
      MisuseBreaksSession(s, op);
    } else {
      ProperUseKeepsSession(s, op);
    }
  }

  function RunSession(s: SessionState, ops: seq<SessionOp>): SessionState
    decreases |ops|
  {
    if ops == [] then s else RunSession(StepSession(s, ops[0]).state, ops[1..])
  }

  ghost predicate Disciplined(s: SessionState, ops: seq<SessionOp>)
    decreases |ops|
  {
    ops == [] || (!Misuse(s, ops[0]) && Disciplined(StepSession(s, ops[0]).state, ops[1..]))
  }

  const EmptySession := SessionState([], 0, [], [], [], [])

  /** Log replay under every interleaving of adds, transitions, flushes, commits and rollbacks. */
  lemma {:induction false} LogReplaysOnEveryRun(s: SessionState, ops: seq<SessionOp>)
    requires SessionOk(s) && Disciplined(s, ops)
    ensures SessionOk(RunSession(s, ops))
    decreases |ops|
  {
    if ops != [] {
      ProperUseKeepsSession(s, ops[0]);
      LogReplaysOnEveryRun(StepSession(s, ops[0]).state, ops[1..]);
    }
  }

  lemma DisciplinedFirst(s: SessionState, op: SessionOp, rest: seq<SessionOp>)
    requires !Misuse(s, op) && Disciplined(StepSession(s, op).state, rest)
    ensures Disciplined(s, [op] + rest)
  {
    assert ([op] + rest)[1..] == rest;
  }

  lemma AddedIsUnrecorded(s: SessionState, e: Execution)
    requires SessionOk(s)
    ensures var s2 := Flushed(StepSession(s, Add(e)).state);
            s2.Now().History(|s.executions|) == [] && s2.saved == |s2.executions| == |s.executions| + 1
  {
    UnrecordedHistory(s.Now(), |s.executions|, s.saved);
    assert Flushed(StepSession(s, Add(e)).state).Now().log == s.Now().log;
  }

  lemma RecordedHasHistory(s: SessionState, id: nat)
    requires id < s.saved && id < |s.executions| && s.executions[id].status == Created
    ensures StepSession(s, RecordInitial(id)).state.Now().History(id) != []
  {
    AddTransitionRecords(s, id, None, Created);
    RecordedHistory(s.Now(), id, None, Created, id);
  }

  lemma FlushedCreation(s: SessionState, id: nat, to: Status)
    requires id < s.saved && id < |s.executions| && s.executions[id].status == Created && s.Now().History(id) == []
    ensures Disciplined(s, [RecordInitial(id), Move(id, to)])
  {
    RecordedHasHistory(s, id);
    var next := StepSession(s, RecordInitial(id)).state;
    assert Disciplined(next, [Move(id, to)]) by {
      DisciplinedFirst(next, Move(id, to), []);
      assert [Move(id, to)] + [] == [Move(id, to)];
    }
    DisciplinedFirst(s, RecordInitial(id), [Move(id, to)]);
    assert [RecordInitial(id)] + [Move(id, to)] == [RecordInitial(id), Move(id, to)];
  }

  /** The creation sequence the callers use is disciplined from any good session. */
  lemma CreationIsDisciplined(s: SessionState, e: Execution, to: Status)
    requires SessionOk(s) && e.status == Created
    ensures Disciplined(s, [Add(e), Flush, RecordInitial(|s.executions|), Move(|s.executions|, to)])
  {
    var id := |s.executions|;
    var s1 := StepSession(s, Add(e)).state;
    var rest := [RecordInitial(id), Move(id, to)];
    AddedIsUnrecorded(s, e);
    FlushedCreation(Flushed(s1), id, to);
    DisciplinedFirst(s1, Flush, rest);
    DisciplinedFirst(s, Add(e), [Flush] + rest);
    assert [Add(e)] + ([Flush] + rest) == [Add(e), Flush, RecordInitial(id), Move(id, to)];
  }

  // ---- what a session keeps, shows and forgets ------------------------------------------------

  /** Only a commit changes what is durable; a flush changes nothing that is visible. */
  lemma OnlyCommitIsDurable(s: SessionState, op: SessionOp)
    ensures op != Commit ==> StepSession(s, op).state.Durable() == s.Durable()
    ensures op == Commit ==> StepSession(s, op).state.Durable() == s.Now()
    ensures op == Flush || op == Commit ==> StepSession(s, op).state.Now() == s.Now()
  {
    if op == Flush { assert Flushed(s).Now().log == s.Now().log; }
    if op == Commit { assert Committed(s).Now().log == s.Now().log; }
  }

  /** Whatever was done since the last commit, a rollback returns to what that made durable. */
  lemma {:induction false} RollbackRestores(s: SessionState, ops: seq<SessionOp>)
    requires Commit !in ops
    ensures StepSession(RunSession(s, ops), Rollback).state.Now() == s.Durable()
    ensures StepSession(RunSession(s, ops), Rollback).state.Clean()
    decreases |ops|
  {
    if ops == [] {
      assert RolledBack(s).Now().log == s.Durable().log;
    } else {
      OnlyCommitIsDurable(s, ops[0]);
      RollbackRestores(StepSession(s, ops[0]).state, ops[1..]);
    }
  }

  /** When a call succeeds; and one that fails changes nothing, except that a transition of a row
      without an id has already assigned the status. */
  lemma SessionCallSucceedsIff(s: SessionState, op: SessionOp)
    requires s.saved <= |s.executions|
    ensures StepSession(s, op).ok <==>
      match op
      case RecordInitial(id) => id < s.saved && s.executions[id].status == Created
      case Move(id, to) => id < s.saved && to in Allowed(s.executions[id].status)
      case _ => true
    ensures !StepSession(s, op).ok ==>
      && StepSession(s, op).state.Now().log == s.Now().log
      && (StepSession(s, op).state == s
          || (op.Move? && s.saved <= op.id < |s.executions|
              && StepSession(s, op).state.executions
                 == s.executions[op.id := s.executions[op.id].(status := op.to)]))
  {
  }

  /** Without the self-loop, ranks climb from 0 and a log holds at most six entries. */
  ghost predicate Climbs(log: seq<Transition>) {
    forall i :: 1 <= i < |log| ==> Rank(log[i - 1].to) < Rank(log[i].to)
  }

  lemma {:induction false} ClimbingLogIsShort(log: seq<Transition>, i: nat)
    requires Climbs(log) && i < |log|
    ensures i <= Rank(log[i].to) <= 5
  {
    if i > 0 {
      ClimbingLogIsShort(log, i - 1);
    }
  }

  lemma AllowedEdgesClimb(from: Status, to: Status)
    requires to in Allowed(from)
    ensures Rank(from) < Rank(to) || (from == PartiallyFilled && to == PartiallyFilled)
    ensures !Terminal(from)
  {
  }

  /** The session object: fields are updated in place by the service functions. */
  class OrderSession {
    var executions: seq<Execution>
    var saved: nat
    var durable: seq<Execution>
    var committed: seq<Transition>
    var flushed: seq<Transition>
    var pending: seq<Transition>

    ghost function State(): SessionState
      reads this
    {
      SessionState(executions, saved, durable, committed, flushed, pending)
    }

    constructor ()
      ensures State() == EmptySession
    {
      executions, saved, durable := [], 0, [];
      committed, flushed, pending := [], [], [];
    }

    method AddExecution(e: Execution) returns (id: nat)
      modifies this
      ensures State() == StepSession(old(State()), Add(e)).state
      ensures id == old(|executions|)
    {
      id := |executions|;
      executions := executions + [e];
    }

    method FlushRows()
      modifies this
      ensures State() == Flushed(old(State()))
    {
      saved := |executions|;
      flushed, pending := flushed + pending, [];
    }

    method CommitRows()
      modifies this
      ensures State() == Committed(old(State()))
    {
      FlushRows();
      durable := executions;
      committed := committed + flushed;
      flushed := [];
      assert committed == old(committed) + old(flushed) + old(pending);
    }

    method RollbackRows()
      modifies this
      ensures State() == RolledBack(old(State()))
    {
      executions, saved := durable, |durable|;
      flushed, pending := [], [];
    }

    /** max() over a list of rows, with default 0. */
    static method MaxNumber(rows: seq<Transition>, id: nat) returns (m: nat)
      ensures m == MaxSequence(rows, id)
    {
      m := 0;
      for i := 0 to |rows|
        invariant m == MaxSequence(rows[..i], id)
      {
        assert rows[..i + 1][..i] == rows[..i];
        if rows[i].execution == id && rows[i].sequence > m {
          m := rows[i].sequence;
        }
      }
      assert rows[..|rows|] == rows;
    }

    method AddTransitionRow(id: nat, from: Option<Status>, to: Status) returns (ok: bool)
      modifies this
      ensures State() == AddTransition(old(State()), id, from, to).state
      ensures ok == AddTransition(old(State()), id, from, to).ok
    {
      if id >= saved { return false; }
      var persisted := MaxNumber(committed + flushed, id);
      var unsent := MaxNumber(pending, id);
      var top := if persisted >= unsent then persisted else unsent;
      pending := pending + [Transition(id, top + 1, from, to)];
      ok := true;
    }

    method RecordInitialState(id: nat) returns (ok: bool)
      requires id < |executions|
      modifies this
      ensures State() == RecordInitialStep(old(State()), id).state
      ensures ok == RecordInitialStep(old(State()), id).ok
    {
      if executions[id].status != Created { return false; }
      ok := AddTransitionRow(id, None, Created);
    }

    method NameExchangeOrder(id: nat, exchangeId: string)
      requires id < |executions|
      modifies this`executions
      ensures executions == old(executions)[id := old(executions)[id].(exchangeOrderId := Some(exchangeId))]
    {
      executions := executions[id := executions[id].(exchangeOrderId := Some(exchangeId))];
    }

    method TransitionExecution(id: nat, to: Status) returns (ok: bool)
      requires id < |executions|
      modifies this
      ensures State() == MoveStep(old(State()), id, to).state
      ensures ok == MoveStep(old(State()), id, to).ok
      ensures old(id < saved <= |executions| && to in Allowed(executions[id].status)) ==>
                && ok && saved == old(saved)
                && State().Now() == old(State()).Now().Advance(id, to, None)
    {
      var from := executions[id].status;
      if id < saved <= |executions| && to in Allowed(from) {
        MoveAdvances(State(), id, to);
      }
      if to !in Allowed(from) { return false; }
      executions := executions[id := executions[id].(status := to)];
      ok := AddTransitionRow(id, Some(from), to);
    }
  }
}
