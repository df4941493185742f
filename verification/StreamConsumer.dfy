/** The bounded user-stream consumer: reconnects within a budget, closes what it opened, and
    hands every received payload on, in order. The world it meets is given as functions of how
    often it was asked. */
module StreamConsumer {
  import opened Common

  type Payload = string

  /** open_session: connected, FAILED (a RuntimeError inside), or some other exception. */
  datatype Opening = Opened | OpenFailed | OpenRaised

  datatype Receipt = Received(payload: Payload) | TransportFailed | ReceiveRaised

  datatype Env = Env(
    stop: nat -> bool,             // answer to the n-th should_stop()
    open: nat -> Opening,          // outcome of opening transport n
    receive: (nat, nat) -> Receipt, // what transport n yields as its k-th frame
    handlerRaises: nat -> bool)    // whether the n-th handler call raises

  datatype Status = Stopped | MessageLimitReached | ReconnectExhausted | Raised

  datatype Result = Result(status: Status, messages: nat, reconnects: nat)

  /** What was done: transports created, transports closed in order, handler calls with how many
      each transport delivered, and the delays slept. */
  datatype Trace = Trace(created: nat, closed: seq<nat>, handled: seq<Payload>, frames: seq<nat>, slept: seq<real>)

  function Pow2(n: nat): real { if n == 0 then 1.0 else 2.0 * Pow2(n - 1) }

  /** Delay before reconnect attempt n + 1. */
  function Delay(initial: real, max: real, n: nat): real {
    var d := initial * Pow2(n);
    if d <= max then d else max
  }

  function Delays(initial: real, max: real, n: nat): seq<real> {
    seq(n, i requires 0 <= i < n => Delay(initial, max, i))
  }

  function Sum(s: seq<real>): real {
    if s == [] then 0.0 else Sum(s[..|s| - 1]) + s[|s| - 1]
  }

  function UpTo(n: nat): seq<nat> { seq(n, i requires 0 <= i < n => i) }

  /** The first k payloads of transport c. */
  function Payloads(env: Env, c: nat, k: nat): seq<Payload> {
    if k == 0 then []
    else Payloads(env, c, k - 1)
         + (match env.receive(c, k - 1) case Received(p) => [p] case _ => [])
  }

  /** All payloads, transport after transport. */
  function AllPayloads(env: Env, frames: seq<nat>): seq<Payload> {
    if frames == [] then []
    else AllPayloads(env, frames[..|frames| - 1]) + Payloads(env, |frames| - 1, frames[|frames| - 1])
  }

  /** Transport c ended in the only way that lets the consumer reconnect. */
  predicate Dropped(env: Env, c: nat, frames: nat) {
    (env.open(c) == OpenFailed && frames == 0) || (env.open(c) == Opened && env.receive(c, frames) == TransportFailed)
  }

  lemma AllPayloadsPush(env: Env, frames: seq<nat>, k: nat)
    ensures AllPayloads(env, frames + [k]) == AllPayloads(env, frames) + Payloads(env, |frames|, k)
  {
    assert (frames + [k])[..|frames|] == frames;
  }

  /** Everything the consumer promises about a finished call. */
  ghost predicate Accounted(env: Env, maxReconnects: nat, initial: real, max: real, limit: Option<int>, r: Result,
      t: Trace) {
    // One transport per attempt and one to start with, unless stopped before opening it.
    && r.reconnects <= t.created <= r.reconnects + 1
    && (t.created == r.reconnects ==> r.status == Stopped)
    && r.reconnects <= maxReconnects
    && (r.status == ReconnectExhausted ==> r.reconnects == maxReconnects && t.created > 0)
    // Every transport is closed exactly once, in order; only one whose opening raised is not.
    && |t.frames| == t.created
    && t.closed == (if r.status == Raised && env.open(t.created - 1) == OpenRaised then UpTo(t.created - 1)
           else UpTo(t.created))
    // The handler saw exactly what was received, in order, and only its last call may have raised.
    && t.handled == AllPayloads(env, t.frames)
    && (forall i :: 0 <= i < r.messages ==> !env.handlerRaises(i))
    && (|| |t.handled| == r.messages
        || (|t.handled| == r.messages + 1 && r.status == Raised && env.handlerRaises(r.messages)))
    // It went on to the next transport only after a failure.
    && (forall c :: 0 <= c < t.created && (c < t.created - 1 || r.status == ReconnectExhausted) ==>
           Dropped(env, c, t.frames[c]))
    // The message limit is never exceeded, and reported exactly when it is met.
    && (limit.Some? ==> r.messages <= limit.value)
    && (r.status == MessageLimitReached <==> limit.Some? && r.messages == limit.value)
    // One backoff per reconnect.
    && t.slept == Delays(initial, max, r.reconnects)
  }

  /** What holds whenever the consumer is about to open another transport. */
  ghost predicate Progress(env: Env, initial: real, max: real, limit: Option<int>, r: Result, t: Trace) {
    && |t.frames| == t.created && t.closed == UpTo(t.created)
    && t.handled == AllPayloads(env, t.frames) && |t.handled| == r.messages
    && (forall i :: 0 <= i < r.messages ==> !env.handlerRaises(i))
    && (forall c :: 0 <= c < t.created ==> Dropped(env, c, t.frames[c]))
    && (limit.Some? ==> r.messages < limit.value)
    && t.slept == Delays(initial, max, r.reconnects)
  }

  lemma OneMore(initial: real, max: real, n: nat)
    ensures UpTo(n + 1) == UpTo(n) + [n]
    ensures Delays(initial, max, n + 1) == Delays(initial, max, n) + [Delay(initial, max, n)]
  {
  }

  /** One transport more, opened or not, that was closed with `k` frames delivered. */
  lemma TransportClosed(env: Env, initial: real, max: real, limit: Option<int>, r: Result, t: Trace,
                        handled: seq<Payload>, k: nat)
    requires Progress(env, initial, max, limit, r, t)
    requires handled == t.handled + Payloads(env, t.created, k)
    ensures var t' := Trace(t.created + 1, t.closed + [t.created], handled, t.frames + [k], t.slept);
            && |t'.frames| == t'.created && t'.closed == UpTo(t'.created)
            && t'.handled == AllPayloads(env, t'.frames)
            && (forall c :: 0 <= c < t.created ==> Dropped(env, c, t'.frames[c]))
  {
    OneMore(initial, max, t.created);
    AllPayloadsPush(env, t.frames, k);
  }

  /** One delivered frame more. */
  lemma PayloadsPush(env: Env, c: nat, k: nat, p: Payload)
    requires env.receive(c, k) == Received(p)
    ensures Payloads(env, c, k + 1) == Payloads(env, c, k) + [p]
  {
  }

  // ---- why and where it ends ---------------------------------------------------------------

  /** How the receive loop on one transport ended. */
  datatype End = SawStop | Failed | LimitMet | ReceiveEscaped | HandlerEscaped

  /** Frame `i` of transport `c` came in and was handed on, and the loop went on after it; the loop
      asked should_stop() from its answer `base` on, with `m` messages handed on before. */
  predicate Passed(env: Env, c: nat, base: nat, m: nat, limit: Option<int>, i: nat) {
    && !env.stop(base + i) && env.receive(c, i).Received? && !env.handlerRaises(m + i)
    && (limit.Some? ==> m + i + 1 < limit.value)
  }

  ghost predicate AllPassed(env: Env, c: nat, base: nat, m: nat, limit: Option<int>, k: nat) {
    forall i :: 0 <= i < k ==> Passed(env, c, base, m, limit, i)
  }

  /** The first `f` frames passed, and one more came in. */
  ghost predicate CameIn(env: Env, c: nat, base: nat, m: nat, limit: Option<int>, f: nat) {
    AllPassed(env, c, base, m, limit, f) && !env.stop(base + f) && env.receive(c, f).Received?
  }

  /** The loop ended in this way after `k` frames came in. */
  ghost predicate EndsAt(env: Env, c: nat, base: nat, m: nat, limit: Option<int>, end: End, k: nat) {
    match end
    case SawStop => AllPassed(env, c, base, m, limit, k) && env.stop(base + k)
    case Failed =>
      AllPassed(env, c, base, m, limit, k) && !env.stop(base + k) && env.receive(c, k) == TransportFailed
    case ReceiveEscaped =>
      AllPassed(env, c, base, m, limit, k) && !env.stop(base + k) && env.receive(c, k) == ReceiveRaised
    case HandlerEscaped =>
      k > 0 && CameIn(env, c, base, m, limit, k - 1) && env.handlerRaises(m + k - 1)
    case LimitMet =>
      k > 0 && CameIn(env, c, base, m, limit, k - 1) && !env.handlerRaises(m + k - 1) && limit == Some(m + k)
  }

  /** Messages counted: a frame whose handler raised is not. */
  function Counted(end: End, k: nat): int {
    if end == HandlerEscaped then k - 1 else k
  }

  /** The frame at which the loop did not go on. */
  function Turn(end: End, k: nat): int {
    if end == HandlerEscaped || end == LimitMet then k - 1 else k
  }

  lemma LoopEndsOnce(env: Env, c: nat, base: nat, m: nat, limit: Option<int>, end: End, k: nat, end': End, k': nat)
    requires EndsAt(env, c, base, m, limit, end, k) && EndsAt(env, c, base, m, limit, end', k')
    ensures end == end' && k == k'
  {
    var f, f' := Turn(end, k), Turn(end', k');
    assert !Passed(env, c, base, m, limit, f) && !Passed(env, c, base, m, limit, f');
    assert AllPassed(env, c, base, m, limit, f) && AllPassed(env, c, base, m, limit, f');
    assert f == f';
  }

  /** should_stop() calls made for the first `n` transports, all dropped: one before each, and for
      an opened one also one per receive and one after it was closed. */
  function Asks(env: Env, frames: seq<nat>, n: nat): nat
    requires n <= |frames|
  {
    if n == 0 then 0
    else Asks(env, frames, n - 1) + (if env.open(n - 1) == Opened then frames[n - 1] + 3 else 1)
  }

  /** Frames that came in on the first `n` transports. */
  function Total(frames: seq<nat>, n: nat): nat
    requires n <= |frames|
  {
    if n == 0 then 0 else Total(frames, n - 1) + frames[n - 1]
  }

  lemma {:induction false} SamePrefix(env: Env, frames: seq<nat>, frames': seq<nat>, n: nat)
    requires n <= |frames| && n <= |frames'| && forall i :: 0 <= i < n ==> frames[i] == frames'[i]
    ensures Asks(env, frames, n) == Asks(env, frames', n) && Total(frames, n) == Total(frames', n)
  {
    if n > 0 { SamePrefix(env, frames, frames', n - 1); }
  }

  /** Transport `c`, opened after `asked` answers and `m` messages, failed after `k` frames. */
  ghost predicate DroppedLeg(env: Env, c: nat, asked: nat, m: nat, limit: Option<int>, k: nat) {
    && !env.stop(asked)
    && (|| (env.open(c) == OpenFailed && k == 0)
        || (&& env.open(c) == Opened && EndsAt(env, c, asked + 1, m, limit, Failed, k)
            && !env.stop(asked + k + 2)))
  }

  ghost predicate Leg(env: Env, limit: Option<int>, frames: seq<nat>, c: nat)
    requires c < |frames|
  {
    DroppedLeg(env, c, Asks(env, frames, c), Total(frames, c), limit, frames[c])
  }

  ghost predicate Legs(env: Env, limit: Option<int>, frames: seq<nat>, n: nat)
    requires n <= |frames|
  {
    forall c :: 0 <= c < n ==> Leg(env, limit, frames, c)
  }

  /** 2 ** 1024 does not fit a float: the 1025th delay raises instead of being slept. */
  const MAX_DOUBLINGS := 1024

  /** After a failure: out of budget, or out of floats. */
  predicate GivesUp(reconnects: nat, maxReconnects: nat, status: Status) {
    if reconnects >= maxReconnects then status == ReconnectExhausted
    else reconnects == MAX_DOUBLINGS && status == Raised
  }

  /** The status a call ends with on transport `c`. */
  ghost predicate LastLeg(env: Env, c: nat, maxReconnects: nat, asked: nat, m: nat, limit: Option<int>, k: nat,
                          status: Status, messages: nat) {
    && !env.stop(asked)
    && match env.open(c)
       case OpenRaised => k == 0 && messages == m && status == Raised
       case OpenFailed => k == 0 && messages == m && GivesUp(c, maxReconnects, status)
       case Opened =>
         exists end ::
           && EndsAt(env, c, asked + 1, m, limit, end, k)
           && messages == m + Counted(end, k)
           && match end
              case ReceiveEscaped | HandlerEscaped => status == Raised
              case LimitMet => status == MessageLimitReached
              case SawStop => status == Stopped
              case Failed => if env.stop(asked + k + 2) then status == Stopped else GivesUp(c, maxReconnects, status)
  }

  /** The same, with the status of a transport that is not given up read off its end. */
  ghost predicate EndedOn(env: Env, c: nat, maxReconnects: nat, asked: nat, m: nat, limit: Option<int>, k: nat,
                          status: Status, messages: nat, end: End) {
    && EndsAt(env, c, asked + 1, m, limit, end, k) && messages == m + Counted(end, k)
    && if end == Failed && !env.stop(asked + k + 2) then GivesUp(c, maxReconnects, status)
       else status == StatusAfter(end)
  }

  lemma LastLegEnds(env: Env, c: nat, maxReconnects: nat, asked: nat, m: nat, limit: Option<int>, k: nat,
                    status: Status, messages: nat) returns (end: End)
    requires LastLeg(env, c, maxReconnects, asked, m, limit, k, status, messages) && env.open(c) == Opened
    ensures EndedOn(env, c, maxReconnects, asked, m, limit, k, status, messages, end)
  {
    end :| && EndsAt(env, c, asked + 1, m, limit, end, k)
           && messages == m + Counted(end, k)
           && match end
              case ReceiveEscaped | HandlerEscaped => status == Raised
              case LimitMet => status == MessageLimitReached
              case SawStop => status == Stopped
              case Failed => if env.stop(asked + k + 2) then status == Stopped else GivesUp(c, maxReconnects, status);
  }

  function StatusAfter(end: End): Status {
    match end
    case ReceiveEscaped | HandlerEscaped => Raised
    case LimitMet => MessageLimitReached
    case SawStop | Failed => Stopped
  }

  /** Why a call ended where it did: every reconnect followed a failure with no stop in sight, and
      the status is what the last answer, transport or message made it. */
  ghost predicate Explained(env: Env, maxReconnects: nat, limit: Option<int>, r: Result, t: Trace) {
    && |t.frames| == t.created && r.reconnects <= t.created <= r.reconnects + 1
    && r.reconnects <= maxReconnects && r.reconnects <= MAX_DOUBLINGS
    && Legs(env, limit, t.frames, r.reconnects)
    && var asked, m := Asks(env, t.frames, r.reconnects), Total(t.frames, r.reconnects);
       if t.created == r.reconnects then env.stop(asked) && r.status == Stopped && r.messages == m
       else LastLeg(env, r.reconnects, maxReconnects, asked, m, limit, t.frames[r.reconnects], r.status, r.messages)
  }

  lemma LegEndsOnce(env: Env, c: nat, asked: nat, m: nat, limit: Option<int>, k: nat, k': nat)
    requires DroppedLeg(env, c, asked, m, limit, k) && DroppedLeg(env, c, asked, m, limit, k')
    ensures k == k'
  {
    if env.open(c) == Opened {
      LoopEndsOnce(env, c, asked + 1, m, limit, Failed, k, Failed, k');
    }
  }

  lemma {:induction false} LegsAgree(env: Env, limit: Option<int>, frames: seq<nat>, frames': seq<nat>, n: nat)
    requires n <= |frames| && n <= |frames'| && Legs(env, limit, frames, n) && Legs(env, limit, frames', n)
    ensures forall i :: 0 <= i < n ==> frames[i] == frames'[i]
  {
    if n > 0 {
      LegsAgree(env, limit, frames, frames', n - 1);
      SamePrefix(env, frames, frames', n - 1);
      assert Leg(env, limit, frames, n - 1) && Leg(env, limit, frames', n - 1);
      LegEndsOnce(env, n - 1, Asks(env, frames, n - 1), Total(frames, n - 1), limit, frames[n - 1], frames'[n - 1]);
    }
  }

  /** A transport the consumer went on from cannot be one it ended on. */
  lemma LastIsNotDropped(env: Env, c: nat, maxReconnects: nat, asked: nat, m: nat, limit: Option<int>,
                         k: nat, status: Status, messages: nat, k': nat)
    requires LastLeg(env, c, maxReconnects, asked, m, limit, k, status, messages)
    requires DroppedLeg(env, c, asked, m, limit, k')
    ensures GivesUp(c, maxReconnects, status)
  {
    if env.open(c) == Opened {
      var end := LastLegEnds(env, c, maxReconnects, asked, m, limit, k, status, messages);
      LoopEndsOnce(env, c, asked + 1, m, limit, end, k, Failed, k');
    }
  }

  lemma LastLegIsOne(env: Env, c: nat, maxReconnects: nat, asked: nat, m: nat, limit: Option<int>,
                     k: nat, status: Status, messages: nat, k': nat, status': Status, messages': nat)
    requires LastLeg(env, c, maxReconnects, asked, m, limit, k, status, messages)
    requires LastLeg(env, c, maxReconnects, asked, m, limit, k', status', messages')
    ensures k == k' && status == status' && messages == messages'
  {
    if env.open(c) == Opened {
      var end := LastLegEnds(env, c, maxReconnects, asked, m, limit, k, status, messages);
      var end' := LastLegEnds(env, c, maxReconnects, asked, m, limit, k', status', messages');
      LoopEndsOnce(env, c, asked + 1, m, limit, end, k, end', k');
    }
  }

  lemma SameReconnects(env: Env, maxReconnects: nat, limit: Option<int>, r: Result, t: Trace, r': Result, t': Trace)
    requires Explained(env, maxReconnects, limit, r, t) && Explained(env, maxReconnects, limit, r', t')
    ensures r.reconnects >= r'.reconnects
  {
    var n := r.reconnects;
    if n < r'.reconnects {
      LegsAgree(env, limit, t.frames, t'.frames, n);
      SamePrefix(env, t.frames, t'.frames, n);
      var asked, m := Asks(env, t.frames, n), Total(t.frames, n);
      assert Leg(env, limit, t'.frames, n);
      if t.created > n {
        LastIsNotDropped(env, n, maxReconnects, asked, m, limit, t.frames[n], r.status, r.messages, t'.frames[n]);
      }
    }
  }

  lemma SameEnd(env: Env, maxReconnects: nat, limit: Option<int>, r: Result, t: Trace, r': Result, t': Trace)
    requires Explained(env, maxReconnects, limit, r, t) && Explained(env, maxReconnects, limit, r', t')
    ensures r == r' && t.frames == t'.frames && t.created == t'.created
  {
    SameReconnects(env, maxReconnects, limit, r, t, r', t');
    SameReconnects(env, maxReconnects, limit, r', t', r, t);
    var n := r.reconnects;
    LegsAgree(env, limit, t.frames, t'.frames, n);
    SamePrefix(env, t.frames, t'.frames, n);
    if t.created > n && t'.created > n {
      LastLegIsOne(env, n, maxReconnects, Asks(env, t.frames, n), Total(t.frames, n), limit,
                   t.frames[n], r.status, r.messages, t'.frames[n], r'.status, r'.messages);
    }
  }

  /** The environment determines everything a finished call did and reported. */
  lemma OutcomeIsDetermined(env: Env, maxReconnects: nat, initial: real, max: real, limit: Option<int>,
                            r: Result, t: Trace, r': Result, t': Trace)
    requires Accounted(env, maxReconnects, initial, max, limit, r, t) && Explained(env, maxReconnects, limit, r, t)
    requires Accounted(env, maxReconnects, initial, max, limit, r', t') && Explained(env, maxReconnects, limit, r', t')
    ensures r == r' && t == t'
  {
    SameEnd(env, maxReconnects, limit, r, t, r', t');
  }

  // ---- the loops ------------------------------------------------------------------------------

  /** should_stop() answered no the first `n` times. */
  ghost predicate NotStopped(env: Env, n: nat) {
    forall i :: 0 <= i < n ==> !env.stop(i)
  }

  lemma OneMoreNo(env: Env, n: nat)
    requires NotStopped(env, n) && !env.stop(n)
    ensures NotStopped(env, n + 1)
  {
  }

  /** What the inner loop leaves behind after `k` frames of transport `c`. */
  ghost predicate Drained(env: Env, c: nat, handled0: seq<Payload>, limit: Option<int>,
                          end: End, handled: seq<Payload>, messages: nat, k: nat) {
    && handled == handled0 + Payloads(env, c, k)
    && messages == |handled0| + Counted(end, k)
    && (forall i :: 0 <= i < messages ==> !env.handlerRaises(i))
    && (|handled| == messages || (|handled| == messages + 1 && end == HandlerEscaped && env.handlerRaises(messages)))
    && (limit.Some? ==> messages <= limit.value)
    && (end == LimitMet <==> limit.Some? && messages == limit.value)
    && (end == Failed ==> env.receive(c, k) == TransportFailed)
  }

  lemma {:induction false} PayloadsLength(env: Env, c: nat, base: nat, m: nat, limit: Option<int>, k: nat)
    requires AllPassed(env, c, base, m, limit, k)
    ensures |Payloads(env, c, k)| == k
  {
    if k > 0 {
      assert Passed(env, c, base, m, limit, k - 1);
      PayloadsLength(env, c, base, m, limit, k - 1);
    }
  }

  lemma NoHandlerRaised(env: Env, c: nat, base: nat, m: nat, limit: Option<int>, end: End, k: nat)
    requires EndsAt(env, c, base, m, limit, end, k) && forall i :: 0 <= i < m ==> !env.handlerRaises(i)
    ensures forall i :: 0 <= i < m + Counted(end, k) ==> !env.handlerRaises(i)
  {
    forall i | m <= i < m + Counted(end, k) ensures !env.handlerRaises(i) {
      assert i - m < Turn(end, k) ==> Passed(env, c, base, m, limit, i - m);
    }
  }

  /** How and where the loop ended says what it left behind. */
  lemma EndedIsDrained(env: Env, c: nat, base: nat, handled0: seq<Payload>, limit: Option<int>,
                       end: End, handled: seq<Payload>, messages: nat, k: nat)
    requires EndsAt(env, c, base, |handled0|, limit, end, k)
    requires handled == handled0 + Payloads(env, c, k) && messages == |handled0| + Counted(end, k)
    requires limit.Some? ==> |handled0| < limit.value
    requires forall i :: 0 <= i < |handled0| ==> !env.handlerRaises(i)
    ensures Drained(env, c, handled0, limit, end, handled, messages, k)
  {
    NoHandlerRaised(env, c, base, |handled0|, limit, end, k);
    PayloadsLength(env, c, base, |handled0|, limit, Turn(end, k));
    if Turn(end, k) > 0 {
      assert Passed(env, c, base, |handled0|, limit, Turn(end, k) - 1);
    }
  }

  /** The inner loop: receive and hand on until stopped, failed, or at the message limit. Without
      a limit frame `lastFrame` does not arrive, or the stop is on when it is its turn. */
  method Drain(env: Env, c: nat, asked0: nat, handled0: seq<Payload>, limit: Option<int>, ghost lastFrame: nat)
      returns (end: End, asked: nat, handled: seq<Payload>, messages: nat, k: nat)
    requires limit.Some? ==> |handled0| < limit.value
    requires limit.None? ==> !env.receive(c, lastFrame).Received? || env.stop(asked0 + lastFrame)
    ensures handled == handled0 + Payloads(env, c, k) && messages == |handled0| + Counted(end, k)
    ensures EndsAt(env, c, asked0, |handled0|, limit, end, k) && asked == asked0 + Turn(end, k) + 1
  {
    asked, handled, messages, k, end := asked0 + 1, handled0, |handled0|, 0, Failed;
    var stopNow := env.stop(asked0);
    while !stopNow
      invariant handled == handled0 + Payloads(env, c, k) && |handled| == messages == |handled0| + k
      invariant limit.Some? ==> messages < limit.value
      invariant limit.None? ==> k <= lastFrame
      invariant asked == asked0 + k + 1 && stopNow == env.stop(asked - 1)
      invariant AllPassed(env, c, asked0, |handled0|, limit, k)
      decreases if limit.Some? then limit.value - messages else lastFrame - k
    {
      match env.receive(c, k) {
        case TransportFailed => return;
        case ReceiveRaised =>
          end := ReceiveEscaped;
          return;
        case Received(p) =>
          PayloadsPush(env, c, k, p);
          var raises := env.handlerRaises(|handled|);
          handled, k := handled + [p], k + 1;
          if raises {
            end := HandlerEscaped;
            return;
          }
          messages := messages + 1;
          if limit.Some? && messages >= limit.value {
            end := LimitMet;
            return;
          }
      }
      stopNow := env.stop(asked);
      asked := asked + 1;
    }
    end := SawStop;
  }

  /** A loop that did not end on a stop was never told to. */
  lemma EndedUnstopped(env: Env, c: nat, base: nat, m: nat, limit: Option<int>, end: End, k: nat)
    requires EndsAt(env, c, base, m, limit, end, k) && end != SawStop && NotStopped(env, base)
    ensures NotStopped(env, base + Turn(end, k) + 1)
  {
    forall i | base <= i < base + Turn(end, k) ensures !env.stop(i) {
      assert Passed(env, c, base, m, limit, i - base);
    }
  }

  /** The inner loop, and the question asked once the transport is closed. */
  method DrainAndAsk(env: Env, c: nat, asked0: nat, handled0: seq<Payload>, limit: Option<int>, ghost lastFrame: nat)
      returns (done: bool, end: End, asked: nat, handled: seq<Payload>, messages: nat, k: nat)
    requires asked0 > 0 && (limit.Some? ==> |handled0| < limit.value)
    requires limit.None? ==> !env.receive(c, lastFrame).Received? || env.stop(asked0 + lastFrame)
    ensures handled == handled0 + Payloads(env, c, k) && messages == |handled0| + Counted(end, k)
    ensures EndsAt(env, c, asked0, |handled0|, limit, end, k) && done == EndsCall(env, asked0 - 1, end, k)
    ensures !done ==> asked == asked0 + k + 2
  {
    end, asked, handled, messages, k := Drain(env, c, asked0, handled0, limit, lastFrame);
    var stopNow := false;
    if end == SawStop || end == Failed {
      stopNow := env.stop(asked);
      asked := asked + 1;
    }
    done := end != Failed || stopNow;
  }

  /** Whether the call ends on a drained transport, or goes on. */
  predicate EndsCall(env: Env, asked: nat, end: End, k: nat) {
    end != Failed || env.stop(asked + k + 2)
  }

  /** The trace once transport t.created is closed. */
  function Closed(t: Trace, handled: seq<Payload>, k: nat): Trace {
    Trace(t.created + 1, t.closed + [t.created], handled, t.frames + [k], t.slept)
  }

  /** A drained transport that the consumer does not leave for another one. */
  lemma DrainedSettles(env: Env, maxReconnects: nat, initial: real, max: real, limit: Option<int>, r: Result, t: Trace,
                       end: End, handled: seq<Payload>, messages: nat, k: nat)
    requires Progress(env, initial, max, limit, r, t) && t.created == r.reconnects <= maxReconnects
    requires env.open(t.created) == Opened
    requires Drained(env, t.created, t.handled, limit, end, handled, messages, k)
    ensures Accounted(env, maxReconnects, initial, max, limit, Result(StatusAfter(end), messages, r.reconnects),
                      Closed(t, handled, k))
  {
    TransportClosed(env, initial, max, limit, r, t, handled, k);
  }

  /** One that failed, and that it may leave. */
  lemma DrainedGoesOn(env: Env, initial: real, max: real, limit: Option<int>, r: Result, t: Trace,
                      handled: seq<Payload>, messages: nat, k: nat)
    requires Progress(env, initial, max, limit, r, t) && env.open(t.created) == Opened
    requires Drained(env, t.created, t.handled, limit, Failed, handled, messages, k)
    ensures Progress(env, initial, max, limit, Result(Stopped, messages, r.reconnects), Closed(t, handled, k))
  {
    TransportClosed(env, initial, max, limit, r, t, handled, k);
  }

  /** One that could not connect. */
  lemma UnopenedGoesOn(env: Env, initial: real, max: real, limit: Option<int>, r: Result, t: Trace)
    requires Progress(env, initial, max, limit, r, t) && env.open(t.created) == OpenFailed
    ensures Progress(env, initial, max, limit, r, Closed(t, t.handled, 0))
  {
    TransportClosed(env, initial, max, limit, r, t, t.handled, 0);
  }

  /** One whose opening raised: the exception leaves it unclosed. */
  lemma OpeningRaisedSettles(env: Env, maxReconnects: nat, initial: real, max: real, limit: Option<int>, r: Result,
      t: Trace)
    requires Progress(env, initial, max, limit, r, t) && t.created == r.reconnects <= maxReconnects
    requires env.open(t.created) == OpenRaised
    ensures Accounted(env, maxReconnects, initial, max, limit, r.(status := Raised),
                      t.(created := t.created + 1, frames := t.frames + [0]))
  {
    AllPayloadsPush(env, t.frames, 0);
  }

  /** Where the consumer stands before it asks whether to open another transport. */
  ghost predicate Standing(env: Env, maxReconnects: nat, limit: Option<int>, asked: nat, r: Result, t: Trace) {
    && |t.frames| == t.created == r.reconnects <= maxReconnects && r.reconnects <= MAX_DOUBLINGS
    && Legs(env, limit, t.frames, t.created)
    && asked == Asks(env, t.frames, t.created) && r.messages == Total(t.frames, t.created)
  }

  /** One more dropped transport, and the frames that came in on it. */
  lemma LegAdded(env: Env, limit: Option<int>, frames: seq<nat>, k: nat)
    requires Legs(env, limit, frames, |frames|)
    requires DroppedLeg(env, |frames|, Asks(env, frames, |frames|), Total(frames, |frames|), limit, k)
    ensures Legs(env, limit, frames + [k], |frames| + 1)
    ensures Asks(env, frames + [k], |frames| + 1)
         == Asks(env, frames, |frames|) + (if env.open(|frames|) == Opened then k + 3 else 1)
    ensures Total(frames + [k], |frames| + 1) == Total(frames, |frames|) + k
  {
    LegsExtend(env, limit, frames, k);
    SamePrefix(env, frames, frames + [k], |frames|);
    assert Leg(env, limit, frames + [k], |frames|);
  }

  lemma LegsExtend(env: Env, limit: Option<int>, frames: seq<nat>, k: nat)
    requires Legs(env, limit, frames, |frames|)
    ensures Legs(env, limit, frames + [k], |frames|)
  {
    forall c | 0 <= c < |frames| ensures Leg(env, limit, frames + [k], c) {
      assert Leg(env, limit, frames, c);
      SamePrefix(env, frames, frames + [k], c);
    }
  }

  lemma DrainedIsLast(env: Env, c: nat, maxReconnects: nat, asked: nat, m: nat, limit: Option<int>,
                      end: End, k: nat, messages: nat)
    requires !env.stop(asked) && env.open(c) == Opened && EndsAt(env, c, asked + 1, m, limit, end, k)
    requires messages == m + Counted(end, k) && (end == Failed ==> env.stop(asked + k + 2))
    ensures LastLeg(env, c, maxReconnects, asked, m, limit, k, StatusAfter(end), messages)
  {
  }

  /** A call that ends on the transport it stands before. */
  lemma LastLegExplains(env: Env, maxReconnects: nat, limit: Option<int>, asked: nat, r: Result, t: Trace,
                        k: nat, r': Result, t': Trace)
    requires Standing(env, maxReconnects, limit, asked, r, t)
    requires LastLeg(env, t.created, maxReconnects, asked, r.messages, limit, k, r'.status, r'.messages)
    requires r'.reconnects == r.reconnects && t'.created == t.created + 1 && t'.frames == t.frames + [k]
    ensures Explained(env, maxReconnects, limit, r', t')
  {
    LegsExtend(env, limit, t.frames, k);
    SamePrefix(env, t.frames, t'.frames, t.created);
  }

  /** The step from before a transport to after it failed. */
  ghost predicate LeftBehind(env: Env, limit: Option<int>, asked0: nat, r0: Result, t0: Trace,
                             asked: nat, r: Result, t: Trace) {
    && t.created == t0.created + 1 && |t.frames| == t.created && t.frames[..t0.created] == t0.frames
    && var k := t.frames[t0.created];
       && DroppedLeg(env, t0.created, asked0, r0.messages, limit, k)
       && asked == asked0 + (if env.open(t0.created) == Opened then k + 3 else 1)
       && r == Result(Stopped, r0.messages + k, r0.reconnects)
  }

  /** The call ends on a transport that was drained: all that is promised about it. */
  lemma DrainEndsCall(env: Env, maxReconnects: nat, initial: real, max: real, limit: Option<int>,
                      asked: nat, r: Result, t: Trace, end: End, handled: seq<Payload>, messages: nat, k: nat)
    requires Progress(env, initial, max, limit, r, t) && Standing(env, maxReconnects, limit, asked, r, t)
    requires !env.stop(asked) && env.open(t.created) == Opened && r.messages == |t.handled|
    requires Drained(env, t.created, t.handled, limit, end, handled, messages, k)
    requires EndsAt(env, t.created, asked + 1, |t.handled|, limit, end, k)
    requires end == Failed ==> env.stop(asked + k + 2)
    ensures var r', t' := Result(StatusAfter(end), messages, r.reconnects), Closed(t, handled, k);
            Accounted(env, maxReconnects, initial, max, limit, r', t') && Explained(env, maxReconnects, limit, r', t')
  {
    DrainedSettles(env, maxReconnects, initial, max, limit, r, t, end, handled, messages, k);
    DrainedIsLast(env, t.created, maxReconnects, asked, r.messages, limit, end, k, messages);
    LastLegExplains(env, maxReconnects, limit, asked, r, t, k,
                    Result(StatusAfter(end), messages, r.reconnects), Closed(t, handled, k));
  }

  /** The consumer may go on from a transport that was drained. */
  lemma DrainGoesOn(env: Env, maxReconnects: nat, initial: real, max: real, limit: Option<int>,
                    asked: nat, r: Result, t: Trace, handled: seq<Payload>, messages: nat, k: nat)
    requires Progress(env, initial, max, limit, r, t) && Standing(env, maxReconnects, limit, asked, r, t)
    requires !env.stop(asked) && env.open(t.created) == Opened && r.messages == |t.handled|
    requires Drained(env, t.created, t.handled, limit, Failed, handled, messages, k)
    requires EndsAt(env, t.created, asked + 1, |t.handled|, limit, Failed, k) && !env.stop(asked + k + 2)
    ensures var r', t' := Result(Stopped, messages, r.reconnects), Closed(t, handled, k);
            Progress(env, initial, max, limit, r', t') && LeftBehind(env, limit, asked, r, t, asked + k + 3, r', t')
  {
    DrainedGoesOn(env, initial, max, limit, r, t, handled, messages, k);
    assert (t.frames + [k])[..t.created] == t.frames;
  }

  lemma AfterDrain(env: Env, maxReconnects: nat, initial: real, max: real, limit: Option<int>,
                   asked: nat, r: Result, t: Trace, end: End, handled: seq<Payload>, messages: nat, k: nat)
    requires Progress(env, initial, max, limit, r, t) && Standing(env, maxReconnects, limit, asked, r, t)
    requires NotStopped(env, asked + 1) && env.open(t.created) == Opened
    requires handled == t.handled + Payloads(env, t.created, k) && messages == |t.handled| + Counted(end, k)
    requires EndsAt(env, t.created, asked + 1, |t.handled|, limit, end, k)
    ensures var r', t' := Result(StatusAfter(end), messages, r.reconnects), Closed(t, handled, k);
            if EndsCall(env, asked, end, k)
            then Accounted(env, maxReconnects, initial, max, limit, r', t') &&
                Explained(env, maxReconnects, limit, r', t')
            else && Progress(env, initial, max, limit, r', t') && NotStopped(env, asked + k + 3)
                 && LeftBehind(env, limit, asked, r, t, asked + k + 3, r', t')
  {
    EndedIsDrained(env, t.created, asked + 1, t.handled, limit, end, handled, messages, k);
    if EndsCall(env, asked, end, k) {
      DrainEndsCall(env, maxReconnects, initial, max, limit, asked, r, t, end, handled, messages, k);
    } else {
      DrainGoesOn(env, maxReconnects, initial, max, limit, asked, r, t, handled, messages, k);
      EndedUnstopped(env, t.created, asked + 1, |t.handled|, limit, end, k);
      OneMoreNo(env, asked + k + 2);
    }
  }

  lemma UnopenedLeft(env: Env, maxReconnects: nat, initial: real, max: real, limit: Option<int>,
                     asked: nat, r: Result, t: Trace)
    requires Progress(env, initial, max, limit, r, t) && Standing(env, maxReconnects, limit, asked, r, t)
    requires !env.stop(asked) && env.open(t.created) == OpenFailed && r.status == Stopped
    ensures var t' := Closed(t, t.handled, 0);
            Progress(env, initial, max, limit, r, t') && LeftBehind(env, limit, asked, r, t, asked + 1, r, t')
  {
    UnopenedGoesOn(env, initial, max, limit, r, t);
    assert (t.frames + [0])[..t.created] == t.frames;
  }

  lemma OpeningEndsCall(env: Env, maxReconnects: nat, initial: real, max: real, limit: Option<int>,
                        asked: nat, r: Result, t: Trace)
    requires Progress(env, initial, max, limit, r, t) && Standing(env, maxReconnects, limit, asked, r, t)
    requires !env.stop(asked) && env.open(t.created) == OpenRaised
    ensures var r', t' := r.(status := Raised), t.(created := t.created + 1, frames := t.frames + [0]);
            Accounted(env, maxReconnects, initial, max, limit, r', t') && Explained(env, maxReconnects, limit, r', t')
  {
    OpeningRaisedSettles(env, maxReconnects, initial, max, limit, r, t);
    LastLegExplains(env, maxReconnects, limit, asked, r, t, 0,
                    r.(status := Raised), t.(created := t.created + 1, frames := t.frames + [0]));
  }

  /** An opened transport: drain it and close it. Either that settles the call, or the transport
      failed and the consumer may reconnect. */
  method RunOpened(env: Env, asked0: nat, limit: Option<int>, r0: Result, t0: Trace,
                   ghost maxReconnects: nat, ghost initial: real, ghost max: real, ghost lastFrame: nat)
      returns (done: bool, asked: nat, r: Result, t: Trace)
    requires Progress(env, initial, max, limit, r0, t0) && env.open(t0.created) == Opened
    requires asked0 > 0 && Standing(env, maxReconnects, limit, asked0 - 1, r0, t0) && NotStopped(env, asked0)
    requires limit.None? ==> !env.receive(t0.created, lastFrame).Received? || env.stop(asked0 + lastFrame)
    ensures done ==>
        Accounted(env, maxReconnects, initial, max, limit, r, t) && Explained(env, maxReconnects, limit, r, t)
    ensures !done ==> Progress(env, initial, max, limit, r, t) && NotStopped(env, asked)
    ensures !done ==> LeftBehind(env, limit, asked0 - 1, r0, t0, asked, r, t)
  {
    var end, handled, messages, k;
    done, end, asked, handled, messages, k := DrainAndAsk(env, t0.created, asked0, t0.handled, limit, lastFrame);
    AfterDrain(env, maxReconnects, initial, max, limit, asked0 - 1, r0, t0, end, handled, messages, k);
    r, t := Result(StatusAfter(end), messages, r0.reconnects), Closed(t0, handled, k);
  }

  /** One transport, opened or not. */
  method RunTransport(env: Env, asked0: nat, limit: Option<int>, r0: Result, t0: Trace,
                      ghost maxReconnects: nat, ghost initial: real, ghost max: real, ghost lastFrame: nat)
      returns (done: bool, asked: nat, r: Result, t: Trace)
    requires Progress(env, initial, max, limit, r0, t0) && r0.status == Stopped
    requires asked0 > 0 && Standing(env, maxReconnects, limit, asked0 - 1, r0, t0) && NotStopped(env, asked0)
    requires limit.None? ==> !env.receive(t0.created, lastFrame).Received? || env.stop(asked0 + lastFrame)
    ensures done ==>
        Accounted(env, maxReconnects, initial, max, limit, r, t) && Explained(env, maxReconnects, limit, r, t)
    ensures !done ==> Progress(env, initial, max, limit, r, t) && NotStopped(env, asked)
    ensures !done ==> LeftBehind(env, limit, asked0 - 1, r0, t0, asked, r, t)
  {
    match env.open(t0.created) {
      case OpenRaised =>
        OpeningEndsCall(env, maxReconnects, initial, max, limit, asked0 - 1, r0, t0);
        done, asked, r := true, asked0, r0.(status := Raised);
        t := t0.(created := t0.created + 1, frames := t0.frames + [0]);
      case OpenFailed =>
        UnopenedLeft(env, maxReconnects, initial, max, limit, asked0 - 1, r0, t0);
        done, asked, r, t := false, asked0, r0, Closed(t0, t0.handled, 0);
      case Opened =>
        done, asked, r, t := RunOpened(env, asked0, limit, r0, t0, maxReconnects, initial, max, lastFrame);
    }
  }

  lemma DroppedIsLast(env: Env, c: nat, maxReconnects: nat, asked: nat, m: nat, limit: Option<int>, k: nat,
      status: Status)
    requires DroppedLeg(env, c, asked, m, limit, k) && GivesUp(c, maxReconnects, status)
    ensures LastLeg(env, c, maxReconnects, asked, m, limit, k, status, m + k)
  {
    if env.open(c) == Opened {
      assert Counted(Failed, k) == k && EndsAt(env, c, asked + 1, m, limit, Failed, k);
    }
  }

  lemma GivingUpAccounted(env: Env, maxReconnects: nat, initial: real, max: real, limit: Option<int>,
                          r: Result, t: Trace, status: Status)
    requires Progress(env, initial, max, limit, r, t) && t.created == r.reconnects + 1 && r.reconnects <= maxReconnects
    requires GivesUp(r.reconnects, maxReconnects, status)
    ensures Accounted(env, maxReconnects, initial, max, limit, r.(status := status), t)
  {
    assert Dropped(env, t.created - 1, t.frames[t.created - 1]);
  }

  /** A call that ends because the transport it left was the last one it may use. */
  lemma GivingUpSettles(env: Env, maxReconnects: nat, initial: real, max: real, limit: Option<int>,
                        asked0: nat, r0: Result, t0: Trace, asked: nat, r: Result, t: Trace, status: Status)
    requires Standing(env, maxReconnects, limit, asked0, r0, t0) && LeftBehind(env, limit, asked0, r0, t0, asked, r, t)
    requires Progress(env, initial, max, limit, r, t) && GivesUp(r.reconnects, maxReconnects, status)
    ensures Accounted(env, maxReconnects, initial, max, limit, r.(status := status), t)
    ensures Explained(env, maxReconnects, limit, r.(status := status), t)
  {
    var k := t.frames[t0.created];
    assert t.frames == t0.frames + [k];
    GivingUpAccounted(env, maxReconnects, initial, max, limit, r, t, status);
    DroppedIsLast(env, t0.created, maxReconnects, asked0, r0.messages, limit, k, status);
    LastLegExplains(env, maxReconnects, limit, asked0, r0, t0, k, r.(status := status), t);
  }

  /** One that is stopped before it opens another transport. */
  lemma StoppedSettles(env: Env, maxReconnects: nat, initial: real, max: real, limit: Option<int>,
                       asked: nat, r: Result, t: Trace)
    requires Standing(env, maxReconnects, limit, asked, r, t) && Progress(env, initial, max, limit, r, t)
    requires env.stop(asked) && r.status == Stopped
    ensures Accounted(env, maxReconnects, initial, max, limit, r, t) && Explained(env, maxReconnects, limit, r, t)
  {
  }

  /** The state after sleeping. */
  lemma Reconnected(env: Env, maxReconnects: nat, initial: real, max: real, limit: Option<int>,
                    asked0: nat, r0: Result, t0: Trace, asked: nat, r: Result, t: Trace)
    requires Standing(env, maxReconnects, limit, asked0, r0, t0) && LeftBehind(env, limit, asked0, r0, t0, asked, r, t)
    requires Progress(env, initial, max, limit, r, t) && r.reconnects < maxReconnects && r.reconnects < MAX_DOUBLINGS
    ensures var r', t' := Result(Stopped, r.messages, r.reconnects + 1),
                          t.(slept := t.slept + [Delay(initial, max, r.reconnects)]);
            Standing(env, maxReconnects, limit, asked, r', t') && Progress(env, initial, max, limit, r', t')
  {
    assert t.frames == t0.frames + [t.frames[t0.created]];
    LegAdded(env, limit, t0.frames, t.frames[t0.created]);
    OneMore(initial, max, r.reconnects);
  }

  /** consume(). Without a message limit, a transport opened after `asked` negative answers must
      sooner or later stop delivering or be told to stop, for which `lastFrame` is the witness.
      A limit that is not positive is refused. */
  method Consume(env: Env, maxReconnects: nat, initial: real, max: real, limit: Option<int>,
                 ghost lastFrame: (nat, nat) -> nat)
      returns (refused: bool, r: Result, t: Trace)
    requires initial > 0.0 && max > 0.0
    requires limit.None? ==> forall c: nat, asked: nat | NotStopped(env, asked) ::
               !env.receive(c, lastFrame(c, asked)).Received? || env.stop(asked + lastFrame(c, asked))
    ensures refused <==> limit.Some? && limit.value <= 0
    ensures !refused ==> Accounted(env, maxReconnects, initial, max, limit, r, t)
    ensures !refused ==> Explained(env, maxReconnects, limit, r, t)
  {
    refused, r, t := false, Result(Stopped, 0, 0), Trace(0, [], [], [], []);
    if limit.Some? && limit.value <= 0 { return true, r, t; }
    var asked: nat := 0;
    while true
      invariant r.status == Stopped && NotStopped(env, asked)
      invariant Progress(env, initial, max, limit, r, t) && Standing(env, maxReconnects, limit, asked, r, t)
      decreases maxReconnects - r.reconnects
    {
      if env.stop(asked) {
        StoppedSettles(env, maxReconnects, initial, max, limit, asked, r, t);
        return;
      }
      ghost var asked0, r0, t0 := asked, r, t;
      var done;
      done, asked, r, t := RunTransport(env, asked + 1, limit, r, t, maxReconnects, initial, max,
                                        lastFrame(t.created, asked + 1));
      if done { return; }
      if r.reconnects >= maxReconnects {
        GivingUpSettles(env, maxReconnects, initial, max, limit, asked0, r0, t0, asked, r, t, ReconnectExhausted);
        r := r.(status := ReconnectExhausted);
        return;
      }
      if r.reconnects == MAX_DOUBLINGS {
        GivingUpSettles(env, maxReconnects, initial, max, limit, asked0, r0, t0, asked, r, t, Raised);
        r := r.(status := Raised);
        return;
      }
      Reconnected(env, maxReconnects, initial, max, limit, asked0, r0, t0, asked, r, t);
      t := t.(slept := t.slept + [Delay(initial, max, r.reconnects)]);
      r := r.(reconnects := r.reconnects + 1);
    }
  }

  // ---- what the handler saw -----------------------------------------------------------------------

  /** Every frame counted as having come in did. */
  ghost predicate AllCameIn(env: Env, c: nat, k: nat) {
    forall i :: 0 <= i < k ==> env.receive(c, i).Received?
  }

  lemma EndedCameIn(env: Env, c: nat, base: nat, m: nat, limit: Option<int>, end: End, k: nat)
    requires EndsAt(env, c, base, m, limit, end, k)
    ensures AllCameIn(env, c, k)
  {
    forall i | 0 <= i < k ensures env.receive(c, i).Received? {
      if i < Turn(end, k) { assert Passed(env, c, base, m, limit, i); }
    }
  }

  lemma ExplainedCameIn(env: Env, maxReconnects: nat, limit: Option<int>, r: Result, t: Trace, c: nat)
    requires Explained(env, maxReconnects, limit, r, t) && c < |t.frames|
    ensures AllCameIn(env, c, t.frames[c])
  {
    var asked, m, k := Asks(env, t.frames, c), Total(t.frames, c), t.frames[c];
    if c < r.reconnects {
      assert Leg(env, limit, t.frames, c);
      if env.open(c) == Opened { EndedCameIn(env, c, asked + 1, m, limit, Failed, k); }
    } else if env.open(c) == Opened {
      var end := LastLegEnds(env, c, maxReconnects, asked, m, limit, k, r.status, r.messages);
      EndedCameIn(env, c, asked + 1, m, limit, end, k);
    }
  }

  lemma {:induction false} PayloadAt(env: Env, c: nat, k: nat)
    requires AllCameIn(env, c, k)
    ensures |Payloads(env, c, k)| == k
    ensures forall i :: 0 <= i < k ==> Payloads(env, c, k)[i] == env.receive(c, i).payload
  {
    if k > 0 { PayloadAt(env, c, k - 1); }
  }

  /** Frame `i` of transport `c` is the handler call after all frames of the transports before it
      and the `i` before it. */
  ghost predicate HandledAt(env: Env, frames: seq<nat>, handled: seq<Payload>, c: nat, i: nat)
    requires c < |frames|
  {
    && Total(frames, c) + i < |handled|
    && env.receive(c, i) == Received(handled[Total(frames, c) + i])
  }

  lemma {:induction false} AllPayloadsAt(env: Env, frames: seq<nat>)
    requires forall c :: 0 <= c < |frames| ==> AllCameIn(env, c, frames[c])
    ensures |AllPayloads(env, frames)| == Total(frames, |frames|)
    ensures forall c, i :: 0 <= c < |frames| && 0 <= i < frames[c] ==>
              HandledAt(env, frames, AllPayloads(env, frames), c, i)
  {
    if frames != [] {
      var n := |frames| - 1;
      var before := frames[..n];
      AllPayloadsAt(env, before);
      SamePrefix(env, frames, before, n);
      PayloadAt(env, n, frames[n]);
      forall c, i | 0 <= c < |frames| && 0 <= i < frames[c]
        ensures HandledAt(env, frames, AllPayloads(env, frames), c, i)
      {
        if c < n {
          SamePrefix(env, frames, before, c);
          assert HandledAt(env, before, AllPayloads(env, before), c, i);
        }
      }
    }
  }

  /** Each frame that came in was handed on once, in the order of arrival, and nothing else was. */
  lemma HandledInOrder(env: Env, maxReconnects: nat, initial: real, max: real, limit: Option<int>, r: Result, t: Trace)
    requires Accounted(env, maxReconnects, initial, max, limit, r, t) && Explained(env, maxReconnects, limit, r, t)
    ensures |t.handled| == Total(t.frames, t.created)
    ensures forall c, i :: 0 <= c < t.created && 0 <= i < t.frames[c] ==> HandledAt(env, t.frames, t.handled, c, i)
  {
    forall c | 0 <= c < |t.frames| ensures AllCameIn(env, c, t.frames[c]) {
      ExplainedCameIn(env, maxReconnects, limit, r, t, c);
    }
    AllPayloadsAt(env, t.frames);
  }

  // ---- backoff ------------------------------------------------------------------------------

  function Least(a: real, b: real): real { if a <= b then a else b }

  lemma DelayDoubles(initial: real, max: real, n: nat)
    requires initial > 0.0 && max > 0.0
    ensures Delay(initial, max, n + 1) == Least(2.0 * Delay(initial, max, n), max)
  {
    var d := initial * Pow2(n);
    assert initial * Pow2(n + 1) == 2.0 * d;
  }

  /** The first reconnect waits the initial delay, each further one twice the one before it, none
      longer than the cap. */
  lemma BackoffDoubles(env: Env, maxReconnects: nat, initial: real, max: real, limit: Option<int>, r: Result, t: Trace)
    requires initial > 0.0 && max > 0.0
    requires Accounted(env, maxReconnects, initial, max, limit, r, t)
    ensures |t.slept| == r.reconnects
    ensures t.slept != [] ==> t.slept[0] == Least(initial, max)
    ensures forall n :: 0 <= n < |t.slept| - 1 ==> t.slept[n + 1] == Least(2.0 * t.slept[n], max)
  {
    forall n | 0 <= n < |t.slept| - 1 ensures t.slept[n + 1] == Least(2.0 * t.slept[n], max) {
      DelayDoubles(initial, max, n);
    }
  }

  lemma DelayBounds(initial: real, max: real, n: nat)
    ensures Delay(initial, max, n) <= initial * Pow2(n) && Delay(initial, max, n) <= max
  {
  }

  /** a * x for an x given as a sum, in the one place where products are multiplied out. */
  lemma Distributed(a: real, x: real, b: real, c: real)
    requires x == b + c
    ensures a * x == a * b + a * c
  {
  }

  lemma DelaysSum(initial: real, max: real, n: nat)
    requires n > 0
    ensures Sum(Delays(initial, max, n)) == Sum(Delays(initial, max, n - 1)) + Delay(initial, max, n - 1)
  {
    assert Delays(initial, max, n)[..n - 1] == Delays(initial, max, n - 1);
  }

  /** initial + 2 * initial + ... + 2^(n-1) * initial */
  function Doublings(initial: real, n: nat): real {
    if n == 0 then 0.0 else Doublings(initial, n - 1) + initial * Pow2(n - 1)
  }

  lemma {:induction false} DoublingsAddUp(initial: real, n: nat)
    ensures Doublings(initial, n) == initial * (Pow2(n) - 1.0)
  {
    if n == 0 {
      Distributed(initial, Pow2(0) - 1.0, 0.0, 0.0);
    } else {
      DoublingsAddUp(initial, n - 1);
      Distributed(initial, Pow2(n) - 1.0, Pow2(n - 1) - 1.0, Pow2(n - 1));
    }
  }

  lemma {:induction false} BackoffWithinDoublings(initial: real, max: real, n: nat)
    ensures Sum(Delays(initial, max, n)) <= Doublings(initial, n)
  {
    if n > 0 {
      BackoffWithinDoublings(initial, max, n - 1);
      DelaysSum(initial, max, n);
      DelayBounds(initial, max, n - 1);
    }
  }

  lemma OneMoreCap(max: real, n: nat)
    requires n > 0
    ensures max * n as real == max * (n - 1) as real + max
  {
    Distributed(max, n as real, (n - 1) as real, 1.0);
  }

  lemma {:induction false} BackoffWithinCap(initial: real, max: real, n: nat)
    ensures Sum(Delays(initial, max, n)) <= max * n as real
  {
    if n == 0 {
      Distributed(max, 0 as real, 0.0, 0.0);
    } else {
      BackoffWithinCap(initial, max, n - 1);
      DelaysSum(initial, max, n);
      assert Delay(initial, max, n - 1) <= max by { DelayBounds(initial, max, n - 1); }
      OneMoreCap(max, n);
    }
  }

  /** What a finished call has slept in total: at most the geometric sum, and at most the cap
      for every reconnect of the budget. */
  lemma TotalBackoffBounded(env: Env, maxReconnects: nat, initial: real, max: real, limit: Option<int>, r: Result,
      t: Trace)
    requires Accounted(env, maxReconnects, initial, max, limit, r, t)
    ensures Sum(t.slept) <= initial * (Pow2(r.reconnects) - 1.0)
    ensures Sum(t.slept) <= max * r.reconnects as real
  {
    BackoffWithinDoublings(initial, max, r.reconnects);
    DoublingsAddUp(initial, r.reconnects);
    BackoffWithinCap(initial, max, r.reconnects);
  }
}
