// The syslog worker: a queue, a connection that can fail at any operation, a bounded
// retry loop, flush tokens.
module Syslog {
  import opened Common

  const TIMEOUT_DEFAULT: nat := 5000
  const SLEEP: nat := 500

  // What the network does to one attempt to reconnect and write, and how long it takes
  // beyond the sleep before it.
  datatype Try = Try(delay: nat, connects: bool, accepts: bool)

  // What it does to one message: first on the present connection, then try by try.
  datatype Fate = Fate(first: bool, tries: nat -> Try)

  // Connections are numbered as they are made, messages as they are taken off the queue.
  datatype NetOp = Connect(ok: bool) | Send(conn: nat, msg: nat, ok: bool) | FlushConn(conn: nat, ok: bool)

  datatype Skip = Skip(msg: nat, waited: nat)

  // `writer` is the backend's field. The rest records the run.
  datatype State = State(writer: Option<nat>, conns: nat, taken: nat, trace: seq<NetOp>, skipped: seq<Skip>)

  datatype Msg = Line(fate: Fate) | Token(ok: bool)

  // One turn of the outer loop: a line with what try_recv drained after it and the result
  // of the flush at the end; or a token.
  datatype Turn = Drain(first: Fate, rest: seq<Msg>, endOk: bool) | Lone(ok: bool)

  function Timeout(configured: nat): (r: nat)
    ensures 0 < r && (configured != 0 ==> r == configured) && (configured == 0 ==> r == 5000)
  {
    if configured == 0 then TIMEOUT_DEFAULT else configured
  }

  // write_all on the present connection.
  function SendOn(s: State, conn: nat, msg: nat, ok: bool): State {
    var t := s.(trace := s.trace + [Send(conn, msg, ok)]);
    if ok then t else t.(writer := None)
  }

  // reinit.
  function Reconnect(s: State, ok: bool): State {
    var t := s.(trace := s.trace + [Connect(ok)]);
    if ok then t.(writer := Some(s.conns), conns := s.conns + 1) else t
  }

  function OneTry(s: State, msg: nat, t: Try): State {
    var s1 := Reconnect(s, t.connects);
    if t.connects then SendOn(s1, s.conns, msg, t.accepts) else s1
  }

  // The loop of write, at try k with this much time gone.
  function Retry(timeout: nat, s: State, msg: nat, fate: Fate, k: nat, elapsed: nat): State
    requires elapsed <= timeout
    decreases timeout - elapsed
  {
    var t := fate.tries(k);
    var now := elapsed + SLEEP + t.delay;
    var s1 := OneTry(s, msg, t);
    if t.connects && t.accepts then s1
    else if now > timeout then s1.(skipped := s.skipped + [Skip(msg, now)])
    else Retry(timeout, s1, msg, fate, k + 1, now)
  }

  function Write(timeout: nat, s0: State, fate: Fate): State {
    var msg := s0.taken;
    var s := s0.(taken := msg + 1);
    if s.writer.Some? then
      var s1 := SendOn(s, s.writer.value, msg, fate.first);
      if fate.first then s1 else Retry(timeout, s1, msg, fate, 0, 0)
    else Retry(timeout, s, msg, fate, 0, 0)
  }

  function Flush(s: State, ok: bool): State {
    if s.writer.None? then s
    else
      var t := s.(trace := s.trace + [FlushConn(s.writer.value, ok)]);
      if ok then t else t.(writer := None)
  }

  function Handle(timeout: nat, s: State, m: Msg): State {
    match m
    case Line(fate) => Write(timeout, s, fate)
    case Token(ok) => Flush(s, ok)
  }

  function HandleAll(timeout: nat, s: State, ms: seq<Msg>): State {
    if ms == [] then s else Handle(timeout, HandleAll(timeout, s, ms[..|ms| - 1]), ms[|ms| - 1])
  }

  predicate HasToken(ms: seq<Msg>) {
    exists i :: 0 <= i < |ms| && ms[i].Token?
  }

  // A token anywhere in the drain clears need_flush, also for the lines after it.
  function TurnOnce(timeout: nat, s: State, turn: Turn): State {
    match turn
    case Drain(first, rest, endOk) =>
      var t := HandleAll(timeout, Write(timeout, s, first), rest);
      if HasToken(rest) then t else Flush(t, endOk)
    case Lone(ok) => Flush(s, ok)
  }

  function Turns(timeout: nat, s: State, turns: seq<Turn>): State {
    if turns == [] then s else TurnOnce(timeout, Turns(timeout, s, turns[..|turns| - 1]), turns[|turns| - 1])
  }

  // The worker starts with one attempt to connect, whose failure is ignored.
  function Begin(connects: bool): State {
    Reconnect(State(None, 0, 0, [], []), connects)
  }

  // ------------------------------------------------------------ what must hold

  function ConnOf(op: NetOp): Option<nat> {
    match op
    case Connect(_) => None
    case Send(c, _, _) => Some(c)
    case FlushConn(c, _) => Some(c)
  }

  predicate Accepted(op: NetOp) {
    op.Send? && op.ok
  }

  // A connection that reported an error is not used again.
  ghost predicate NeverReused(trace: seq<NetOp>) {
    forall i, j :: 0 <= i < j < |trace| && ConnOf(trace[i]).Some? && ConnOf(trace[i]) == ConnOf(trace[j]) ==>
        trace[i].ok
  }

  // Accepted messages come in queue order, none twice, on connections that only advance.
  ghost predicate InOrder(trace: seq<NetOp>) {
    forall i, j :: 0 <= i < j < |trace| && Accepted(trace[i]) && Accepted(trace[j]) ==>
      trace[i].msg < trace[j].msg && trace[i].conn <= trace[j].conn
  }

  ghost predicate AcceptedIn(trace: seq<NetOp>, msg: nat) {
    exists i :: 0 <= i < |trace| && Accepted(trace[i]) && trace[i].msg == msg
  }

  ghost predicate SkippedIn(skipped: seq<Skip>, msg: nat) {
    exists i :: 0 <= i < |skipped| && skipped[i].msg == msg
  }

  // All operations so far are on connections made so far; those on the present
  // connection succeeded; messages from `next` on have not been accepted.
  ghost predicate Bounded(s: State, next: nat) {
    && (forall i :: 0 <= i < |s.trace| && ConnOf(s.trace[i]).Some? ==>
          ConnOf(s.trace[i]).value < s.conns && (s.writer == ConnOf(s.trace[i]) ==> s.trace[i].ok))
    && (forall i :: 0 <= i < |s.trace| && Accepted(s.trace[i]) ==> s.trace[i].msg < next)
    && (s.writer.Some? ==> s.writer.value == s.conns - 1)
  }

  ghost predicate Inv(s: State, next: nat) {
    NeverReused(s.trace) && InOrder(s.trace) && Bounded(s, next)
  }

  lemma {:induction false} SendKeepsInv(s: State, msg: nat, ok: bool)
    requires Inv(s, msg) && s.writer.Some?
    ensures Inv(SendOn(s, s.writer.value, msg, ok), if ok then msg + 1 else msg)
    ensures ok ==> AcceptedIn(SendOn(s, s.writer.value, msg, ok).trace, msg)
  {
    var t := SendOn(s, s.writer.value, msg, ok).trace;
    assert t[|t| - 1] == Send(s.writer.value, msg, ok);
    assert forall i :: 0 <= i < |s.trace| ==> t[i] == s.trace[i];
  }

  lemma {:induction false} ReconnectKeepsInv(s: State, msg: nat, ok: bool)
    requires Inv(s, msg) && s.writer.None?
    ensures Inv(Reconnect(s, ok), msg)
  {
    var t := Reconnect(s, ok).trace;
    assert forall i :: 0 <= i < |s.trace| ==> t[i] == s.trace[i];
  }

  // From s to t the message was accepted, or skipped after its timeout and not accepted.
  ghost predicate Settled(timeout: nat, s: State, t: State, msg: nat) {
    && (forall i :: |s.trace| <= i < |t.trace| && Accepted(t.trace[i]) ==> t.trace[i].msg == msg)
    && if t.skipped == s.skipped then AcceptedIn(t.trace, msg)
       else
         && !AcceptedIn(t.trace, msg)
         && exists waited: nat :: waited > timeout && t.skipped == s.skipped + [Skip(msg, waited)]
  }

  lemma {:induction false} TryKeepsInv(s: State, msg: nat, t: Try)
    requires Inv(s, msg) && s.writer.None?
    ensures var s1 := OneTry(s, msg, t);
            && s.trace <= s1.trace && s1.taken == s.taken && s1.skipped == s.skipped
            && (forall i :: |s.trace| <= i < |s1.trace| && Accepted(s1.trace[i]) ==> s1.trace[i].msg == msg)
            && if t.connects && t.accepts
               then Inv(s1, msg + 1) && AcceptedIn(s1.trace, msg)
               else Inv(s1, msg) && s1.writer.None?
  {
    ReconnectKeepsInv(s, msg, t.connects);
    if t.connects {
      SendKeepsInv(Reconnect(s, true), msg, t.accepts);
    }
    hide Inv, AcceptedIn;
  }

  lemma {:induction false} GivingUp(s: State, msg: nat, skip: Skip)
    requires Inv(s, msg)
    ensures !AcceptedIn(s.trace, msg) && Inv(s.(skipped := s.skipped + [skip]), msg + 1)
  {
    hide NeverReused, InOrder;
  }

  // The retry loop ends with the message accepted, or skipped after its timeout.
  lemma {:induction false} RetryKeepsInv(timeout: nat, s: State, msg: nat, fate: Fate, k: nat, elapsed: nat)
    requires Inv(s, msg) && s.writer.None? && elapsed <= timeout
    ensures var t := Retry(timeout, s, msg, fate, k, elapsed);
            && Inv(t, msg + 1) && s.trace <= t.trace && t.taken == s.taken && Settled(timeout, s, t, msg)
    decreases timeout - elapsed
  {
    hide Inv, OneTry, AcceptedIn;
    var t := fate.tries(k);
    var now := elapsed + SLEEP + t.delay;
    var s1 := OneTry(s, msg, t);
    TryKeepsInv(s, msg, t);
    if !(t.connects && t.accepts) {
      if now <= timeout {
        RetryKeepsInv(timeout, s1, msg, fate, k + 1, now);
      } else {
        GivingUp(s1, msg, Skip(msg, now));
      }
    }
  }

  // Every message taken so far was either accepted or skipped, and skipped only too late.
  ghost predicate Accounted(timeout: nat, s: State) {
    && (forall m: nat :: m < s.taken ==> AcceptedIn(s.trace, m) <==> !SkippedIn(s.skipped, m))
    && (forall i :: 0 <= i < |s.skipped| ==> s.skipped[i].waited > timeout && s.skipped[i].msg < s.taken)
  }

  ghost predicate Fine(timeout: nat, s: State) {
    Inv(s, s.taken) && Accounted(timeout, s)
  }

  lemma {:induction false} LaterOpsKeepAccepted(s: seq<NetOp>, t: seq<NetOp>, m: nat)
    requires s <= t && forall i :: |s| <= i < |t| && Accepted(t[i]) ==> t[i].msg != m
    ensures AcceptedIn(t, m) <==> AcceptedIn(s, m)
  {
    if AcceptedIn(s, m) {
      var i :| 0 <= i < |s| && Accepted(s[i]) && s[i].msg == m;
      assert t[i] == s[i];
    }
    if AcceptedIn(t, m) {
      var i :| 0 <= i < |t| && Accepted(t[i]) && t[i].msg == m;
      assert t[i] == s[i];
    }
  }

  lemma {:induction false} MoreIsStillAccounted(timeout: nat, s: State, t: State)
    requires Accounted(timeout, s) && s.trace <= t.trace && t.taken == s.taken + 1
    requires Settled(timeout, s, t, s.taken)
    ensures Accounted(timeout, t)
  {
    if t.skipped != s.skipped {
      var waited: nat :| waited > timeout && t.skipped == s.skipped + [Skip(s.taken, waited)];
      assert t.skipped[|t.skipped| - 1].msg == s.taken;
    }
    forall m: nat | m < s.taken
      ensures AcceptedIn(t.trace, m) <==> !SkippedIn(t.skipped, m)
    {
      LaterOpsKeepAccepted(s.trace, t.trace, m);
      if SkippedIn(s.skipped, m) {
        var i :| 0 <= i < |s.skipped| && s.skipped[i].msg == m;
        assert t.skipped[i] == s.skipped[i];
      }
    }
    hide AcceptedIn;
  }

  lemma {:induction false} WriteIsFine(timeout: nat, s: State, fate: Fate)
    requires Fine(timeout, s)
    ensures Fine(timeout, Write(timeout, s, fate))
  {
    var msg := s.taken;
    var s0 := s.(taken := msg + 1);
    var t := Write(timeout, s, fate);
    assert Inv(s0, msg);
    if s.writer.Some? {
      var s1 := SendOn(s0, s.writer.value, msg, fate.first);
      SendKeepsInv(s0, msg, fate.first);
      if !fate.first {
        RetryKeepsInv(timeout, s1, msg, fate, 0, 0);
      }
    } else {
      RetryKeepsInv(timeout, s0, msg, fate, 0, 0);
    }
    MoreIsStillAccounted(timeout, s, t);
  }

  lemma {:induction false} FlushIsFine(timeout: nat, s: State, ok: bool)
    requires Fine(timeout, s)
    ensures Fine(timeout, Flush(s, ok))
  {
    if s.writer.Some? {
      var t := Flush(s, ok);
      assert forall i :: 0 <= i < |s.trace| ==> t.trace[i] == s.trace[i];
      forall m: nat | m < s.taken
        ensures AcceptedIn(t.trace, m) <==> !SkippedIn(t.skipped, m)
      {
        LaterOpsKeepAccepted(s.trace, t.trace, m);
      }
    }
  }

  lemma {:induction false} HandlingIsFine(timeout: nat, s: State, ms: seq<Msg>)
    requires Fine(timeout, s)
    ensures Fine(timeout, HandleAll(timeout, s, ms))
  {
    if ms != [] {
      HandlingIsFine(timeout, s, ms[..|ms| - 1]);
      var t, m := HandleAll(timeout, s, ms[..|ms| - 1]), ms[|ms| - 1];
      match m
      case Line(fate) => WriteIsFine(timeout, t, fate);
      case Token(ok) => FlushIsFine(timeout, t, ok);
    }
  }

  lemma {:induction false} BeginIsFine(timeout: nat, connects: bool)
    ensures Fine(timeout, Begin(connects))
  {
    hide Accounted, Bounded, NeverReused, InOrder;
    BeginIsOrdered(connects);
    BeginIsBounded(connects);
    BeginIsAccounted(timeout, connects);
  }

  // The worker begins with one attempt to connect, and has a connection exactly if it worked.
  lemma {:induction false} BeginsExactly(connects: bool)
    ensures Begin(connects).trace == [Connect(connects)] && Begin(connects).taken == 0
    ensures Begin(connects).writer == if connects then Some(0) else None
  {
  }

  lemma {:induction false} BeginIsOrdered(connects: bool)
    ensures NeverReused(Begin(connects).trace) && InOrder(Begin(connects).trace)
  {
  }

  lemma {:induction false} BeginIsBounded(connects: bool)
    ensures Bounded(Begin(connects), 0)
  {
  }

  lemma {:induction false} BeginIsAccounted(timeout: nat, connects: bool)
    ensures Accounted(timeout, Begin(connects)) && Begin(connects).taken == 0
  {
  }

  // Order and at-most-once, for every pattern of failures: the accepted messages are a
  // subsequence of the queue, each on one connection; every other one was skipped, and
  // only after its timeout; a connection that failed is never used again.
  lemma {:induction false} WorkerIsFine(timeout: nat, connects: bool, turns: seq<Turn>)
    ensures Fine(timeout, Turns(timeout, Begin(connects), turns))
  {
    if turns == [] {
      BeginIsFine(timeout, connects);
    } else {
      WorkerIsFine(timeout, connects, turns[..|turns| - 1]);
      var s := Turns(timeout, Begin(connects), turns[..|turns| - 1]);
      match turns[|turns| - 1]
      case Drain(first, rest, endOk) =>
        WriteIsFine(timeout, s, first);
        HandlingIsFine(timeout, Write(timeout, s, first), rest);
        FlushIsFine(timeout, HandleAll(timeout, Write(timeout, s, first), rest), endOk);
      case Lone(ok) => FlushIsFine(timeout, s, ok);
      hide Fine, Write, Flush, HandleAll, Begin;
    }
  }

  // ------------------------------------------------------------- the retry bound

  function Connects(trace: seq<NetOp>): nat {
    if trace == [] then 0 else Connects(trace[..|trace| - 1]) + if trace[|trace| - 1].Connect? then 1 else 0
  }

  lemma {:induction false} ConnectsSnoc(trace: seq<NetOp>, op: NetOp)
    ensures Connects(trace + [op]) == Connects(trace) + if op.Connect? then 1 else 0
  {
    assert (trace + [op])[..|trace|] == trace;
  }

  lemma {:induction false} TryConnects(s: State, msg: nat, t: Try)
    ensures Connects(OneTry(s, msg, t).trace) == Connects(s.trace) + 1
  {
    ConnectsSnoc(s.trace, Connect(t.connects));
    ConnectsSnoc(s.trace + [Connect(t.connects)], Send(s.conns, msg, t.accepts));
  }

  lemma {:induction false} OneSleepLess(left: nat, spent: nat)
    requires SLEEP <= spent <= left
    ensures (left - spent) / SLEEP + 1 <= left / SLEEP
  {
  }

  lemma {:induction false} RetryBound(timeout: nat, s: State, msg: nat, fate: Fate, k: nat, elapsed: nat)
    requires elapsed <= timeout
    ensures Connects(Retry(timeout, s, msg, fate, k, elapsed).trace) <=
            Connects(s.trace) + (timeout - elapsed) / SLEEP + 1
    decreases timeout - elapsed
  {
    var t := fate.tries(k);
    var now := elapsed + SLEEP + t.delay;
    TryConnects(s, msg, t);
    if !(t.connects && t.accepts) && now <= timeout {
      RetryBound(timeout, OneTry(s, msg, t), msg, fate, k + 1, now);
      OneSleepLess(timeout - elapsed, SLEEP + t.delay);
    }
    hide Connects, OneTry;
  }

  // One message makes at most floor(timeout / 500 ms) + 1 attempts to reconnect.
  lemma {:induction false} WriteBound(timeout: nat, s: State, fate: Fate)
    ensures Connects(Write(timeout, s, fate).trace) <= Connects(s.trace) + timeout / 500 + 1
  {
    var s0 := s.(taken := s.taken + 1);
    if s.writer.Some? {
      ConnectsSnoc(s.trace, Send(s.writer.value, s.taken, fate.first));
      if !fate.first {
        RetryBound(timeout, SendOn(s0, s.writer.value, s.taken, false), s.taken, fate, 0, 0);
      }
    } else {
      RetryBound(timeout, s0, s.taken, fate, 0, 0);
    }
  }

  // ----------------------------------------------------- what becomes of a message

  // The time gone before try k: half a second and a delay for each try before it.
  function Spent(fate: Fate, k: nat): nat {
    if k == 0 then 0 else Spent(fate, k - 1) + 500 + fate.tries(k - 1).delay
  }

  predicate Succeeds(fate: Fate, k: nat) {
    fate.tries(k).connects && fate.tries(k).accepts
  }

  // What the network sees of the tries from k up to n, when the next connection is number
  // `conns`.
  function TryTrace(fate: Fate, msg: nat, conns: nat, k: nat, n: nat): seq<NetOp>
    decreases n - k
  {
    if k >= n then []
    else
      var t := fate.tries(k);
      if t.connects then [Connect(true), Send(conns, msg, t.accepts)] + TryTrace(fate, msg, conns + 1, k + 1, n)
      else [Connect(false)] + TryTrace(fate, msg, conns, k + 1, n)
  }

  // The tries from k up to n are made, and no others: each began in time, and all but the
  // last failed. With the last one the message is accepted, or the time is over and the
  // message is skipped with all the time gone on record.
  predicate Tried(timeout: nat, fate: Fate, k: nat, n: nat, s: State, t: State, msg: nat) {
    && k < n && Spent(fate, n - 1) <= timeout && (forall i :: k <= i < n - 1 ==> !Succeeds(fate, i))
    && t.trace == s.trace + TryTrace(fate, msg, s.conns, k, n) && t.taken == s.taken
    && if Succeeds(fate, n - 1)
       then t.skipped == s.skipped && t.conns > 0 && t.writer == Some(t.conns - 1)
       else Spent(fate, n) > timeout && t.skipped == s.skipped + [Skip(msg, Spent(fate, n))] && t.writer.None?
  }

  ghost predicate Retried(timeout: nat, fate: Fate, t: State, msg: nat, s: State) {
    exists n: nat :: Tried(timeout, fate, 0, n, s, t, msg)
  }

  lemma {:induction false} FirstTry(fate: Fate, s: State, msg: nat, k: nat, n: nat)
    requires s.writer.None? && k < n
    ensures var s1 := OneTry(s, msg, fate.tries(k));
            && s.trace + TryTrace(fate, msg, s.conns, k, n) == s1.trace + TryTrace(fate, msg, s1.conns, k + 1, n)
            && s1.taken == s.taken && s1.skipped == s.skipped
            && (if Succeeds(fate, k) then s1.conns > 0 && s1.writer == Some(s1.conns - 1) else s1.writer.None?)
  {
    var t := fate.tries(k);
    var conns := if t.connects then s.conns + 1 else s.conns;
    var rest := TryTrace(fate, msg, conns, k + 1, n);
    assert s.trace + ([Connect(true), Send(s.conns, msg, t.accepts)] + rest) ==
           ((s.trace + [Connect(true)]) + [Send(s.conns, msg, t.accepts)]) + rest;
    assert s.trace + ([Connect(false)] + rest) == (s.trace + [Connect(false)]) + rest;
  }

  lemma {:induction false} RetryExactly(timeout: nat, s: State, msg: nat, fate: Fate, k: nat, elapsed: nat)
    requires s.writer.None? && elapsed == Spent(fate, k) <= timeout
    ensures exists n: nat :: Tried(timeout, fate, k, n, s, Retry(timeout, s, msg, fate, k, elapsed), msg)
    decreases timeout - elapsed
  {
    hide OneTry, TryTrace, Succeeds;
    var end := Retry(timeout, s, msg, fate, k, elapsed);
    var s1 := OneTry(s, msg, fate.tries(k));
    var now := elapsed + SLEEP + fate.tries(k).delay;
    FirstTry(fate, s, msg, k, k + 1);
    NoTries(fate, msg, s1.conns, k + 1);
    assert s1.trace + [] == s1.trace;
    SucceedsMeans(fate, k);
    if Succeeds(fate, k) || now > timeout {
      assert Tried(timeout, fate, k, k + 1, s, end, msg);
    } else {
      RetryExactly(timeout, s1, msg, fate, k + 1, now);
      var n: nat :| Tried(timeout, fate, k + 1, n, s1, end, msg);
      FirstTry(fate, s, msg, k, n);
      assert Tried(timeout, fate, k, n, s, end, msg);
    }
  }

  lemma {:induction false} SucceedsMeans(fate: Fate, k: nat)
    ensures Succeeds(fate, k) <==> fate.tries(k).connects && fate.tries(k).accepts
  {
  }

  lemma {:induction false} NoTries(fate: Fate, msg: nat, conns: nat, k: nat)
    ensures TryTrace(fate, msg, conns, k, k) == []
  {
  }

  lemma {:induction false} SpentGrows(fate: Fate, i: nat, j: nat)
    requires i <= j
    ensures Spent(fate, i) <= Spent(fate, j)
  {
    if i < j {
      SpentGrows(fate, i, j - 1);
    }
  }

  // Some try that would succeed begins in time.
  ghost predicate InTime(timeout: nat, fate: Fate) {
    exists k: nat :: Succeeds(fate, k) && Spent(fate, k) <= timeout
  }

  lemma {:induction false} TriedMeans(timeout: nat, fate: Fate, n: nat, s: State, t: State, msg: nat)
    requires Tried(timeout, fate, 0, n, s, t, msg)
    ensures InTime(timeout, fate) <==> Succeeds(fate, n - 1)
    ensures t.skipped == s.skipped <==> Succeeds(fate, n - 1)
  {
    hide Succeeds, TryTrace;
    if InTime(timeout, fate) && !Succeeds(fate, n - 1) {
      var k: nat :| Succeeds(fate, k) && Spent(fate, k) <= timeout;
      if k >= n {
        SpentGrows(fate, n, k);
      }
    }
  }

  // What becomes of a message. It is accepted if and only if the present connection takes it,
  // or a try that succeeds begins within the timeout; a connection that takes it sees nothing
  // else; otherwise the tries are those of Tried, after the failure of the present one.
  lemma {:induction false} WriteExactly(timeout: nat, s: State, fate: Fate)
    requires Fine(timeout, s)
    ensures var t, msg := Write(timeout, s, fate), s.taken;
            && t.taken == msg + 1
            && (AcceptedIn(t.trace, msg) <==> (s.writer.Some? && fate.first) || InTime(timeout, fate))
            && (s.writer.Some? && fate.first ==>
                  t == s.(taken := msg + 1, trace := s.trace + [Send(s.writer.value, msg, true)]))
            && (s.writer.Some? && !fate.first ==>
                  Retried(timeout, fate, t, msg,
                          s.(taken := msg + 1, trace := s.trace + [Send(s.writer.value, msg, false)], writer := None)))
            && (s.writer.None? ==> Retried(timeout, fate, t, msg, s.(taken := msg + 1)))
  {
    hide NeverReused, InOrder, AcceptedIn, Retry, Accounted, Tried, InTime;
    var msg := s.taken;
    var s0 := s.(taken := msg + 1);
    BoundedSoFar(timeout, s);
    var s1 := if s.writer.Some? then SendOn(s0, s.writer.value, msg, fate.first) else s0;
    if s.writer.Some? {
      SendKeepsInv(s0, msg, fate.first);
    }
    if s1.writer.None? {
      var t := Retry(timeout, s1, msg, fate, 0, 0);
      RetryKeepsInv(timeout, s1, msg, fate, 0, 0);
      RetryExactly(timeout, s1, msg, fate, 0, 0);
      var n: nat :| Tried(timeout, fate, 0, n, s1, t, msg);
      TriedMeans(timeout, fate, n, s1, t, msg);
      assert Retried(timeout, fate, t, msg, s1);
    }
  }

  lemma {:induction false} BoundedSoFar(timeout: nat, s: State)
    requires Fine(timeout, s)
    ensures Inv(s.(taken := s.taken + 1), s.taken)
  {
  }

  // ------------------------------------------------------------- order of messages

  lemma {:induction false} HandlesInOrder(timeout: nat, s: State, x: seq<Msg>, y: seq<Msg>)
    ensures HandleAll(timeout, s, x + y) == HandleAll(timeout, HandleAll(timeout, s, x), y)
    decreases |y|
  {
    if y == [] {
      assert x + y == x;
    } else {
      assert (x + y)[..|x + y| - 1] == x + y[..|y| - 1];
      HandlesInOrder(timeout, s, x, y[..|y| - 1]);
    }
  }

  lemma {:induction false} HandlesOne(timeout: nat, s: State, m: Msg)
    ensures HandleAll(timeout, s, [m]) == if m.Line? then Write(timeout, s, m.fate) else Flush(s, m.ok)
  {
    assert [m][..0] == [];
  }

  // The messages of a turn in the order of the queue, with the flush at its end, if any.
  function MessagesOf(turn: Turn): seq<Msg> {
    match turn
    case Drain(first, rest, endOk) =>
      [Line(first)] + rest + if exists i :: 0 <= i < |rest| && rest[i].Token? then [] else [Token(endOk)]
    case Lone(ok) => [Token(ok)]
  }

  lemma {:induction false} TurnInOrder(timeout: nat, s: State, turn: Turn)
    ensures TurnOnce(timeout, s, turn) == HandleAll(timeout, s, MessagesOf(turn))
  {
    hide Write, Flush, HandleAll;
    match turn
    case Drain(first, rest, endOk) =>
      HandlesOne(timeout, s, Line(first));
      HandlesInOrder(timeout, s, [Line(first)], rest);
      HandlesOne(timeout, HandleAll(timeout, s, [Line(first)] + rest), Token(endOk));
      HandlesInOrder(timeout, s, [Line(first)] + rest, [Token(endOk)]);
      assert [Line(first)] + rest + [] == [Line(first)] + rest;
    case Lone(ok) => HandlesOne(timeout, s, Token(ok));
  }

  function AllMessages(turns: seq<Turn>): seq<Msg> {
    if turns == [] then [] else AllMessages(turns[..|turns| - 1]) + MessagesOf(turns[|turns| - 1])
  }

  // A whole run handles all messages one by one in the order of the queue.
  lemma {:induction false} RunInOrder(timeout: nat, s: State, turns: seq<Turn>)
    ensures Turns(timeout, s, turns) == HandleAll(timeout, s, AllMessages(turns))
  {
    hide TurnOnce, HandleAll, MessagesOf;
    if turns == [] {
      NothingHandled(timeout, s);
    } else {
      var init, last := turns[..|turns| - 1], turns[|turns| - 1];
      RunInOrder(timeout, s, init);
      TurnInOrder(timeout, Turns(timeout, s, init), last);
      HandlesInOrder(timeout, s, AllMessages(init), MessagesOf(last));
    }
  }

  lemma {:induction false} NothingHandled(timeout: nat, s: State)
    ensures HandleAll(timeout, s, []) == s
  {
  }

  // ---------------------------------------------------------------- flush tokens

  // What a connection accepted after it was last flushed.
  function SinceFlush(trace: seq<NetOp>, conn: nat): seq<nat> {
    if trace == [] then []
    else
      var init, last := trace[..|trace| - 1], trace[|trace| - 1];
      if last.FlushConn? && last.conn == conn then []
      else SinceFlush(init, conn) + if Accepted(last) && last.conn == conn then [last.msg] else []
  }

  // What would be lost if the present connection broke now.
  function Unflushed(s: State): seq<nat> {
    if s.writer.None? then [] else SinceFlush(s.trace, s.writer.value)
  }

  lemma {:induction false} FlushLeavesNothing(s: State, ok: bool)
    ensures Unflushed(Flush(s, ok)) == []
  {
    if s.writer.Some? {
      var op := FlushConn(s.writer.value, ok);
      assert (s.trace + [op])[|s.trace|] == op;
    }
  }

  // When a token is completed the live connection has nothing accepted and unflushed,
  // whatever failed before it, drained with a line or on its own.
  lemma {:induction false} TokenMeansFlushed(timeout: nat, s: State, ms: seq<Msg>, ok: bool)
    ensures Unflushed(HandleAll(timeout, s, ms + [Token(ok)])) == []
    ensures Unflushed(TurnOnce(timeout, s, Lone(ok))) == []
  {
    assert (ms + [Token(ok)])[..|ms|] == ms;
    FlushLeavesNothing(HandleAll(timeout, s, ms), ok);
    FlushLeavesNothing(s, ok);
  }

  predicate AllWell(ms: seq<Msg>) {
    forall i :: 0 <= i < |ms| ==> if ms[i].Line? then ms[i].fate.first else ms[i].ok
  }

  lemma {:induction false} WellHandled(timeout: nat, s: State, ms: seq<Msg>)
    requires s.writer.Some? && AllWell(ms)
    ensures HandleAll(timeout, s, ms).writer == s.writer
    ensures ms != [] && ms[|ms| - 1].Line? ==> Unflushed(HandleAll(timeout, s, ms)) != []
  {
    if ms != [] {
      WellHandled(timeout, s, ms[..|ms| - 1]);
      var t := HandleAll(timeout, s, ms[..|ms| - 1]);
      var op := Send(s.writer.value, t.taken, true);
      assert (t.trace + [op])[|t.trace|] == op;
    }
  }

  // Being idle does not mean being flushed. The exact condition: the drain held no token,
  // or ended with one. It is enough whatever fails, and needed on a connection that works.
  lemma {:induction false} IdleIsFlushedExactly(timeout: nat, s: State, first: Fate, rest: seq<Msg>, endOk: bool)
    ensures HasToken(rest) ==> rest != []
    ensures (HasToken(rest) ==> rest[|rest| - 1].Token?) ==>
        Unflushed(TurnOnce(timeout, s, Drain(first, rest, endOk))) == []
    ensures s.writer.Some? && first.first && AllWell(rest) ==>
              (Unflushed(TurnOnce(timeout, s, Drain(first, rest, endOk))) == [] <==>
                  (HasToken(rest) ==> rest[|rest| - 1].Token?))
  {
    var s1 := Write(timeout, s, first);
    var t := HandleAll(timeout, s1, rest);
    FlushLeavesNothing(t, endOk);
    if HasToken(rest) {
      FlushLeavesNothing(HandleAll(timeout, s1, rest[..|rest| - 1]), rest[|rest| - 1].Token? && rest[|rest| - 1].ok);
    }
    if s.writer.Some? && first.first && AllWell(rest) {
      WellHandled(timeout, s1, rest);
    }
  }

  // A line, then a token, then a line: the last line waits for the next turn.
  lemma {:induction false} IdleCounterexample(timeout: nat, fate: Fate)
    requires fate.first
    ensures Unflushed(TurnOnce(timeout, Begin(true), Drain(fate, [Token(true), Line(fate)], true))) != []
  {
    var rest := [Token(true), Line(fate)];
    assert rest[0].Token?;
    IdleIsFlushedExactly(timeout, Begin(true), fate, rest, true);
  }
}

// The worker's code, proved to do what module Syslog says.
module SyslogWorker {
  import opened Common
  import Syslog

  class Backend {
    const timeout: nat
    var writer: Option<nat>
    // Names the next connection.
    var conns: nat
    // What happened so far, for the specification only.
    ghost var taken: nat
    ghost var trace: seq<Syslog.NetOp>
    ghost var skipped: seq<Syslog.Skip>

    ghost function View(): Syslog.State
      reads this
    {
      Syslog.State(writer, conns, taken, trace, skipped)
    }

    constructor (configured: nat, connects: bool)
      ensures timeout == Syslog.Timeout(configured) && View() == Syslog.Begin(connects)
    {
      timeout := if configured == 0 then Syslog.TIMEOUT_DEFAULT else configured;
      writer, conns, taken, trace, skipped := None, 0, 0, [], [];
      new;
      var _ := Reinit(connects);
    }

    method Reinit(connects: bool) returns (ok: bool)
      modifies this
      ensures ok == connects && View() == Syslog.Reconnect(old(View()), connects)
    {
      trace := trace + [Syslog.Connect(connects)];
      if connects {
        writer := Some(conns);
        conns := conns + 1;
      }
      return connects;
    }

    // write_all, and giving the connection up when it fails.
    method Send(accepts: bool, ghost msg: nat) returns (ok: bool)
      requires writer.Some?
      modifies this
      ensures ok == accepts && View() == Syslog.SendOn(old(View()), old(writer).value, msg, accepts)
    {
      trace := trace + [Syslog.Send(writer.value, msg, accepts)];
      if !accepts {
        writer := None;
      }
      return accepts;
    }

    method Flush(ok: bool)
      modifies this
      ensures View() == Syslog.Flush(old(View()), ok)
    {
      if writer.Some? {
        trace := trace + [Syslog.FlushConn(writer.value, ok)];
        if !ok {
          writer := None;
        }
      }
    }

    method Write(fate: Syslog.Fate)
      modifies this
      ensures View() == Syslog.Write(timeout, old(View()), fate)
    {
      ghost var msg := taken;
      ghost var end := Syslog.Write(timeout, View(), fate);
      taken := taken + 1;
      if writer.Some? {
        var sent := Send(fate.first, msg);
        if sent {
          return;
        }
      }
      var k, elapsed := 0, 0;
      while true
        invariant elapsed <= timeout && Syslog.Retry(timeout, View(), msg, fate, k, elapsed) == end
        decreases timeout - elapsed
      {
        var t := fate.tries(k);
        elapsed := elapsed + Syslog.SLEEP + t.delay;
        var connected := Reinit(t.connects);
        if connected {
          var sent := Send(t.accepts, msg);
          if sent {
            return;
          }
        }
        if elapsed > timeout {
          skipped := skipped + [Syslog.Skip(msg, elapsed)];
          return;
        }
        k := k + 1;
      }
    }

    // The loop over try_recv; a token completed in it leaves nothing to flush afterwards.
    method Drain(first: Syslog.Fate, rest: seq<Syslog.Msg>, endOk: bool)
      modifies this
      ensures View() == Syslog.TurnOnce(timeout, old(View()), Syslog.Drain(first, rest, endOk))
    {
      hide Syslog.Write, Syslog.Flush;
      ghost var s := Syslog.Write(timeout, View(), first);
      Write(first);
      var needFlush := true;
      for i := 0 to |rest|
        invariant View() == Syslog.HandleAll(timeout, s, rest[..i])
        invariant needFlush == !Syslog.HasToken(rest[..i])
      {
        assert rest[..i + 1][..i] == rest[..i] && rest[..i + 1][i] == rest[i];
        match rest[i]
        case Line(fate) => Write(fate);
        case Token(ok) =>
          Flush(ok);
          needFlush := false;
      }
      assert rest[..|rest|] == rest;
      if needFlush {
        Flush(endOk);
      }
    }

    // run, on the outcomes of its receives, up to the end of the channel.
    method Run(turns: seq<Syslog.Turn>, lastOk: bool)
      modifies this
      ensures View() == Syslog.Flush(Syslog.Turns(timeout, old(View()), turns), lastOk)
    {
      hide Syslog.Write, Syslog.Flush, Syslog.HandleAll;
      ghost var s := View();
      for i := 0 to |turns|
        invariant View() == Syslog.Turns(timeout, s, turns[..i])
      {
        assert turns[..i + 1][..i] == turns[..i] && turns[..i + 1][i] == turns[i];
        match turns[i]
        case Drain(first, rest, endOk) => Drain(first, rest, endOk);
        case Lone(ok) => Flush(ok);
      }
      assert turns[..|turns|] == turns;
      Flush(lastOk);
    }
  }
}
