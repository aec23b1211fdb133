// The sink as it runs: producers on a bounded queue, one worker that goes through a
// message in small steps, and the cleanup thread it spawns after a rename. The two
// threads share the archive with no lock; only the join keeps them apart.
module Protocol {
  import opened Common
  import opened Archive
  import opened Sink

  const CAPACITY: nat := 1024

  datatype Msg = LineMsg(line: Bytes) | Reopening | Flushing(token: nat)

  // What is left of handle_old_files: deleting from the oldest on, then compressing
  // everything of rank `at - 1` down to the first rank to compress.
  datatype Job = NoJob | Cutting(horizon: int) | Zipping(at: nat) | Finished

  // The worker's next steps. Rotate(0..4) are: join the last cleanup, begin the rename,
  // end it, spawn the next cleanup, reopen the log.
  datatype Op =
    | Store(line: Bytes) | Spill(env: Env) | Take(line: Bytes, before: Env, after: Env)
    | DoFlush(wait: bool, env: Env) | WriteBuf(env: Env) | Check(env: Env)
    | Rotate(stage: nat, env: Env) | Join | Open(ok: bool) | Ack(token: nat)

  // `sent` and `received` record the traffic; the program has no such fields.
  datatype Conc = Conc(s: State, todo: seq<Op>, job: Job, queue: seq<Msg>, closed: bool, sent: seq<Msg>,
    received: seq<Event>)

  datatype Action = Send(msg: Msg) | Close | Receive(ev: Event) | Work | JobStep

  // ------------------------------------------------------------- the cleanup job

  function StepJob(policy: Policy, a: seq<Gen>, job: Job): (seq<Gen>, Job) {
    match job
    case Cutting(h) =>
      if a != [] && TooOld(policy.limit, h, a[|a| - 1].suffix, |a| - 1) then (a[..|a| - 1], Cutting(h))
      else (a, Zipping(|a|))
    case Zipping(at) =>
      if ZipFrom(|a|, policy.exclude) < at <= |a| then (a[at - 1 := a[at - 1].(compressed := true)], Zipping(at - 1))
      else (a, Finished)
    case _ => (a, job)
  }

  function JobMeasure(a: seq<Gen>, job: Job): nat {
    match job
    case Cutting(_) => 2 * |a| + 3
    case Zipping(at) => 1 + at
    case _ => 0
  }

  function FinishJob(policy: Policy, a: seq<Gen>, job: Job): seq<Gen>
    decreases JobMeasure(a, job)
  {
    if job.NoJob? || job.Finished? then a
    else
      var (b, next) := StepJob(policy, a, job);
      FinishJob(policy, b, next)
  }

  // Step by step the job compresses a tail of the list ...
  lemma {:induction false} ZippingZips(policy: Policy, a: seq<Gen>, at: nat)
    requires at <= |a|
    ensures FinishJob(policy, Zipped(a, at), Zipping(at)) ==
            if ZipFrom(|a|, policy.exclude) < at then Zipped(a, ZipFrom(|a|, policy.exclude)) else Zipped(a, at)
  {
    if ZipFrom(|a|, policy.exclude) < at {
      var b := Zipped(a, at);
      assert b[at - 1 := b[at - 1].(compressed := true)] == Zipped(a, at - 1);
      ZippingZips(policy, a, at - 1);
    }
  }

  // ... after cutting off the tail that is too old: together, exactly the cleanup.
  lemma {:induction false} JobCleans(policy: Policy, a: seq<Gen>, h: int)
    ensures FinishJob(policy, a, Cutting(h)) == Cleaned(a, policy, h)
  {
    if a != [] && TooOld(policy.limit, h, a[|a| - 1].suffix, |a| - 1) {
      var b := a[..|a| - 1];
      JobCleans(policy, b, h);
      assert b[..Kept(b, policy.limit, h)] == a[..Kept(a, policy.limit, h)];
    } else {
      assert a[..|a|] == a && Zipped(a, |a|) == a;
      ZippingZips(policy, a, |a|);
    }
  }

  // --------------------------------------------------------------- worker steps

  function RotationOf(cfg: Config): Plan {
    if cfg.rotation.Some? then cfg.rotation.value else Plan(None, false, Policy(Numbered, Unlimited, None))
  }

  // One step of the worker: the new state, and the steps it turns into.
  function Step(cfg: Config, s: State, op: Op): (State, seq<Op>) {
    match op
    case Take(line, before, after) =>
      (s, (if NoRoom(cfg, s, line) then [DoFlush(false, before)] else []) + [Store(line), Spill(after)])
    case Store(line) => (s.(buf := s.buf + line), [])
    case Spill(e) => (s, if |s.buf| >= cfg.flushSize then [DoFlush(false, e)] else [])
    case DoFlush(wait, e) =>
      (s, (if s.fd == OnLive then [WriteBuf(e), Check(e)] else []) +
          (if wait && cfg.rotation.Some? then [Join] else []))
    case WriteBuf(e) => (WriteOut(s, e.dropped), [])
    case Check(e) => (s, if Rotates(cfg, s, e) then [Rotate(0, e)] else [])
    case Rotate(stage, e) =>
      if stage == 0 then (s.(unjoined := false), [Rotate(1, e)])
      else if stage == 1 then (s, [Rotate(2, e)])
      else if stage == 2 then (RenameLive(RotationOf(cfg), s, e), [Rotate(3, e)])
      else if stage == 3 then (s.(unjoined := true), [Rotate(4, e)])
      else (Sink.Reopen(s, true), [])
    case Join => (s.(unjoined := false), [])
    case Open(ok) => (Sink.Reopen(s, ok), [])
    case Ack(_) => (s, [])
  }

  // Joining waits for the thread, if one was spawned and not joined yet.
  predicate CanStep(c: Conc) {
    c.todo != [] &&
    (c.todo[0].Join? || (c.todo[0].Rotate? && c.todo[0].stage == 0) ==> c.s.unjoined ==>
        !(c.job.Cutting? || c.job.Zipping?))
  }

  function NextJob(c: Conc, op: Op): Job {
    if op.Join? || (op.Rotate? && op.stage == 0) then NoJob
    else if op.Rotate? && op.stage == 3 then Cutting(op.env.horizon)
    else c.job
  }

  function MsgOf(ev: Event): Option<Msg> {
    match ev
    case Line(line, _, _) => Some(LineMsg(line))
    case ReopenMsg(_) => Some(Reopening)
    case FlushMsg(token, _) => Some(Flushing(token))
    case _ => None
  }

  function OpsOf(ev: Event): seq<Op> {
    match ev
    case Line(line, before, after) => [Take(line, before, after)]
    case ReopenMsg(ok) => [Open(ok)]
    case FlushMsg(token, e) => [DoFlush(true, e), Ack(token)]
    case Timeout(e) => [DoFlush(false, e)]
    case Disconnected(e) => [DoFlush(true, e)]
  }

  predicate Exited(c: Conc) {
    c.received != [] && c.received[|c.received| - 1].Disconnected?
  }

  predicate Enabled(cfg: Config, c: Conc, a: Action) {
    match a
    case Send(_) => |c.queue| < CAPACITY && !c.closed
    case Close => !c.closed
    case Receive(ev) =>
      c.todo == [] && !Exited(c) &&
      (match MsgOf(ev)
       case Some(m) => c.queue != [] && c.queue[0] == m
       case None => c.queue == [] && (ev.Disconnected? <==> c.closed))
    case Work => CanStep(c)
    case JobStep => c.job.Cutting? || c.job.Zipping?
  }

  function Next(cfg: Config, c: Conc, a: Action): Conc
    requires Enabled(cfg, c, a)
  {
    match a
    case Send(m) => c.(queue := c.queue + [m], sent := c.sent + [m])
    case Close => c.(closed := true)
    case Receive(ev) =>
      c.(todo := OpsOf(ev), received := c.received + [ev], queue := if MsgOf(ev).Some? then c.queue[1..] else c.queue)
    case Work =>
      var (s, ops) := Step(cfg, c.s, c.todo[0]);
      c.(s := s, todo := ops + c.todo[1..], job := NextJob(c, c.todo[0]))
    case JobStep =>
      var (a, job) := StepJob(RotationOf(cfg).policy, c.s.archive, c.job);
      c.(s := c.s.(archive := a), job := job)
  }

  predicate Legal(cfg: Config, c: Conc, acts: seq<Action>)
    decreases |acts|
  {
    acts == [] || (Enabled(cfg, c, acts[0]) && Legal(cfg, Next(cfg, c, acts[0]), acts[1..]))
  }

  function After(cfg: Config, c: Conc, acts: seq<Action>): Conc
    requires Legal(cfg, c, acts)
    decreases |acts|
  {
    if acts == [] then c else After(cfg, Next(cfg, c, acts[0]), acts[1..])
  }

  // The worker at the head of log_writer: open, check for a rotation, then receive.
  function Begin(live: Option<Bytes>, archive: seq<Gen>, opens: bool, first: Env): Conc {
    Conc(Fresh(live, archive), [Open(opens), Check(first)], NoJob, [], false, [], [])
  }

  // ---------------------------------------------- what steps mean, one by one

  // The effect of a step, with all it turns into, when the cleanup runs at once.
  function Meaning(cfg: Config, s: State, op: Op): State {
    match op
    case Take(line, before, after) => Sink.Write(cfg, s, line, before, after)
    case Store(line) => s.(buf := s.buf + line)
    case Spill(e) => FlushIf(cfg, s, |s.buf| >= cfg.flushSize, e)
    case DoFlush(wait, e) => Sink.Flush(cfg, s, wait, e)
    case WriteBuf(e) => WriteOut(s, e.dropped)
    case Check(e) => CheckRotate(cfg, s, e)
    case Rotate(stage, e) =>
      var r := RotationOf(cfg);
      var s1 := if stage <= 2 then RenameLive(r, s, e) else s;
      var s2 := if stage <= 3 then CleanUp(r, s1, e.horizon).(unjoined := true) else s1;
      Sink.Reopen(s2, true)
    case Join => s.(unjoined := false)
    case Open(ok) => Sink.Reopen(s, ok)
    case Ack(_) => s
  }

  function Complete(cfg: Config, s: State, todo: seq<Op>): State
    decreases |todo|
  {
    if todo == [] then s else Complete(cfg, Meaning(cfg, s, todo[0]), todo[1..])
  }

  lemma {:induction false} CompleteConcat(cfg: Config, s: State, x: seq<Op>, y: seq<Op>)
    ensures Complete(cfg, s, x + y) == Complete(cfg, Complete(cfg, s, x), y)
    decreases |x|
  {
    if x == [] {
      assert x + y == y;
    } else {
      assert x + y == [x[0]] + (x[1..] + y);
      CompleteConcat(cfg, Meaning(cfg, s, x[0]), x[1..], y);
    }
  }

  lemma {:induction false} CompleteOne(cfg: Config, s: State, op: Op)
    ensures Complete(cfg, s, [op]) == Meaning(cfg, s, op)
  {
    assert [op][1..] == [];
  }

  lemma {:induction false} CompleteTwo(cfg: Config, s: State, op: Op, next: Op)
    ensures Complete(cfg, s, [op, next]) == Meaning(cfg, Meaning(cfg, s, op), next)
  {
    assert [op, next][1..] == [next];
    CompleteOne(cfg, Meaning(cfg, s, op), next);
  }

  lemma {:induction false} TakeAddsUp(cfg: Config, s: State, op: Op)
    requires op.Take?
    ensures Complete(cfg, s, Step(cfg, s, op).1) == Meaning(cfg, s, op)
  {
    hide Flush, Sink.Reopen, CheckRotate, NoRoom;
    var room := if NoRoom(cfg, s, op.line) then [DoFlush(false, op.before)] else [];
    CompleteConcat(cfg, s, room, [Store(op.line), Spill(op.after)]);
    CompleteOne(cfg, s, DoFlush(false, op.before));
    CompleteTwo(cfg, Complete(cfg, s, room), Store(op.line), Spill(op.after));
  }

  lemma {:induction false} FlushAddsUp(cfg: Config, s: State, op: Op)
    requires op.DoFlush?
    ensures Complete(cfg, s, Step(cfg, s, op).1) == Meaning(cfg, s, op)
  {
    hide WriteOut, CheckRotate, Write, FlushIf, Sink.Reopen;
    var e := op.env;
    var write := if s.fd == OnLive then [WriteBuf(e), Check(e)] else [];
    CompleteConcat(cfg, s, write, if op.wait && cfg.rotation.Some? then [Join] else []);
    CompleteTwo(cfg, s, WriteBuf(e), Check(e));
    CompleteOne(cfg, Complete(cfg, s, write), Join);
  }

  // Renaming does not look at whether the last cleanup was joined.
  lemma {:induction false} JoinedOrNot(r: Plan, s: State, e: Env)
    ensures CleanUp(r, RenameLive(r, s.(unjoined := false), e), e.horizon).(unjoined := true) ==
            CleanUp(r, RenameLive(r, s, e), e.horizon).(unjoined := true)
  {
  }

  lemma {:induction false} RotationAddsUp(cfg: Config, s: State, op: Op)
    requires op.Check? || (op.Rotate? && op.stage != 3)
    ensures Complete(cfg, Step(cfg, s, op).0, Step(cfg, s, op).1) == Meaning(cfg, s, op)
  {
    hide RenameLive, CleanUp, Sink.Reopen, Write, FlushIf, Flush, WriteOut;
    var e := op.env;
    CompleteOne(cfg, s, Rotate(0, e));
    if op.Rotate? {
      CompleteOne(cfg, Step(cfg, s, op).0, Rotate(op.stage + 1, e));
    }
    JoinedOrNot(RotationOf(cfg), s, e);
  }

  // Small steps add up to the meaning of what they came from; spawning is the one step
  // whose effect is not there yet.
  lemma {:induction false} StepsAddUp(cfg: Config, s: State, op: Op)
    requires !(op.Rotate? && op.stage == 3)
    ensures Complete(cfg, Step(cfg, s, op).0, Step(cfg, s, op).1) == Meaning(cfg, s, op)
  {
    hide Write, Flush;
    match op
    case Take(_, _, _) => TakeAddsUp(cfg, s, op);
    case DoFlush(_, _) => FlushAddsUp(cfg, s, op);
    case Spill(e) => CompleteOne(cfg, s, DoFlush(false, e));
    case Check(_) => RotationAddsUp(cfg, s, op);
    case Rotate(_, _) => RotationAddsUp(cfg, s, op);
    case _ =>
  }

  // ------------------------------------------------------------ the simulation

  // The state with the outstanding cleanup carried to its end.
  function Settle(cfg: Config, c: Conc): State {
    c.s.(archive := FinishJob(RotationOf(cfg).policy, c.s.archive, c.job))
  }

  // Where this run will be once the cleanup and the message in hand are done.
  function Destination(cfg: Config, c: Conc): State {
    Complete(cfg, Settle(cfg, c), c.todo)
  }

  predicate Alive(job: Job) {
    job != NoJob
  }

  // While the archive is being renamed or a cleanup is due, no cleanup is alive.
  predicate Exclusive(c: Conc) {
    && (Alive(c.job) ==> c.s.unjoined)
    && (c.todo != [] && c.todo[0].Rotate? && 1 <= c.todo[0].stage <= 3 ==> !c.s.unjoined && c.job == NoJob)
  }

  // Only the step at the head can be part of a rotation or write the buffer, and the
  // acknowledgement of the flush in hand comes last.
  ghost predicate WellFormed(c: Conc) {
    && (forall i :: 1 <= i < |c.todo| ==> !c.todo[i].Rotate? && !c.todo[i].WriteBuf?)
    && (forall i :: 0 <= i < |c.todo| && c.todo[i].Ack? ==>
          i == |c.todo| - 1 && c.received != [] &&
            MsgOf(c.received[|c.received| - 1]) == Some(Flushing(c.todo[i].token)))
  }

  // The descriptor is on an archived file only from the end of the rename to the reopen,
  // and the buffer is written through it only while it is on the live file.
  predicate Descriptors(cfg: Config, c: Conc) {
    var s := c.s;
    && (s.fd == OnLive ==> s.live.Some?)
    && (s.fd == NotOpen ==> s.size == 0 && (HasAge(cfg) ==> c.todo != [] && c.todo[0] == Open(true)))
    && (if c.todo != [] && c.todo[0].Rotate? then
          cfg.rotation.Some? && if c.todo[0].stage <= 2 then s.fd == OnLive else s.fd.OnArchived?
        else !s.fd.OnArchived?)
    && (c.todo != [] && c.todo[0].WriteBuf? ==> s.fd == OnLive)
  }

  // The queue: nothing is lost, repeated or reordered on the way to the worker.
  ghost predicate Fifo(c: Conc) {
    |c.queue| <= CAPACITY && c.sent == Messages(c.received) + c.queue
  }

  // The worker leaves only after the last sender did, with nothing queued.
  predicate ExitsLast(c: Conc) {
    Exited(c) ==> c.closed && c.queue == []
  }

  function Messages(evs: seq<Event>): seq<Msg> {
    if evs == [] then []
    else
      var m := MsgOf(evs[|evs| - 1]);
      Messages(evs[..|evs| - 1]) + if m.Some? then [m.value] else []
  }

  ghost predicate Good(cfg: Config, c: Conc) {
    Exclusive(c) && WellFormed(c) && Descriptors(cfg, c) && Fifo(c) && ExitsLast(c)
  }

  lemma {:induction false} WorkIsExclusive(cfg: Config, c: Conc)
    requires Exclusive(c) && CanStep(c) && WellFormed(c)
    ensures Exclusive(Next(cfg, c, Work))
  {
    hide WriteOut, RenameLive, Sink.Reopen, Rotates, NoRoom;
    TodoAfter(cfg, c);
    WhoJoins(cfg, c.s, c.todo[0]);
  }

  lemma {:induction false} WhoJoins(cfg: Config, s: State, op: Op)
    ensures var (t, _) := Step(cfg, s, op);
            t.unjoined == if op.Join? || (op.Rotate? && op.stage == 0) then false
                          else if op.Rotate? && op.stage == 3 then true else s.unjoined
  {
  }

  lemma {:induction false} TodoAfter(cfg: Config, c: Conc)
    requires c.todo != [] && Enabled(cfg, c, Work)
    ensures var ops, todo := Step(cfg, c.s, c.todo[0]).1, Next(cfg, c, Work).todo;
            && |todo| == |ops| + |c.todo| - 1
            && (forall i :: 0 <= i < |ops| ==> todo[i] == ops[i])
            && (forall i :: |ops| <= i < |todo| ==> todo[i] == c.todo[i - |ops| + 1])
  {
  }

  lemma {:induction false} WorkIsWellFormed(cfg: Config, c: Conc)
    requires WellFormed(c) && CanStep(c)
    ensures WellFormed(Next(cfg, c, Work))
  {
    hide WriteOut, RenameLive, Sink.Reopen, Rotates, NoRoom;
    TodoAfter(cfg, c);
    var ops := Step(cfg, c.s, c.todo[0]).1;
    assert forall i :: 0 <= i < |ops| ==> !ops[i].Ack? && (i > 0 ==> !ops[i].Rotate? && !ops[i].WriteBuf?);
    hide Step, Next;
  }

  lemma {:induction false} WorkKeepsDescriptors(cfg: Config, c: Conc)
    requires WellFormed(c) && Descriptors(cfg, c) && CanStep(c)
    ensures Descriptors(cfg, Next(cfg, c, Work))
  {
    assert c.todo != [];
    hide Step, Next, Descriptors, WellFormed, CanStep;
    if c.todo[0].Rotate? {
      RotatingKeepsDescriptors(cfg, c);
    } else {
      OthersKeepDescriptors(cfg, c);
    }
  }

  lemma {:induction false} RotatingKeepsDescriptors(cfg: Config, c: Conc)
    requires WellFormed(c) && Descriptors(cfg, c) && CanStep(c) && c.todo[0].Rotate?
    ensures Descriptors(cfg, Next(cfg, c, Work))
  {
    hide NoRoom, Written, AppendArchived, Push, FreshSuffix, LiveBytes;
    TodoAfter(cfg, c);
  }

  lemma {:induction false} OthersKeepDescriptors(cfg: Config, c: Conc)
    requires WellFormed(c) && Descriptors(cfg, c) && CanStep(c) && !c.todo[0].Rotate?
    ensures Descriptors(cfg, Next(cfg, c, Work))
  {
    hide NoRoom, Written, AppendArchived, Push, FreshSuffix, LiveBytes, RenameLive;
    TodoAfter(cfg, c);
  }

  // No step but the rename looks at the archive; the cleanup thread may be at work.
  lemma {:induction false} StepIgnoresArchive(cfg: Config, s: State, op: Op, a: seq<Gen>)
    requires !(op.Rotate? && op.stage == 2) && !(op.WriteBuf? && s.fd.OnArchived?)
    ensures Step(cfg, s.(archive := a), op) == (Step(cfg, s, op).0.(archive := a), Step(cfg, s, op).1)
  {
  }

  // Whatever the worker does, where this run is bound for does not change.
  lemma {:induction false} WorkKeepsDestination(cfg: Config, c: Conc)
    requires Exclusive(c) && Descriptors(cfg, c) && CanStep(c)
    ensures Destination(cfg, Next(cfg, c, Work)) == Destination(cfg, c)
  {
    var op, rest := c.todo[0], c.todo[1..];
    var d := Next(cfg, c, Work);
    var (s, ops) := Step(cfg, c.s, op);
    CompleteConcat(cfg, Settle(cfg, d), ops, rest);
    if op.Rotate? && op.stage == 3 {
      SpawnSettles(cfg, c, op);
    } else {
      StepsAddUp(cfg, Settle(cfg, c), op);
      StepSettles(cfg, c, op);
    }
  }

  lemma {:induction false} SpawnSettles(cfg: Config, c: Conc, op: Op)
    requires c.todo != [] && c.todo[0] == op && op.Rotate? && op.stage == 3 && c.job == NoJob
    ensures Complete(cfg, Settle(cfg, Next(cfg, c, Work)), Step(cfg, c.s, op).1) == Meaning(cfg, Settle(cfg, c), op)
  {
    JobCleans(RotationOf(cfg).policy, c.s.archive, op.env.horizon);
    CompleteOne(cfg, Settle(cfg, Next(cfg, c, Work)), Rotate(4, op.env));
  }

  lemma {:induction false} StepSettles(cfg: Config, c: Conc, op: Op)
    requires Exclusive(c) && Descriptors(cfg, c) && CanStep(c) && c.todo[0] == op
    requires !(op.Rotate? && op.stage == 3)
    ensures Step(cfg, Settle(cfg, c), op) == (Settle(cfg, Next(cfg, c, Work)), Step(cfg, c.s, op).1)
  {
    var p := RotationOf(cfg).policy;
    if op.Rotate? && op.stage == 2 {
      assert c.job == NoJob && FinishJob(p, c.s.archive, c.job) == c.s.archive;
    } else {
      StepIgnoresArchive(cfg, c.s, op, FinishJob(p, c.s.archive, c.job));
      assert Step(cfg, c.s, op).0.archive == c.s.archive;
    }
  }

  lemma {:induction false} JobKeepsDestination(cfg: Config, c: Conc)
    requires Enabled(cfg, c, JobStep)
    ensures Destination(cfg, Next(cfg, c, JobStep)) == Destination(cfg, c)
  {
    assert Settle(cfg, Next(cfg, c, JobStep)) == Settle(cfg, c);
  }

  // Taking a message adds exactly its sequential effect.
  lemma {:induction false} ReceiveMovesDestination(cfg: Config, c: Conc, ev: Event)
    requires Enabled(cfg, c, Receive(ev))
    ensures Destination(cfg, Next(cfg, c, Receive(ev))) == Process(cfg, Destination(cfg, c), ev)
  {
    var s := Settle(cfg, c);
    hide Write, Flush, Sink.Reopen, FinishJob;
    assert Settle(cfg, Next(cfg, c, Receive(ev))) == s;
    match ev
    case Line(line, before, after) => CompleteOne(cfg, s, Take(line, before, after));
    case ReopenMsg(ok) => CompleteOne(cfg, s, Open(ok));
    case FlushMsg(token, e) => CompleteTwo(cfg, s, DoFlush(true, e), Ack(token));
    case Timeout(e) => CompleteOne(cfg, s, DoFlush(false, e));
    case Disconnected(e) => CompleteOne(cfg, s, DoFlush(true, e));
  }

  lemma {:induction false} ReceiveKeepsFifo(cfg: Config, c: Conc, ev: Event)
    requires Fifo(c) && Enabled(cfg, c, Receive(ev))
    ensures Fifo(Next(cfg, c, Receive(ev)))
  {
    MessagesSnoc(c.received, ev);
    hide Messages;
    if MsgOf(ev).Some? {
      assert c.queue == [MsgOf(ev).value] + c.queue[1..];
      Associates(Messages(c.received), [MsgOf(ev).value], c.queue[1..]);
    } else {
      assert Messages(c.received) + [] == Messages(c.received);
    }
  }

  lemma {:induction false} MessagesSnoc(evs: seq<Event>, ev: Event)
    ensures Messages(evs + [ev]) == Messages(evs) + if MsgOf(ev).Some? then [MsgOf(ev).value] else []
  {
    assert (evs + [ev])[..|evs|] == evs;
  }

  lemma {:induction false} ReceiveKeepsShape(cfg: Config, c: Conc, ev: Event)
    requires Exclusive(c) && WellFormed(c) && Descriptors(cfg, c) && Enabled(cfg, c, Receive(ev))
    ensures var d := Next(cfg, c, Receive(ev)); Exclusive(d) && WellFormed(d) && Descriptors(cfg, d)
  {
  }

  lemma {:induction false} SendKeepsFifo(c: Conc, m: Msg)
    requires Fifo(c) && |c.queue| < CAPACITY
    ensures Fifo(c.(queue := c.queue + [m], sent := c.sent + [m]))
  {
    Associates(Messages(c.received), c.queue, [m]);
  }

  lemma {:induction false} SendKeepsGood(cfg: Config, c: Conc, m: Msg)
    requires Good(cfg, c) && Enabled(cfg, c, Send(m))
    ensures Good(cfg, Next(cfg, c, Send(m)))
  {
    SendKeepsFifo(c, m);
    ShapeIsLocal(cfg, c, Next(cfg, c, Send(m)));
    hide Exclusive, WellFormed, Descriptors, Fifo;
  }

  // What the steps in hand may be does not depend on the queue.
  lemma {:induction false} ShapeIsLocal(cfg: Config, c: Conc, d: Conc)
    requires c.s == d.s && c.todo == d.todo && c.job == d.job && c.received == d.received
    ensures Exclusive(c) == Exclusive(d) && WellFormed(c) == WellFormed(d) && Descriptors(cfg, c) == Descriptors(cfg, d)
  {
  }

  lemma {:induction false} CloseKeepsGood(cfg: Config, c: Conc)
    requires Good(cfg, c) && Enabled(cfg, c, Close)
    ensures Good(cfg, Next(cfg, c, Close))
  {
    ShapeIsLocal(cfg, c, Next(cfg, c, Close));
  }

  lemma {:induction false} JobKeepsGood(cfg: Config, c: Conc)
    requires Good(cfg, c) && Enabled(cfg, c, JobStep)
    ensures Good(cfg, Next(cfg, c, JobStep))
  {
    hide TooOld, ZipFrom, Fifo, Messages;
    assert Next(cfg, c, JobStep).s == c.s.(archive := Next(cfg, c, JobStep).s.archive);
    QueueUntouched(c, Next(cfg, c, JobStep));
  }

  lemma {:induction false} QueueUntouched(c: Conc, d: Conc)
    requires c.queue == d.queue && c.sent == d.sent && c.received == d.received && c.closed == d.closed
    ensures Fifo(c) == Fifo(d) && ExitsLast(c) == ExitsLast(d)
  {
  }

  lemma {:induction false} WorkKeepsGood(cfg: Config, c: Conc)
    requires Good(cfg, c) && Enabled(cfg, c, Work)
    ensures Good(cfg, Next(cfg, c, Work))
  {
    hide Exclusive, WellFormed, Descriptors, Fifo, ExitsLast, Step, NextJob;
    WorkIsExclusive(cfg, c);
    WorkIsWellFormed(cfg, c);
    WorkKeepsDescriptors(cfg, c);
    QueueUntouched(c, Next(cfg, c, Work));
  }

  lemma {:induction false} ReceiveKeepsGood(cfg: Config, c: Conc, ev: Event)
    requires Good(cfg, c) && Enabled(cfg, c, Receive(ev))
    ensures Good(cfg, Next(cfg, c, Receive(ev)))
  {
    hide Exclusive, WellFormed, Descriptors, Fifo, OpsOf;
    ReceiveKeepsShape(cfg, c, ev);
    ReceiveKeepsFifo(cfg, c, ev);
  }

  lemma {:induction false} NextKeepsGood(cfg: Config, c: Conc, a: Action)
    requires Good(cfg, c) && Enabled(cfg, c, a)
    ensures Good(cfg, Next(cfg, c, a))
  {
    hide Good, Next, Enabled;
    match a
    case Send(m) => SendKeepsGood(cfg, c, m);
    case Close => CloseKeepsGood(cfg, c);
    case Receive(ev) => ReceiveKeepsGood(cfg, c, ev);
    case Work => WorkKeepsGood(cfg, c);
    case JobStep => JobKeepsGood(cfg, c);
  }

  // ---------------------------------------------------------------- whole runs

  // Every interleaving of producers, worker and cleanup thread is bound for exactly the
  // state that the one-message-at-a-time run with instant cleanups reaches.
  lemma {:induction false} RunsAreSequential(cfg: Config, c: Conc, acts: seq<Action>, s0: State)
    requires Good(cfg, c) && Legal(cfg, c, acts)
    requires Destination(cfg, c) == Run(cfg, s0, c.received)
    ensures var d := After(cfg, c, acts); Good(cfg, d) && Destination(cfg, d) == Run(cfg, s0, d.received)
    decreases |acts|
  {
    if acts != [] {
      var a := acts[0];
      var d := Next(cfg, c, a);
      NextKeepsGood(cfg, c, a);
      NextDestination(cfg, c, a, s0);
      RunsAreSequential(cfg, d, acts[1..], s0);
    }
  }

  lemma {:induction false} NextDestination(cfg: Config, c: Conc, a: Action, s0: State)
    requires Good(cfg, c) && Enabled(cfg, c, a)
    requires Destination(cfg, c) == Run(cfg, s0, c.received)
    ensures Destination(cfg, Next(cfg, c, a)) == Run(cfg, s0, Next(cfg, c, a).received)
  {
    hide Run, Complete, Settle;
    match a
    case Send(_) => SameDestination(cfg, c, Next(cfg, c, a));
    case Close => SameDestination(cfg, c, Next(cfg, c, a));
    case Receive(ev) =>
      ReceiveMovesDestination(cfg, c, ev);
      RunSnoc(cfg, s0, c.received, ev);
    case Work => WorkKeepsDestination(cfg, c);
    case JobStep => JobKeepsDestination(cfg, c);
  }

  lemma {:induction false} SameDestination(cfg: Config, c: Conc, d: Conc)
    requires c.s == d.s && c.job == d.job && c.todo == d.todo
    ensures Destination(cfg, c) == Destination(cfg, d)
  {
  }

  // The start of log_writer is bound for the sequential start.
  lemma {:induction false} BeginIsGood(cfg: Config, live: Option<Bytes>, archive: seq<Gen>, opens: bool, first: Env)
    requires Sorted(archive) && (HasAge(cfg) ==> opens)
    ensures var c := Begin(live, archive, opens, first);
            Good(cfg, c) && Destination(cfg, c) == Started(cfg, live, archive, opens, first)
  {
    CompleteTwo(cfg, Fresh(live, archive), Open(opens), Check(first));
  }

  lemma {:induction false} ReachedStates(cfg: Config, live: Option<Bytes>, archive: seq<Gen>, opens: bool,
                                         first: Env, acts: seq<Action>)
    requires Sorted(archive) && (HasAge(cfg) ==> opens)
    requires Legal(cfg, Begin(live, archive, opens, first), acts)
    ensures var d := After(cfg, Begin(live, archive, opens, first), acts);
            Good(cfg, d) && Destination(cfg, d) == Run(cfg, Started(cfg, live, archive, opens, first), d.received)
  {
    BeginIsGood(cfg, live, archive, opens, first);
    RunsAreSequential(cfg, Begin(live, archive, opens, first), acts, Started(cfg, live, archive, opens, first));
  }

  // The join handshake: in every reachable state a cleanup that is alive is one nobody
  // joined; renaming and spawning happen only with no cleanup alive; and the buffer is
  // written only to the live file, never to a file that has been archived.
  lemma {:induction false} HandshakeIsSafe(cfg: Config, live: Option<Bytes>, archive: seq<Gen>, opens: bool,
                                           first: Env, acts: seq<Action>)
    requires Sorted(archive) && (HasAge(cfg) ==> opens)
    requires Legal(cfg, Begin(live, archive, opens, first), acts)
    ensures var d := After(cfg, Begin(live, archive, opens, first), acts);
            && (d.job != NoJob ==> d.s.unjoined)
            && (d.todo != [] && d.todo[0].Rotate? && 1 <= d.todo[0].stage <= 3 ==> d.job == NoJob)
            && (d.todo != [] && d.todo[0].Rotate? && d.todo[0].stage <= 2 ==> d.s.live.Some?)
            && (d.todo != [] && d.todo[0].WriteBuf? ==> d.s.fd == OnLive)
  {
    ReachedStates(cfg, live, archive, opens, first, acts);
  }

  // At rest - nothing in hand, no cleanup running - the files are those of the strictly
  // alternating run, so all that Sink.WholeRun says holds of them.
  lemma {:induction false} AtRest(cfg: Config, live: Option<Bytes>, archive: seq<Gen>, opens: bool, first: Env,
                                  acts: seq<Action>)
    requires Sorted(archive) && (HasAge(cfg) ==> opens)
    requires Legal(cfg, Begin(live, archive, opens, first), acts)
    requires var d := After(cfg, Begin(live, archive, opens, first), acts);
             d.todo == [] && !d.job.Cutting? && !d.job.Zipping?
    ensures var d := After(cfg, Begin(live, archive, opens, first), acts);
            && d.s == Run(cfg, Started(cfg, live, archive, opens, first), d.received)
            && d.sent == Messages(d.received) + d.queue && |d.queue| <= CAPACITY
  {
    ReachedStates(cfg, live, archive, opens, first, acts);
  }

  // Flush acknowledgement: when the worker completes a flush token with the file open,
  // the buffer is empty, no cleanup is outstanding, and every line queued before the
  // token is on disk: the messages sent up to it are exactly those already processed.
  lemma {:induction false} AckMeansOnDisk(cfg: Config, live: Option<Bytes>, archive: seq<Gen>, opens: bool,
                                          first: Env, acts: seq<Action>)
    requires Sorted(archive) && (HasAge(cfg) ==> opens)
    requires Legal(cfg, Begin(live, archive, opens, first), acts)
    requires var d := After(cfg, Begin(live, archive, opens, first), acts);
             d.todo != [] && d.todo[0].Ack? && d.s.fd == OnLive
    ensures var d := After(cfg, Begin(live, archive, opens, first), acts);
            && d.s.buf == [] && d.job == NoJob && !d.s.unjoined
            && Messages(d.received) + d.queue == d.sent
            && Messages(d.received) != []
            && Messages(d.received)[|Messages(d.received)| - 1] == Flushing(d.todo[0].token)
            && (d.s.lost == 0 ==> OnDisk(d.s) == (if live.Some? then live.value else []) + Concat(LinesOf(d.received)))
  {
    hide Begin, Legal, Concat, LinesOf, Started, Run, Descriptors, ExitsLast;
    var d := After(cfg, Begin(live, archive, opens, first), acts);
    var s0 := Started(cfg, live, archive, opens, first);
    ReachedStates(cfg, live, archive, opens, first, acts);
    AckIsLast(cfg, d);
    FlushedState(cfg, s0, d.received);
    StartCarries(cfg, live, archive, opens, first);
    Conservation(cfg, s0, d.received);
    assert Stored(Settle(cfg, d)) == OnDisk(d.s) + [] == OnDisk(d.s);
  }

  lemma {:induction false} AckIsLast(cfg: Config, d: Conc)
    requires WellFormed(d) && d.todo != [] && d.todo[0].Ack?
    ensures d.received != [] && d.received[|d.received| - 1].FlushMsg?
    ensures Messages(d.received) != [] && Messages(d.received)[|Messages(d.received)| - 1] == Flushing(d.todo[0].token)
    ensures Destination(cfg, d) == Settle(cfg, d)
  {
    assert d.todo == [d.todo[0]];
    CompleteOne(cfg, Settle(cfg, d), d.todo[0]);
  }

  lemma {:induction false} FlushedState(cfg: Config, s: State, evs: seq<Event>)
    requires Inv(cfg, s) && evs != [] && evs[|evs| - 1].FlushMsg?
    ensures var t := Run(cfg, s, evs); !t.unjoined && (t.fd == OnLive ==> t.buf == [])
  {
  }

  // An acknowledged flush leaves the buffer empty if and only if the file is open, or
  // nothing had been logged at all.
  lemma {:induction false} AckEmptiesBuffer(cfg: Config, live: Option<Bytes>, archive: seq<Gen>, opens: bool,
                                            first: Env, acts: seq<Action>)
    requires Sorted(archive) && (HasAge(cfg) ==> opens)
    requires Legal(cfg, Begin(live, archive, opens, first), acts)
    requires var d := After(cfg, Begin(live, archive, opens, first), acts); d.todo != [] && d.todo[0].Ack?
    ensures var d := After(cfg, Begin(live, archive, opens, first), acts);
            d.s.buf == [] <==> d.s.fd == OnLive || Concat(LinesOf(d.received)) == []
  {
    var d := After(cfg, Begin(live, archive, opens, first), acts);
    var s0 := Started(cfg, live, archive, opens, first);
    ReachedStates(cfg, live, archive, opens, first, acts);
    AckIsLast(cfg, d);
    FlushedState(cfg, s0, d.received);
    assert d.s.fd == Run(cfg, s0, d.received).fd && d.s.buf == Run(cfg, s0, d.received).buf;
    if d.s.fd == NotOpen {
      WaitsInBuffer(cfg, live, archive, opens, first, d.received);
    }
  }

  // What a caller of flush wants: when the token is completed, the generations and the live
  // file hold the initial content and every line before the token. The exact condition: no
  // write failed, and the file is open or nothing had been logged.
  lemma {:induction false} AckExactly(cfg: Config, live: Option<Bytes>, archive: seq<Gen>, opens: bool, first: Env,
                                      acts: seq<Action>)
    requires Sorted(archive) && (HasAge(cfg) ==> opens)
    requires Legal(cfg, Begin(live, archive, opens, first), acts)
    requires var d := After(cfg, Begin(live, archive, opens, first), acts); d.todo != [] && d.todo[0].Ack?
    ensures var d := After(cfg, Begin(live, archive, opens, first), acts);
            OnDisk(d.s) == (if live.Some? then live.value else []) + Concat(LinesOf(d.received)) <==>
              d.s.lost == 0 && (d.s.fd == OnLive || Concat(LinesOf(d.received)) == [])
  {
    hide Begin, Legal, Concat, LinesOf, Started, Run, WellFormed, Exclusive, Descriptors, Fifo, ExitsLast;
    var d := After(cfg, Begin(live, archive, opens, first), acts);
    var s0 := Started(cfg, live, archive, opens, first);
    ReachedStates(cfg, live, archive, opens, first, acts);
    AckIsLast(cfg, d);
    AckEmptiesBuffer(cfg, live, archive, opens, first, acts);
    StartCarries(cfg, live, archive, opens, first);
    Conservation(cfg, s0, d.received);
    StoredOrNot(s0, d.s, Concat(LinesOf(d.received)));
  }

  // With bytes missing or bytes in the buffer, the files are shorter than what came in.
  lemma {:induction false} StoredOrNot(s: State, t: State, more: Bytes)
    requires Carries(s, t, more) && s.lost == 0
    ensures OnDisk(t) == Stored(s) + more <==> t.lost == 0 && t.buf == []
  {
    if t.buf == [] {
      assert Stored(t) == OnDisk(t);
    }
  }

  lemma {:induction false} SamePrefix(p: Bytes, x: Bytes, y: Bytes)
    ensures p + x == p + y ==> x == y
  {
    assert (p + x)[|p|..] == x && (p + y)[|p|..] == y;
  }

  lemma {:induction false} WaitsInBuffer(cfg: Config, live: Option<Bytes>, archive: seq<Gen>, opens: bool,
                                         first: Env, evs: seq<Event>)
    requires Sorted(archive) && (HasAge(cfg) ==> opens)
    requires Run(cfg, Started(cfg, live, archive, opens, first), evs).fd == NotOpen
    ensures Run(cfg, Started(cfg, live, archive, opens, first), evs).buf == Concat(LinesOf(evs))
  {
    var s0 := Started(cfg, live, archive, opens, first);
    NotOpenUntouched(cfg, s0, evs);
    Conservation(cfg, s0, evs);
    var t := Run(cfg, s0, evs);
    SamePrefix(OnDisk(s0), s0.buf + Concat(LinesOf(evs)), t.buf);
    Associates(OnDisk(s0), s0.buf, Concat(LinesOf(evs)));
    assert s0.buf + Concat(LinesOf(evs)) == Concat(LinesOf(evs));
  }

  // These actions lead from c to d.
  ghost predicate Leads(cfg: Config, c: Conc, acts: seq<Action>, d: Conc) {
    Legal(cfg, c, acts) && After(cfg, c, acts) == d
  }

  lemma {:induction false} Onward(cfg: Config, c: Conc, a: Action, rest: seq<Action>, d: Conc)
    requires Enabled(cfg, c, a) && Leads(cfg, Next(cfg, c, a), rest, d)
    ensures Leads(cfg, c, [a] + rest, d)
  {
    assert ([a] + rest)[1..] == rest;
  }

  lemma {:induction false} LeadsConcat(cfg: Config, c: Conc, x: seq<Action>, d: Conc, y: seq<Action>, e: Conc)
    requires Leads(cfg, c, x, d) && Leads(cfg, d, y, e)
    ensures Leads(cfg, c, x + y, e)
    decreases |x|
  {
    if x == [] {
      assert x + y == y;
    } else {
      LeadsConcat(cfg, Next(cfg, c, x[0]), x[1..], d, y, e);
      Onward(cfg, c, x[0], x[1..] + y, e);
      assert [x[0]] + (x[1..] + y) == x + y;
    }
  }

  lemma {:induction false} OneStep(cfg: Config, c: Conc, a: Action)
    requires Enabled(cfg, c, a)
    ensures Leads(cfg, c, [a], Next(cfg, c, a))
  {
    Onward(cfg, c, a, [], Next(cfg, c, a));
  }

  // A worker that finds no file to open, and then two messages.
  lemma {:induction false} OpeningFails(cfg: Config, line: Bytes, e: Env)
    requires cfg.rotation.None?
    ensures var ms := [LineMsg(line), Flushing(0)];
            Leads(cfg, Begin(None, [], false, e), [Work, Work, Send(ms[0]), Send(ms[1])],
                  Conc(Fresh(None, []), [], NoJob, ms, false, ms, []))
  {
    var c0, m0, m1 := Begin(None, [], false, e), LineMsg(line), Flushing(0);
    var c1 := c0.(todo := [Check(e)]);
    var c2 := c0.(todo := []);
    var c3 := c2.(queue := [m0], sent := [m0]);
    assert Next(cfg, c0, Work) == c1 && Next(cfg, c1, Work) == c2;
    assert Next(cfg, c2, Send(m0)) == c3 && Next(cfg, c3, Send(m1)) == c3.(queue := [m0, m1], sent := [m0, m1]);
    var d := c3.(queue := [m0, m1], sent := [m0, m1]);
    OneStep(cfg, c3, Send(m1));
    Onward(cfg, c2, Send(m0), [Send(m1)], d);
    Onward(cfg, c1, Work, [Send(m0), Send(m1)], d);
    Onward(cfg, c0, Work, [Work, Send(m0), Send(m1)], d);
  }

  lemma {:induction false} LineWaits(cfg: Config, c: Conc, line: Bytes, e: Env)
    requires c.todo == [] && c.queue != [] && c.queue[0] == LineMsg(line) && c.received == []
    requires c.s.buf == [] && |line| < cfg.flushSize
    ensures Leads(cfg, c, [Receive(Line(line, e, e)), Work, Work, Work],
                  c.(s := c.s.(buf := line), queue := c.queue[1..], received := [Line(line, e, e)]))
  {
    var ev := Line(line, e, e);
    var c1 := c.(todo := [Take(line, e, e)], queue := c.queue[1..], received := [ev]);
    var c2 := c1.(todo := [Store(line), Spill(e)]);
    var c3 := c1.(s := c.s.(buf := line), todo := [Spill(e)]);
    var d := c3.(todo := []);
    assert Next(cfg, c, Receive(ev)) == c1 && Next(cfg, c1, Work) == c2;
    assert [] + line == line;
    assert Next(cfg, c2, Work) == c3 && Next(cfg, c3, Work) == d;
    hide Leads;
    OneStep(cfg, c3, Work);
    Onward(cfg, c2, Work, [Work], d);
    Onward(cfg, c1, Work, [Work, Work], d);
    Onward(cfg, c, Receive(ev), [Work, Work, Work], d);
  }

  lemma {:induction false} FlushDoesNothing(cfg: Config, c: Conc, e: Env)
    requires c.todo == [] && c.queue != [] && c.queue[0] == Flushing(0) && !Exited(c)
    requires c.s.fd == NotOpen && cfg.rotation.None?
    ensures Leads(cfg, c, [Receive(FlushMsg(0, e)), Work],
                  c.(todo := [Ack(0)], queue := c.queue[1..], received := c.received + [FlushMsg(0, e)]))
  {
    var ev := FlushMsg(0, e);
    var c1 := c.(todo := [DoFlush(true, e), Ack(0)], queue := c.queue[1..], received := c.received + [ev]);
    var d := c1.(todo := [Ack(0)]);
    assert Next(cfg, c, Receive(ev)) == c1 && Next(cfg, c1, Work) == d;
    hide Leads;
    OneStep(cfg, c1, Work);
    Onward(cfg, c, Receive(ev), [Work], d);
  }

  // The failing case: the file cannot be opened, a line is logged and flushed. The token is
  // about to be completed, and the line is in no file.
  lemma {:induction false} AckCounterexample(cfg: Config, line: Bytes, e: Env)
    requires cfg.rotation.None? && line != [] && |line| < cfg.flushSize
    ensures var acts := [Work, Work, Send(LineMsg(line)), Send(Flushing(0))] +
                        [Receive(Line(line, e, e)), Work, Work, Work] + [Receive(FlushMsg(0, e)), Work];
            && Legal(cfg, Begin(None, [], false, e), acts)
            && var d := After(cfg, Begin(None, [], false, e), acts);
               d.todo == [Ack(0)] && d.s.buf == line && d.s.live.None? && d.s.rotated == []
  {
    var c0, ms := Begin(None, [], false, e), [LineMsg(line), Flushing(0)];
    var x := [Work, Work, Send(ms[0]), Send(ms[1])];
    var y, z := [Receive(Line(line, e, e)), Work, Work, Work], [Receive(FlushMsg(0, e)), Work];
    var c1 := Conc(Fresh(None, []), [], NoJob, ms, false, ms, []);
    var c2 := c1.(s := c1.s.(buf := line), queue := ms[1..], received := [Line(line, e, e)]);
    var c3 := c2.(todo := [Ack(0)], queue := ms[1..][1..], received := c2.received + [FlushMsg(0, e)]);
    OpeningFails(cfg, line, e);
    LineWaits(cfg, c1, line, e);
    FlushDoesNothing(cfg, c2, e);
    LeadsConcat(cfg, c0, x, c1, y, c2);
    LeadsConcat(cfg, c0, x + y, c2, z, c3);
    hide Begin, Legal, After;
  }

  // ... and one whose file is there to open.
  lemma {:induction false} OpeningWorks(cfg: Config, line: Bytes, e: Env)
    requires cfg.rotation.None?
    ensures var ms := [LineMsg(line), Flushing(0)];
            Leads(cfg, Begin(None, [], true, e), [Work, Work, Send(ms[0]), Send(ms[1])],
                  Conc(Sink.Reopen(Fresh(None, []), true), [], NoJob, ms, false, ms, []))
  {
    var c0, m0, m1 := Begin(None, [], true, e), LineMsg(line), Flushing(0);
    var c1 := c0.(s := Sink.Reopen(Fresh(None, []), true), todo := [Check(e)]);
    var c2 := c1.(todo := []);
    var c3 := c2.(queue := [m0], sent := [m0]);
    var d := c3.(queue := [m0, m1], sent := [m0, m1]);
    assert Next(cfg, c0, Work) == c1 && Next(cfg, c1, Work) == c2;
    assert Next(cfg, c2, Send(m0)) == c3 && Next(cfg, c3, Send(m1)) == d;
    OneStep(cfg, c3, Send(m1));
    Onward(cfg, c2, Send(m0), [Send(m1)], d);
    Onward(cfg, c1, Work, [Send(m0), Send(m1)], d);
    Onward(cfg, c0, Work, [Work, Send(m0), Send(m1)], d);
  }

  lemma {:induction false} FlushBegins(cfg: Config, c: Conc, e: Env)
    requires c.todo == [] && c.queue != [] && c.queue[0] == Flushing(0) && !Exited(c)
    requires c.s.fd == OnLive && cfg.rotation.None?
    ensures Leads(cfg, c, [Receive(FlushMsg(0, e)), Work],
                  c.(todo := [WriteBuf(e), Check(e), Ack(0)], queue := c.queue[1..],
                     received := c.received + [FlushMsg(0, e)]))
  {
    var ev := FlushMsg(0, e);
    var c1 := c.(todo := [DoFlush(true, e), Ack(0)], queue := c.queue[1..], received := c.received + [ev]);
    var d := c1.(todo := [WriteBuf(e), Check(e), Ack(0)]);
    assert Next(cfg, c, Receive(ev)) == c1 && Next(cfg, c1, Work) == d;
    OneStep(cfg, c1, Work);
    Onward(cfg, c, Receive(ev), [Work], d);
  }

  lemma {:induction false} FlushEnds(cfg: Config, c: Conc, e: Env)
    requires c.todo == [WriteBuf(e), Check(e), Ack(0)] && cfg.rotation.None?
    ensures Leads(cfg, c, [Work, Work], c.(s := WriteOut(c.s, e.dropped), todo := [Ack(0)]))
  {
    hide WriteOut;
    var c1 := c.(s := WriteOut(c.s, e.dropped), todo := [Check(e), Ack(0)]);
    var d := c1.(todo := [Ack(0)]);
    assert Next(cfg, c, Work) == c1 && Next(cfg, c1, Work) == d;
    OneStep(cfg, c1, Work);
    Onward(cfg, c, Work, [Work], d);
  }

  // The other failing case: the file is open, and the write of the flush reports an error.
  // The token is about to be completed, and the line is in the file in part, or not at all.
  lemma {:induction false} WriteErrorCounterexample(cfg: Config, line: Bytes, e: Env)
    requires cfg.rotation.None? && |line| < cfg.flushSize && 0 < e.dropped <= |line|
    ensures var acts := [Work, Work, Send(LineMsg(line)), Send(Flushing(0))] +
                        [Receive(Line(line, e, e)), Work, Work, Work] +
                        ([Receive(FlushMsg(0, e)), Work] + [Work, Work]);
            && Legal(cfg, Begin(None, [], true, e), acts)
            && var d := After(cfg, Begin(None, [], true, e), acts);
               && d.todo == [Ack(0)] && d.s.fd == OnLive && d.s.buf == []
               && d.s.live == Some(line[..|line| - e.dropped])
  {
    var c0, ms := Begin(None, [], true, e), [LineMsg(line), Flushing(0)];
    var x := [Work, Work, Send(ms[0]), Send(ms[1])];
    var y := [Receive(Line(line, e, e)), Work, Work, Work];
    var z := [Receive(FlushMsg(0, e)), Work];
    var c1 := Conc(Sink.Reopen(Fresh(None, []), true), [], NoJob, ms, false, ms, []);
    var c2 := c1.(s := c1.s.(buf := line), queue := ms[1..], received := [Line(line, e, e)]);
    var c3 := c2.(todo := [WriteBuf(e), Check(e), Ack(0)], queue := ms[1..][1..],
                  received := c2.received + [FlushMsg(0, e)]);
    var c4 := c3.(s := WriteOut(c2.s, e.dropped), todo := [Ack(0)]);
    OpeningWorks(cfg, line, e);
    LineWaits(cfg, c1, line, e);
    FlushBegins(cfg, c2, e);
    FlushEnds(cfg, c3, e);
    LeadsConcat(cfg, c0, x, c1, y, c2);
    LeadsConcat(cfg, c2, z, c3, [Work, Work], c4);
    LeadsConcat(cfg, c0, x + y, c2, z + [Work, Work], c4);
    assert [] + line[..|line| - e.dropped] == line[..|line| - e.dropped];
    hide Begin, Legal, After;
  }

  function SentLines(ms: seq<Msg>): seq<Bytes> {
    if ms == [] then []
    else SentLines(ms[..|ms| - 1]) + if ms[|ms| - 1].LineMsg? then [ms[|ms| - 1].line] else []
  }

  lemma {:induction false} LinesAreSent(evs: seq<Event>)
    ensures LinesOf(evs) == SentLines(Messages(evs))
  {
    if evs != [] {
      var init, ev := evs[..|evs| - 1], evs[|evs| - 1];
      LinesAreSent(init);
      if MsgOf(ev).Some? {
        var ms := Messages(init) + [MsgOf(ev).value];
        assert ms[..|ms| - 1] == Messages(init);
      } else {
        assert Messages(init) + [] == Messages(init);
      }
    }
  }

  // ------------------------------------------------------------------- progress

  // A sender waits only while 1024 messages are queued; the queue never holds more.
  lemma {:induction false} SendersWaitExactly(cfg: Config, c: Conc, m: Msg)
    requires Good(cfg, c)
    ensures |c.queue| <= 1024
    ensures Enabled(cfg, c, Send(m)) <==> !c.closed && |c.queue| < 1024
  {
  }

  // What the worker may receive with nothing in hand: the first message of the queue; on an
  // empty queue a timeout as long as there are senders, and then the end of the channel, once.
  lemma {:induction false} ReceivesExactly(cfg: Config, c: Conc, ev: Event)
    requires Good(cfg, c) && c.todo == []
    ensures c.queue != [] ==> (Enabled(cfg, c, Receive(ev)) <==> MsgOf(ev) == Some(c.queue[0]))
    ensures c.queue == [] && !c.closed ==> (Enabled(cfg, c, Receive(ev)) <==> ev.Timeout?)
    ensures c.queue == [] && c.closed ==>
              (Enabled(cfg, c, Receive(ev)) <==>
               ev.Disconnected? && !(c.received != [] && c.received[|c.received| - 1].Disconnected?))
  {
    hide Exclusive, WellFormed, Descriptors, Fifo;
  }

  // What the worker has in hand, as a number of steps it takes at most.
  function Weight(op: Op): (w: nat)
    ensures w > 0
  {
    match op
    case Take(_, _, _) => 21
    case Spill(_) => 10
    case DoFlush(_, _) => 9
    case Check(_) => 6
    case Rotate(stage, _) => if stage <= 4 then 5 - stage else 1
    case _ => 1
  }

  function TodoWeight(todo: seq<Op>): nat {
    if todo == [] then 0 else Weight(todo[0]) + TodoWeight(todo[1..])
  }

  lemma {:induction false} WeightConcat(x: seq<Op>, y: seq<Op>)
    ensures TodoWeight(x + y) == TodoWeight(x) + TodoWeight(y)
  {
    if x == [] {
      assert x + y == y;
    } else {
      assert (x + y)[1..] == x[1..] + y;
      WeightConcat(x[1..], y);
    }
  }

  lemma {:induction false} WeightOfOne(op: Op)
    ensures TodoWeight([op]) == Weight(op)
  {
    assert [op][1..] == [];
  }

  lemma {:induction false} StepIsLighter(cfg: Config, s: State, op: Op)
    ensures TodoWeight(Step(cfg, s, op).1) < Weight(op)
  {
    hide WriteOut, RenameLive, Sink.Reopen, Rotates, NoRoom, TodoWeight;
    assert TodoWeight([]) == 0 by {
      NothingWeighsNothing();
    }
    match op
    case Take(line, before, after) =>
      WeightConcat([DoFlush(false, before)], [Store(line), Spill(after)]);
      WeightConcat([Store(line)], [Spill(after)]);
      assert [Store(line), Spill(after)] == [Store(line)] + [Spill(after)];
      WeightOfOne(DoFlush(false, before));
      WeightOfOne(Store(line));
      WeightOfOne(Spill(after));
      assert [] + [Store(line), Spill(after)] == [Store(line), Spill(after)];
    case Spill(e) => WeightOfOne(DoFlush(false, e));
    case DoFlush(wait, e) =>
      var join := if wait && cfg.rotation.Some? then [Join] else [];
      WeightConcat([WriteBuf(e), Check(e)], join);
      WeightConcat([WriteBuf(e)], [Check(e)]);
      assert [WriteBuf(e), Check(e)] == [WriteBuf(e)] + [Check(e)];
      WeightOfOne(WriteBuf(e));
      WeightOfOne(Check(e));
      WeightOfOne(Join);
      assert [] + join == join;
    case Check(e) => WeightOfOne(Rotate(0, e));
    case Rotate(stage, e) => WeightOfOne(Rotate(stage + 1, e));
    case _ =>
  }

  lemma {:induction false} NothingWeighsNothing()
    ensures TodoWeight([]) == 0
  {
  }

  // Fewer messages queued, or less in hand, or less of the cleanup left.
  predicate Falls(c: Conc, d: Conc) {
    || |d.queue| < |c.queue|
    || (|d.queue| == |c.queue| && TodoWeight(d.todo) < TodoWeight(c.todo))
    || (|d.queue| == |c.queue| && d.todo == c.todo && JobMeasure(d.s.archive, d.job) < JobMeasure(c.s.archive, c.job))
  }

  predicate Advances(a: Action) {
    a.Work? || a.JobStep? || (a.Receive? && MsgOf(a.ev).Some?)
  }

  // Whatever order the threads run in, each of their steps brings the measure down.
  lemma {:induction false} EveryStepAdvances(cfg: Config, c: Conc, a: Action)
    requires Enabled(cfg, c, a) && Advances(a)
    ensures Falls(c, Next(cfg, c, a)) && Next(cfg, c, a).sent == c.sent
  {
    if a.Work? {
      var ops := Step(cfg, c.s, c.todo[0]).1;
      StepIsLighter(cfg, c.s, c.todo[0]);
      WeightConcat(ops, c.todo[1..]);
      hide Step, TodoWeight, WriteOut, RenameLive;
      HeadWeighs(c.todo);
    }
  }

  lemma {:induction false} HeadWeighs(todo: seq<Op>)
    requires todo != []
    ensures TodoWeight(todo) == Weight(todo[0]) + TodoWeight(todo[1..])
  {
  }

  predicate Done(c: Conc) {
    c.todo == [] && c.queue == [] && !c.job.Cutting? && !c.job.Zipping?
  }

  function EventFor(m: Msg): (ev: Event)
    ensures MsgOf(ev) == Some(m)
  {
    var e := Env(0, false, 0, 0);
    match m
    case LineMsg(line) => Line(line, e, e)
    case Reopening => ReopenMsg(true)
    case Flushing(token) => FlushMsg(token, e)
  }

  // No deadlock: as long as anything is left to do, one of the threads can go on. The join
  // waits only for a cleanup that can itself go on.
  function WhoGoesOn(c: Conc): Action {
    if c.job.Cutting? || c.job.Zipping? then JobStep
    else if c.todo != [] then Work
    else if c.queue != [] then Receive(EventFor(c.queue[0]))
    else Close
  }

  lemma {:induction false} NeverStuck(cfg: Config, c: Conc)
    requires Good(cfg, c) && !Done(c)
    ensures Enabled(cfg, c, WhoGoesOn(c)) && Advances(WhoGoesOn(c))
  {
    hide Exclusive, WellFormed, Descriptors, Fifo;
  }

  ghost predicate Drains(cfg: Config, c: Conc, acts: seq<Action>) {
    && Legal(cfg, c, acts)
    && var d := After(cfg, c, acts);
       Done(d) && d.sent == c.sent && Messages(d.received) == c.sent
  }

  lemma {:induction false} CanDrain(cfg: Config, c: Conc)
    requires Good(cfg, c)
    ensures exists acts :: Drains(cfg, c, acts)
    decreases |c.queue|, TodoWeight(c.todo), JobMeasure(c.s.archive, c.job)
  {
    hide TodoWeight, JobMeasure, Messages;
    if Done(c) {
      assert Messages(c.received) + [] == Messages(c.received);
      assert Drains(cfg, c, []);
    } else {
      var a := WhoGoesOn(c);
      NeverStuck(cfg, c);
      EveryStepAdvances(cfg, c, a);
      NextKeepsGood(cfg, c, a);
      var d := Next(cfg, c, a);
      hide Next, Good, WhoGoesOn, Enabled;
      CanDrain(cfg, d);
      var acts :| Drains(cfg, d, acts);
      Onward(cfg, c, a, acts, After(cfg, d, acts));
      assert Drains(cfg, c, [a] + acts);
    }
  }

  // From every reachable state the threads can reach one in which all messages sent, flush
  // tokens included, have been received and dealt with to the end.
  lemma {:induction false} CanAlwaysDrain(cfg: Config, live: Option<Bytes>, archive: seq<Gen>, opens: bool,
                                               first: Env, acts: seq<Action>)
    requires Sorted(archive) && (HasAge(cfg) ==> opens)
    requires Legal(cfg, Begin(live, archive, opens, first), acts)
    ensures exists more :: Drains(cfg, After(cfg, Begin(live, archive, opens, first), acts), more)
  {
    ReachedStates(cfg, live, archive, opens, first, acts);
    CanDrain(cfg, After(cfg, Begin(live, archive, opens, first), acts));
  }

  // Message n of those sent has been received and dealt with to the end: a token is completed.
  predicate Handled(c: Conc, n: nat) {
    var received := |Messages(c.received)|;
    received > n + 1 || (received == n + 1 && c.todo == [])
  }

  function ToReceive(c: Conc, n: nat): nat {
    var received := |Messages(c.received)|;
    if received <= n then n + 1 - received else 0
  }

  function Room(c: Conc): nat {
    if |c.queue| <= CAPACITY then CAPACITY - |c.queue| else 0
  }

  // Fewer messages to receive up to this one, or less in hand, or less of the cleanup left,
  // or less room in the queue, or the senders gone.
  predicate Nearer(c: Conc, d: Conc, n: nat) {
    || ToReceive(d, n) < ToReceive(c, n)
    || (ToReceive(d, n) == ToReceive(c, n) && TodoWeight(d.todo) < TodoWeight(c.todo))
    || (ToReceive(d, n) == ToReceive(c, n) && d.todo == c.todo
        && (JobMeasure(d.s.archive, d.job) < JobMeasure(c.s.archive, c.job)
            || (d.job == c.job && d.s.archive == c.s.archive
                && (Room(d) < Room(c) || (Room(d) == Room(c) && d.closed && !c.closed)))))
  }

  // Until a message is handled every step of every thread, the senders included, brings it
  // nearer: they fill up the queue, and with messages queued the worker times out no more.
  lemma {:induction false} EveryStepIsNearer(cfg: Config, c: Conc, a: Action, n: nat)
    requires Good(cfg, c) && Enabled(cfg, c, a) && n < |c.sent| && !Handled(c, n)
    ensures Nearer(c, Next(cfg, c, a), n) && n < |Next(cfg, c, a).sent|
  {
    hide Messages, TodoWeight, JobMeasure, Exclusive, WellFormed, Descriptors;
    match a
    case Send(_) =>
    case Close =>
    case Receive(ev) => MessagesSnoc(c.received, ev);
    case Work => EveryStepAdvances(cfg, c, a);
    case JobStep => EveryStepAdvances(cfg, c, a);
  }

  // A schedule: at every moment some step that is possible is taken.
  predicate Scheduled(cfg: Config, f: nat -> Conc, a: nat -> Action, j: nat) {
    Enabled(cfg, f(j), a(j)) && f(j + 1) == Next(cfg, f(j), a(j))
  }

  lemma {:induction false} WillBeHandled(cfg: Config, f: nat -> Conc, a: nat -> Action, n: nat, i: nat)
    requires forall j: nat :: Scheduled(cfg, f, a, j)
    requires Good(cfg, f(i)) && n < |f(i).sent|
    ensures exists j: nat :: i <= j && Handled(f(j), n)
    decreases ToReceive(f(i), n), TodoWeight(f(i).todo), JobMeasure(f(i).s.archive, f(i).job), Room(f(i)), !f(i).closed
  {
    hide Good, Enabled, Next, Handled, ToReceive, TodoWeight, JobMeasure, Room;
    if !Handled(f(i), n) {
      assert Scheduled(cfg, f, a, i);
      EveryStepIsNearer(cfg, f(i), a(i), n);
      NextKeepsGood(cfg, f(i), a(i));
      WillBeHandled(cfg, f, a, n, i + 1);
    }
  }

  // Every flush returns: in every endless schedule, however unfair to the worker, every
  // message that is sent, flush tokens included, is received and dealt with to the end. A
  // schedule that ends has drained the queue: NeverStuck.
  lemma {:induction false} EveryTokenCompletes(cfg: Config, live: Option<Bytes>, archive: seq<Gen>, opens: bool,
                                               first: Env, f: nat -> Conc, a: nat -> Action, n: nat, i: nat)
    requires Sorted(archive) && (HasAge(cfg) ==> opens)
    requires f(0) == Begin(live, archive, opens, first)
    requires (forall j: nat :: Scheduled(cfg, f, a, j)) && n < |f(i).sent|
    ensures exists j: nat :: i <= j && Handled(f(j), n)
  {
    BeginIsGood(cfg, live, archive, opens, first);
    ScheduleIsGood(cfg, f, a, i);
    WillBeHandled(cfg, f, a, n, i);
  }

  lemma {:induction false} ScheduleIsGood(cfg: Config, f: nat -> Conc, a: nat -> Action, i: nat)
    requires (forall j: nat :: Scheduled(cfg, f, a, j)) && Good(cfg, f(0))
    ensures Good(cfg, f(i))
  {
    hide Good, Enabled, Next;
    if i > 0 {
      ScheduleIsGood(cfg, f, a, i - 1);
      assert Scheduled(cfg, f, a, i - 1);
      NextKeepsGood(cfg, f(i - 1), a(i - 1));
    }
  }

  // End to end, for every configuration and from any archive: whatever the interleaving of
  // producers, worker and cleanup thread, once the queue is empty and the threads are at
  // rest, the archive is the tidied newest part of all generations, and - exactly if no
  // write failed - all generations ever made, the live file and the buffer together are
  // the initial content followed by every line sent, in the order of the queue.
  lemma {:induction false} EndToEnd(cfg: Config, live: Option<Bytes>, archive: seq<Gen>, opens: bool, first: Env,
                                    acts: seq<Action>)
    requires Sorted(archive) && (HasAge(cfg) ==> opens)
    requires Legal(cfg, Begin(live, archive, opens, first), acts)
    requires Done(After(cfg, Begin(live, archive, opens, first), acts))
    ensures var d := After(cfg, Begin(live, archive, opens, first), acts);
            && ArchiveIsExplained(cfg, archive, d.s)
            && (d.s.lost == 0 <==>
                  Concat(Datas(d.s.rotated)) + LiveBytes(d.s) + d.s.buf ==
                  (if live.Some? then live.value else []) + Concat(SentLines(d.sent)))
  {
    hide Begin, Legal, Run, Started, Messages, Concat, Datas, SentLines, LinesOf, ArchiveIsExplained, Sorted;
    var d := After(cfg, Begin(live, archive, opens, first), acts);
    AtRest(cfg, live, archive, opens, first, acts);
    WholeRun(cfg, live, archive, opens, first, d.received);
    LinesAreSent(d.received);
    assert d.sent == Messages(d.received) + [] == Messages(d.received);
  }

  // ... and in numbered form from an empty archive, file by file.
  lemma {:induction false} EndToEndNumbered(cfg: Config, live: Option<Bytes>, opens: bool, first: Env,
                                            acts: seq<Action>)
    requires HasAge(cfg) ==> opens
    requires cfg.rotation.Some? && cfg.rotation.value.policy.scheme == Numbered
    requires !cfg.rotation.value.policy.limit.MaxAge?
    requires Legal(cfg, Begin(live, [], opens, first), acts)
    requires var d := After(cfg, Begin(live, [], opens, first), acts);
             Done(d) && RunFits(cfg.rotation.value.policy, 0, |d.s.rotated|)
    ensures var d, p := After(cfg, Begin(live, [], opens, first), acts), cfg.rotation.value.policy;
            && |d.s.archive| == Keep(p.limit, |d.s.rotated|)
            && (forall i :: 0 <= i < |d.s.archive| ==>
                  d.s.archive[i] ==
                  Gen(i + 1, p.exclude.Some? && i + 1 > p.exclude.value, d.s.rotated[|d.s.rotated| - 1 - i].data))
            && (d.s.lost == 0 <==>
                  Concat(Datas(d.s.rotated)) + LiveBytes(d.s) + d.s.buf ==
                  (if live.Some? then live.value else []) + Concat(SentLines(d.sent)))
  {
    hide Begin, Legal, Run, Started, Messages, Concat, Datas, NewestFirst, Keep, RunFits, SentLines, LinesOf;
    var d := After(cfg, Begin(live, [], opens, first), acts);
    AtRest(cfg, live, [], opens, first, acts);
    WholeRunNumbered(cfg, live, opens, first, d.received);
    LinesAreSent(d.received);
    assert d.sent == Messages(d.received) + [] == Messages(d.received);
  }
}
