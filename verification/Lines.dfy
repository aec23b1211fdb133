// Whole lines: where every line went, and what that says about batches and sizes.
module Lines {
  import opened Common
  import opened Archive
  import opened Sink

  // The same history with line boundaries: the lines of each generation, of the live
  // file, of the buffer, and of each batch that a flush wrote. An empty line leaves no
  // trace in a file and is not listed.
  datatype Ledger = Ledger(gens: seq<seq<Bytes>>, live: seq<Bytes>, buf: seq<Bytes>, batches: seq<seq<Bytes>>)

  function Listed(line: Bytes): seq<Bytes> {
    if line == [] then [] else [line]
  }

  // ----------------------------------------------- the ledger beside the state

  function FlushLines(cfg: Config, s: State, l: Ledger, e: Env): Ledger {
    if s.fd != OnLive then l
    else
      var l1 := Ledger(l.gens, l.live + l.buf, [], l.batches + if l.buf == [] then [] else [l.buf]);
      RotateLines(cfg, WriteOut(s, e.dropped), l1, e)
  }

  function RotateLines(cfg: Config, s: State, l: Ledger, e: Env): Ledger {
    if Rotates(cfg, s, e) then l.(gens := l.gens + [l.live], live := []) else l
  }

  function FlushLinesIf(cfg: Config, s: State, l: Ledger, cond: bool, e: Env): Ledger {
    if cond then FlushLines(cfg, s, l, e) else l
  }

  function WriteLines(cfg: Config, s: State, l: Ledger, line: Bytes, before: Env, after: Env): Ledger {
    var s1 := FlushIf(cfg, s, NoRoom(cfg, s, line), before);
    var l1 := FlushLinesIf(cfg, s, l, NoRoom(cfg, s, line), before);
    var s2 := s1.(buf := s1.buf + line);
    FlushLinesIf(cfg, s2, l1.(buf := l1.buf + Listed(line)), |s2.buf| >= cfg.flushSize, after)
  }

  function ProcessLines(cfg: Config, s: State, l: Ledger, ev: Event): Ledger {
    match ev
    case Line(line, before, after) => WriteLines(cfg, s, l, line, before, after)
    case ReopenMsg(ok) => l
    case FlushMsg(_, e) => FlushLines(cfg, s, l, e)
    case Timeout(e) => FlushLines(cfg, s, l, e)
    case Disconnected(e) => FlushLines(cfg, s, l, e)
  }

  function RunLines(cfg: Config, s: State, l: Ledger, evs: seq<Event>): Ledger {
    if evs == [] then l
    else
      var init := evs[..|evs| - 1];
      ProcessLines(cfg, Run(cfg, s, init), RunLines(cfg, s, l, init), evs[|evs| - 1])
  }

  // The ledger is right: its lines, put together, are the bytes of the state.
  ghost predicate Matches(s: State, l: Ledger) {
    && s.buf == Concat(l.buf) && LiveBytes(s) == Concat(l.live)
    && |l.gens| == |s.rotated|
    && (forall i :: 0 <= i < |l.gens| ==> Concat(l.gens[i]) == s.rotated[i].data)
  }

  // All lines, in the order of the files.
  function AllLines(l: Ledger): seq<Bytes> {
    Concat(l.gens) + l.live + l.buf
  }

  function Arrived(evs: seq<Event>): seq<Bytes> {
    if evs == [] then []
    else
      var ev := evs[|evs| - 1];
      Arrived(evs[..|evs| - 1]) + if ev.Line? then Listed(ev.line) else []
  }

  // A batch that outgrows the flush size is a single oversized line.
  predicate Whole(cfg: Config, batch: seq<Bytes>) {
    |Concat(batch)| <= cfg.flushSize || |batch| == 1
  }

  predicate AllWhole(cfg: Config, batches: seq<seq<Bytes>>) {
    forall i :: 0 <= i < |batches| ==> Whole(cfg, batches[i])
  }

  // The lines written since the ledger began are the batches, one after the other.
  ghost predicate MadeOfBatches(l: Ledger, base: seq<Bytes>) {
    Concat(l.gens) + l.live == base + Concat(l.batches)
  }

  lemma {:induction false} RotateMatches(cfg: Config, s: State, l: Ledger, e: Env)
    requires Inv(cfg, s) && Matches(s, l)
    ensures Matches(CheckRotate(cfg, s, e), RotateLines(cfg, s, l, e))
    ensures CheckRotate(cfg, s, e).lost == s.lost
  {
  }

  lemma {:induction false} WriteOutMatches(cfg: Config, s: State, l: Ledger)
    requires Inv(cfg, s) && s.fd == OnLive && Matches(s, l)
    ensures Inv(cfg, WriteOut(s, 0)) && WriteOut(s, 0).lost == s.lost
    ensures forall batches :: Matches(WriteOut(s, 0), Ledger(l.gens, l.live + l.buf, [], batches))
  {
    ConcatAppend(l.live, l.buf);
  }

  lemma {:induction false} FlushMatches(cfg: Config, s: State, l: Ledger, wait: bool, e: Env)
    requires Inv(cfg, s) && Matches(s, l) && e.dropped == 0
    ensures Matches(Flush(cfg, s, wait, e), FlushLines(cfg, s, l, e))
    ensures Flush(cfg, s, wait, e).lost == s.lost
  {
    if s.fd == OnLive {
      WriteOutMatches(cfg, s, l);
      var batches := l.batches + if l.buf == [] then [] else [l.buf];
      var l1 := Ledger(l.gens, l.live + l.buf, [], batches);
      assert Matches(WriteOut(s, 0), l1);
      RotateMatches(cfg, WriteOut(s, 0), l1, e);
      hide RotateLines, CheckRotate, WriteOut, Concat, Inv;
      assert Matches(CheckRotate(cfg, WriteOut(s, 0), e), RotateLines(cfg, WriteOut(s, 0), l1, e));
    }
  }

  lemma {:induction false} FlushKeepsLines(cfg: Config, s: State, l: Ledger, e: Env)
    requires Inv(cfg, s)
    ensures AllLines(FlushLines(cfg, s, l, e)) == AllLines(l)
  {
    if s.fd == OnLive {
      ConcatSnoc(l.gens, l.live + l.buf);
    }
  }

  lemma {:induction false} FlushAddsABatch(cfg: Config, s: State, l: Ledger, e: Env, base: seq<Bytes>)
    requires Inv(cfg, s) && MadeOfBatches(l, base)
    ensures MadeOfBatches(FlushLines(cfg, s, l, e), base)
  {
    if s.fd == OnLive {
      var k := FlushLines(cfg, s, l, e);
      Associates(Concat(l.gens), l.live, l.buf);
      Associates(base, Concat(l.batches), l.buf);
      assert Concat(k.gens) + k.live == Concat(l.gens) + (l.live + l.buf) by {
        ConcatSnoc(l.gens, l.live + l.buf);
        assert Concat(l.gens) + (l.live + l.buf) + [] == Concat(l.gens) + (l.live + l.buf);
      }
      assert Concat(k.batches) == Concat(l.batches) + l.buf by {
        ConcatSnoc(l.batches, l.buf);
        assert l.batches + [] == l.batches && Concat(l.batches) + [] == Concat(l.batches);
      }
    }
  }

  lemma {:induction false} StoreMatches(s: State, l: Ledger, line: Bytes)
    requires Matches(s, l)
    ensures Matches(s.(buf := s.buf + line), l.(buf := l.buf + Listed(line)))
  {
    if line == [] {
      assert s.buf + line == s.buf && l.buf + Listed(line) == l.buf;
    } else {
      ConcatSnoc(l.buf, line);
    }
  }

  lemma {:induction false} WriteMatches(cfg: Config, s: State, l: Ledger, line: Bytes, before: Env, after: Env,
                                        base: seq<Bytes>)
    requires Inv(cfg, s) && Matches(s, l) && before.dropped == 0 && after.dropped == 0 && MadeOfBatches(l, base)
    ensures var t, k := Write(cfg, s, line, before, after), WriteLines(cfg, s, l, line, before, after);
            Matches(t, k) && AllLines(k) == AllLines(l) + Listed(line) && t.lost == s.lost && MadeOfBatches(k, base)
  {
    hide Matches, Inv, NoRoom, Flush, FlushLines, MadeOfBatches;
    var s1 := FlushIf(cfg, s, NoRoom(cfg, s, line), before);
    var l1 := FlushLinesIf(cfg, s, l, NoRoom(cfg, s, line), before);
    FlushMatches(cfg, s, l, false, before);
    FlushKeepsLines(cfg, s, l, before);
    FlushAddsABatch(cfg, s, l, before, base);
    var s2, l2 := s1.(buf := s1.buf + line), l1.(buf := l1.buf + Listed(line));
    StoreMatches(s1, l1, line);
    InvIgnoresBuffer(cfg, s1, s2.buf);
    BatchesIgnoreBuffer(l1, base, l2.buf);
    assert AllLines(l2) == AllLines(l1) + Listed(line);
    FlushMatches(cfg, s2, l2, false, after);
    FlushKeepsLines(cfg, s2, l2, after);
    FlushAddsABatch(cfg, s2, l2, after, base);
  }

  lemma {:induction false} BatchesIgnoreBuffer(l: Ledger, base: seq<Bytes>, buf: seq<Bytes>)
    requires MadeOfBatches(l, base)
    ensures MadeOfBatches(l.(buf := buf), base)
  {
  }

  // As long as no write fails, no line is split or lost, whatever the mix of messages:
  // generations, live file and buffer are concatenations of whole lines, in the order of
  // arrival.
  lemma {:induction false} LinesStayWhole(cfg: Config, s: State, l: Ledger, evs: seq<Event>, base: seq<Bytes>)
    requires Inv(cfg, s) && Matches(s, l) && AllClean(evs) && MadeOfBatches(l, base)
    ensures var t, k := Run(cfg, s, evs), RunLines(cfg, s, l, evs);
            Matches(t, k) && AllLines(k) == AllLines(l) + Arrived(evs) && t.lost == s.lost && MadeOfBatches(k, base)
  {
    if evs == [] {
      assert AllLines(l) + [] == AllLines(l);
    } else {
      var init, ev := evs[..|evs| - 1], evs[|evs| - 1];
      var more := if ev.Line? then Listed(ev.line) else [];
      assert Clean(ev) && AllClean(init);
      assert init + [ev] == evs;
      RunSnoc(cfg, s, init, ev);
      RunLinesSnoc(cfg, s, l, init, ev);
      ArrivedSnoc(evs);
      hide Matches, Inv, MadeOfBatches, AllLines, Process, ProcessLines, Run, RunLines, Clean, AllClean, Arrived,
          Listed;
      LinesStayWhole(cfg, s, l, init, base);
      ProcessMatches(cfg, Run(cfg, s, init), RunLines(cfg, s, l, init), ev, base);
      Associates(AllLines(l), Arrived(init), more);
    }
  }

  lemma {:induction false} ArrivedSnoc(evs: seq<Event>)
    requires evs != []
    ensures var ev := evs[|evs| - 1];
            Arrived(evs) == Arrived(evs[..|evs| - 1]) + if ev.Line? then Listed(ev.line) else []
  {
  }

  lemma {:induction false} RunLinesSnoc(cfg: Config, s: State, l: Ledger, init: seq<Event>, ev: Event)
    ensures RunLines(cfg, s, l, init + [ev]) == ProcessLines(cfg, Run(cfg, s, init), RunLines(cfg, s, l, init), ev)
  {
    assert (init + [ev])[..|init|] == init;
  }

  lemma {:induction false} ProcessMatches(cfg: Config, s: State, l: Ledger, ev: Event, base: seq<Bytes>)
    requires Inv(cfg, s) && Matches(s, l) && Clean(ev) && MadeOfBatches(l, base)
    ensures var t, k := Process(cfg, s, ev), ProcessLines(cfg, s, l, ev);
            && Matches(t, k) && AllLines(k) == AllLines(l) + (if ev.Line? then Listed(ev.line) else [])
            && t.lost == s.lost && MadeOfBatches(k, base)
  {
    assert AllLines(l) + [] == AllLines(l);
    if ev.Line? {
      WriteMatches(cfg, s, l, ev.line, ev.before, ev.after, base);
    } else if !ev.ReopenMsg? {
      FlushMatches(cfg, s, l, ev.FlushMsg? || ev.Disconnected?, ev.env);
      FlushKeepsLines(cfg, s, l, ev.env);
      FlushAddsABatch(cfg, s, l, ev.env, base);
    }
  }

  // -------------------------------------------------- batches, with the file open

  // Between messages the buffer is short; what a flush writes is a whole batch.
  predicate Batching(cfg: Config, s: State, l: Ledger) {
    Inv(cfg, s) && s.fd == OnLive && |s.buf| < cfg.flushSize && AllWhole(cfg, l.batches)
  }

  lemma {:induction false} FlushIsWhole(cfg: Config, s: State, l: Ledger, e: Env)
    requires Inv(cfg, s) && AllWhole(cfg, l.batches) && (l.buf != [] ==> Whole(cfg, l.buf))
    ensures AllWhole(cfg, FlushLines(cfg, s, l, e).batches)
  {
  }

  lemma {:induction false} NoBytesNoLines(lines: seq<Bytes>)
    requires Concat(lines) == [] && NoneEmpty(lines)
    ensures lines == []
  {
  }

  predicate NoneEmpty(lines: seq<Bytes>) {
    forall i :: 0 <= i < |lines| ==> lines[i] != []
  }

  lemma {:induction false} WriteIsWhole(cfg: Config, s: State, l: Ledger, line: Bytes, before: Env, after: Env)
    requires Batching(cfg, s, l) && Matches(s, l) && NoneEmpty(l.buf) && before.dropped == 0 && after.dropped == 0
    ensures Batching(cfg, Write(cfg, s, line, before, after), WriteLines(cfg, s, l, line, before, after))
    ensures NoneEmpty(WriteLines(cfg, s, l, line, before, after).buf)
  {
    var noRoom := NoRoom(cfg, s, line);
    var s1 := FlushIf(cfg, s, noRoom, before);
    var l1 := FlushLinesIf(cfg, s, l, noRoom, before);
    var s2, l2 := s1.(buf := s1.buf + line), l1.(buf := l1.buf + Listed(line));
    ShortIsWhole(cfg, s, l);
    FlushIsWhole(cfg, s, l, before);
    FlushMatches(cfg, s, l, false, before);
    FlushEmpties(cfg, s, l, before);
    StoreMatches(s1, l1, line);
    StoredIsWhole(cfg, s1, l1, line);
    InvIgnoresBuffer(cfg, s1, s2.buf);
    hide Matches, Inv, Flush, FlushLines, Whole, AllWhole, NoneEmpty;
    FlushIsWhole(cfg, s2, l2, after);
    FlushEmpties(cfg, s2, l2, after);
  }

  lemma {:induction false} FlushEmpties(cfg: Config, s: State, l: Ledger, e: Env)
    requires Inv(cfg, s) && NoneEmpty(l.buf)
    ensures NoneEmpty(FlushLines(cfg, s, l, e).buf)
  {
  }

  // After making room, storing a line leaves whole lines within the flush size, or just
  // that line.
  lemma {:induction false} StoredIsWhole(cfg: Config, s: State, l: Ledger, line: Bytes)
    requires Matches(s, l) && NoneEmpty(l.buf) && !NoRoom(cfg, s, line)
    ensures var k := l.(buf := l.buf + Listed(line));
            (k.buf != [] ==> Whole(cfg, k.buf)) && NoneEmpty(k.buf)
  {
    StoreMatches(s, l, line);
    if s.buf == [] {
      NoBytesNoLines(l.buf);
      assert l.buf + Listed(line) == Listed(line);
    }
  }

  lemma {:induction false} MessageIsWhole(cfg: Config, s: State, l: Ledger, ev: Event)
    requires Batching(cfg, s, l) && Matches(s, l) && NoneEmpty(l.buf) && Clean(ev)
    ensures Batching(cfg, Process(cfg, s, ev), ProcessLines(cfg, s, l, ev))
    ensures NoneEmpty(ProcessLines(cfg, s, l, ev).buf)
  {
    hide Matches, Whole, AllWhole, NoneEmpty, Write, WriteLines, CheckRotate, WriteOut, RotateLines;
    if ev.Line? {
      WriteIsWhole(cfg, s, l, ev.line, ev.before, ev.after);
    } else if !ev.ReopenMsg? {
      ShortIsWhole(cfg, s, l);
      FlushIsWhole(cfg, s, l, ev.env);
      FlushEmpties(cfg, s, l, ev.env);
    }
  }

  lemma {:induction false} BatchesAreWhole(cfg: Config, s: State, l: Ledger, evs: seq<Event>, base: seq<Bytes>)
    requires Batching(cfg, s, l) && Matches(s, l) && NoneEmpty(l.buf) && AllClean(evs) && MadeOfBatches(l, base)
    ensures Batching(cfg, Run(cfg, s, evs), RunLines(cfg, s, l, evs))
    ensures NoneEmpty(RunLines(cfg, s, l, evs).buf)
  {
    hide Batching, Matches, NoneEmpty, MadeOfBatches, AllLines, Run, RunLines, Process, ProcessLines, Clean;
    if evs == [] {
      NoLinesYet(cfg, s, l);
    } else {
      var init, ev := evs[..|evs| - 1], evs[|evs| - 1];
      BatchesAreWhole(cfg, s, l, init, base);
      BatchingIsValid(cfg, s, l);
      LinesStayWhole(cfg, s, l, init, base);
      MessageIsWhole(cfg, Run(cfg, s, init), RunLines(cfg, s, l, init), ev);
      assert init + [ev] == evs;
      RunSnoc(cfg, s, init, ev);
      RunLinesSnoc(cfg, s, l, init, ev);
    }
  }

  lemma {:induction false} NoLinesYet(cfg: Config, s: State, l: Ledger)
    ensures Run(cfg, s, []) == s && RunLines(cfg, s, l, []) == l
  {
  }

  lemma {:induction false} BatchingIsValid(cfg: Config, s: State, l: Ledger)
    requires Batching(cfg, s, l)
    ensures Inv(cfg, s)
  {
  }

  lemma {:induction false} ShortIsWhole(cfg: Config, s: State, l: Ledger)
    requires Batching(cfg, s, l) && Matches(s, l)
    ensures Whole(cfg, l.buf)
  {
  }

  // ------------------------------------------------------- batches are not too short

  // A batch reached the flush size, or had no room for the first line after it.
  predicate Filled(cfg: Config, batch: seq<Bytes>, following: seq<Bytes>) {
    |Concat(batch)| >= cfg.flushSize || (following != [] && |Concat(batch)| + |following[0]| > cfg.flushSize)
  }

  // What follows batch i: the next one, or the lines in the buffer.
  function Following(l: Ledger, i: nat): seq<Bytes>
    requires i < |l.batches|
  {
    if i + 1 < |l.batches| then l.batches[i + 1] else l.buf
  }

  predicate FilledFrom(cfg: Config, l: Ledger, from: nat) {
    forall i :: from <= i < |l.batches| ==> Filled(cfg, l.batches[i], Following(l, i))
  }

  // A buffer that begins as before, or after a batch that reached the flush size.
  lemma {:induction false} KeepsFilled(cfg: Config, l: Ledger, k: Ledger, from: nat)
    requires FilledFrom(cfg, l, from) && k.batches == l.batches
    requires l.buf != [] ==> k.buf != [] && k.buf[0] == l.buf[0]
    ensures FilledFrom(cfg, k, from)
  {
    hide Concat;
    forall i | from <= i < |k.batches|
      ensures Filled(cfg, k.batches[i], Following(k, i))
    {
      assert Filled(cfg, l.batches[i], Following(l, i));
    }
  }

  // The buffer becomes a batch.
  lemma {:induction false} BatchFills(cfg: Config, l: Ledger, k: Ledger, from: nat)
    requires FilledFrom(cfg, l, from) && k.batches == l.batches + [l.buf] && Filled(cfg, l.buf, k.buf)
    ensures FilledFrom(cfg, k, from)
  {
    hide Concat;
    forall i | from <= i < |k.batches|
      ensures Filled(cfg, k.batches[i], Following(k, i))
    {
      if i < |l.batches| {
        assert Filled(cfg, l.batches[i], Following(l, i));
      }
    }
  }

  lemma {:induction false} FlushedLedger(cfg: Config, s: State, l: Ledger, e: Env)
    requires s.fd == OnLive && l.buf != []
    ensures FlushLines(cfg, s, l, e).batches == l.batches + [l.buf] && FlushLines(cfg, s, l, e).buf == []
  {
  }

  lemma {:induction false} WriteFills(cfg: Config, s: State, l: Ledger, line: Bytes, before: Env, after: Env, from: nat)
    requires Batching(cfg, s, l) && Matches(s, l) && before.dropped == 0 && after.dropped == 0 &&
        FilledFrom(cfg, l, from)
    ensures FilledFrom(cfg, WriteLines(cfg, s, l, line, before, after), from)
  {
    hide Flush, FlushLines, Inv, Whole, AllWhole, FilledFrom;
    var noRoom := NoRoom(cfg, s, line);
    var s1 := FlushIf(cfg, s, noRoom, before);
    var l1 := FlushLinesIf(cfg, s, l, noRoom, before);
    var s2, l2 := s1.(buf := s1.buf + line), l1.(buf := l1.buf + Listed(line));
    FlushMatches(cfg, s, l, false, before);
    StoreMatches(s1, l1, line);
    if noRoom {
      assert l.buf != [];
      FlushedLedger(cfg, s, l, before);
      OneLine(line);
      BatchFills(cfg, l, l2, from);
    } else {
      KeepsFilled(cfg, l, l2, from);
    }
    if |s2.buf| >= cfg.flushSize {
      assert l2.buf != [] by {
        BufferHasLines(s2, l2);
      }
      FlushedLedger(cfg, s2, l2, after);
      BatchFills(cfg, l2, FlushLines(cfg, s2, l2, after), from);
    }
  }

  lemma {:induction false} OneLine(line: Bytes)
    requires line != []
    ensures [] + Listed(line) == [line]
  {
  }

  lemma {:induction false} BufferHasLines(s: State, l: Ledger)
    requires Matches(s, l) && s.buf != []
    ensures l.buf != []
  {
  }

  predicate OnlyLines(evs: seq<Event>) {
    forall i :: 0 <= i < |evs| ==> evs[i].Line?
  }

  // Nothing is flushed too early: over a run of lines with the file open, every batch
  // written reached the flush size, or had no room for the first line after it.
  lemma {:induction false} BatchesAreFilled(cfg: Config, s: State, l: Ledger, evs: seq<Event>, base: seq<Bytes>)
    requires Batching(cfg, s, l) && Matches(s, l) && NoneEmpty(l.buf) && MadeOfBatches(l, base)
    requires AllClean(evs) && OnlyLines(evs)
    ensures FilledFrom(cfg, RunLines(cfg, s, l, evs), |l.batches|)
  {
    hide Batching, Matches, NoneEmpty, MadeOfBatches, AllLines, Run, RunLines, Process, WriteLines, FilledFrom;
    if evs == [] {
      NoLinesYet(cfg, s, l);
      NothingToFill(cfg, l);
    } else {
      var init, ev := evs[..|evs| - 1], evs[|evs| - 1];
      assert Clean(ev) && ev.Line?;
      BatchesAreFilled(cfg, s, l, init, base);
      BatchesAreWhole(cfg, s, l, init, base);
      BatchingIsValid(cfg, s, l);
      LinesStayWhole(cfg, s, l, init, base);
      WriteFills(cfg, Run(cfg, s, init), RunLines(cfg, s, l, init), ev.line, ev.before, ev.after, |l.batches|);
      assert init + [ev] == evs;
      RunLinesSnoc(cfg, s, l, init, ev);
    }
  }

  lemma {:induction false} NothingToFill(cfg: Config, l: Ledger)
    ensures FilledFrom(cfg, l, |l.batches|)
  {
  }

  // --------------------------------------------------------- sizes, size limit only

  predicate SizeOnly(cfg: Config, limit: nat) {
    cfg.rotation.Some? && !cfg.rotation.value.hasAge && cfg.rotation.value.sizeLimit == Some(limit)
  }

  predicate Tight(cfg: Config, limit: nat, s: State) {
    && Inv(cfg, s) && s.fd == OnLive
    && s.size == |s.live.value| <= limit
  }

  function Max(a: nat, b: nat): nat {
    if a < b then b else a
  }

  // Every generation after the first `from` lies within the bounds.
  predicate GensBounded(cfg: Config, limit: nat, longest: nat, s: State, from: nat) {
    from <= |s.rotated| &&
    forall i :: from <= i < |s.rotated| ==>
      limit < |s.rotated[i].data| <= limit + Max(cfg.flushSize, longest)
  }

  lemma {:induction false} FlushIsTight(cfg: Config, limit: nat, longest: nat, s: State, wait: bool, e: Env, from: nat)
    requires SizeOnly(cfg, limit) && Tight(cfg, limit, s) && e.dropped == 0
    requires |s.buf| <= Max(cfg.flushSize, longest) && GensBounded(cfg, limit, longest, s, from)
    ensures Tight(cfg, limit, Flush(cfg, s, wait, e))
    ensures GensBounded(cfg, limit, longest, Flush(cfg, s, wait, e), from)
  {
  }

  lemma {:induction false} WriteIsTight(cfg: Config, limit: nat, longest: nat, s: State, line: Bytes, before: Env,
                                        after: Env, from: nat)
    requires SizeOnly(cfg, limit) && Tight(cfg, limit, s) && before.dropped == 0 && after.dropped == 0
    requires |s.buf| < cfg.flushSize && |line| <= longest && GensBounded(cfg, limit, longest, s, from)
    ensures var t := Write(cfg, s, line, before, after);
            Tight(cfg, limit, t) && |t.buf| < cfg.flushSize && GensBounded(cfg, limit, longest, t, from)
  {
    FlushIsTight(cfg, limit, longest, s, false, before, from);
    var s1 := FlushIf(cfg, s, NoRoom(cfg, s, line), before);
    var s2 := s1.(buf := s1.buf + line);
    hide Flush, GensBounded;
    assert GensBounded(cfg, limit, longest, s2, from) by {
      BoundsIgnoreBuffer(cfg, limit, longest, s1, from, s2.buf);
    }
    FlushIsTight(cfg, limit, longest, s2, false, after, from);
  }

  lemma {:induction false} BoundsIgnoreBuffer(cfg: Config, limit: nat, longest: nat, s: State, from: nat, buf: Bytes)
    requires GensBounded(cfg, limit, longest, s, from)
    ensures GensBounded(cfg, limit, longest, s.(buf := buf), from)
  {
  }

  // The size bound: with a size limit only, the file open and no write failing, every
  // generation the worker closes is larger than the limit by at most one flush or one line, the live
  // file is within the limit after each message, and the tracked size is its length.
  lemma {:induction false} GenerationsAreBounded(cfg: Config, limit: nat, longest: nat, s: State, evs: seq<Event>)
    requires SizeOnly(cfg, limit) && Tight(cfg, limit, s) && |s.buf| < cfg.flushSize
    requires AllClean(evs) && forall i :: 0 <= i < |evs| && evs[i].Line? ==> |evs[i].line| <= longest
    ensures var t := Run(cfg, s, evs);
            Tight(cfg, limit, t) && |t.buf| < cfg.flushSize && GensBounded(cfg, limit, longest, t, |s.rotated|)
  {
    if evs != [] {
      var init, ev := evs[..|evs| - 1], evs[|evs| - 1];
      GenerationsAreBounded(cfg, limit, longest, s, init);
      var t := Run(cfg, s, init);
      assert Clean(ev) && (ev.Line? ==> |ev.line| <= longest);
      if ev.Line? {
        WriteIsTight(cfg, limit, longest, t, ev.line, ev.before, ev.after, |s.rotated|);
      } else if !ev.ReopenMsg? {
        FlushIsTight(cfg, limit, longest, t, ev.FlushMsg? || ev.Disconnected?, ev.env, |s.rotated|);
      }
    }
  }

  // The worker is within these bounds from its start on.
  lemma {:induction false} StartsTight(cfg: Config, limit: nat, live: Option<Bytes>, archive: seq<Gen>, e: Env)
    requires SizeOnly(cfg, limit) && Sorted(archive)
    ensures Tight(cfg, limit, Started(cfg, live, archive, true, e))
  {
  }

  // With a size limit, alone or beside an age limit, the live file is within it after every
  // message.
  lemma {:induction false} FlushStaysWithin(cfg: Config, limit: nat, s: State, wait: bool, e: Env)
    requires cfg.rotation.Some? && cfg.rotation.value.sizeLimit == Some(limit)
    requires Inv(cfg, s) && s.fd == OnLive && s.size == |s.live.value| && e.dropped == 0
    ensures Tight(cfg, limit, Flush(cfg, s, wait, e))
  {
    hide Push, Cleaned, FreshSuffix, Sorted;
  }

  lemma {:induction false} MessageStaysWithin(cfg: Config, limit: nat, s: State, ev: Event)
    requires cfg.rotation.Some? && cfg.rotation.value.sizeLimit == Some(limit) && Tight(cfg, limit, s) && Clean(ev)
    ensures Tight(cfg, limit, Process(cfg, s, ev))
  {
    hide Flush, Inv;
    match ev
    case Line(line, before, after) =>
      FlushStaysWithin(cfg, limit, s, false, before);
      var s1 := FlushIf(cfg, s, NoRoom(cfg, s, line), before);
      InvIgnoresBuffer(cfg, s1, s1.buf + line);
      FlushStaysWithin(cfg, limit, s1.(buf := s1.buf + line), false, after);
    case ReopenMsg(_) => ReopenExactly(cfg, s, ev.ok);
    case FlushMsg(_, e) => FlushStaysWithin(cfg, limit, s, true, e);
    case Timeout(e) => FlushStaysWithin(cfg, limit, s, false, e);
    case Disconnected(e) => FlushStaysWithin(cfg, limit, s, true, e);
  }

  lemma {:induction false} LiveStaysWithin(cfg: Config, limit: nat, s: State, evs: seq<Event>)
    requires cfg.rotation.Some? && cfg.rotation.value.sizeLimit == Some(limit) && Tight(cfg, limit, s) && AllClean(evs)
    ensures Tight(cfg, limit, Run(cfg, s, evs))
  {
    hide Tight, Process, Clean;
    if evs != [] {
      var init, ev := evs[..|evs| - 1], evs[|evs| - 1];
      assert Clean(ev);
      LiveStaysWithin(cfg, limit, s, init);
      MessageStaysWithin(cfg, limit, Run(cfg, s, init), ev);
      assert init + [ev] == evs;
      RunSnoc(cfg, s, init, ev);
    }
  }

  lemma {:induction false} StartsWithin(cfg: Config, limit: nat, live: Option<Bytes>, archive: seq<Gen>, e: Env)
    requires cfg.rotation.Some? && cfg.rotation.value.sizeLimit == Some(limit) && Sorted(archive)
    ensures Tight(cfg, limit, Started(cfg, live, archive, true, e))
  {
    hide Push, Cleaned, FreshSuffix;
  }

  // ------------------------------------------------- a file that opens late

  // From any open state, whatever had piled up: every message but a request to reopen
  // leaves the buffer shorter than the flush size.
  lemma {:induction false} BufferIsShortAgain(cfg: Config, s: State, ev: Event)
    requires Inv(cfg, s) && s.fd == OnLive && 0 < cfg.flushSize && !ev.ReopenMsg?
    ensures |Process(cfg, s, ev).buf| < cfg.flushSize
  {
    hide WriteOut, CheckRotate;
  }

  // The bound on the first generation after the file was opened, when it held `found` bytes
  // and `piled` were waiting in the buffer.
  function FirstBound(cfg: Config, limit: nat, longest: nat, found: nat, piled: nat): nat {
    Max(limit, found) + Max(piled, Max(cfg.flushSize, longest))
  }

  predicate LateBounded(cfg: Config, limit: nat, longest: nat, first: nat, from: nat, s: State) {
    from <= |s.rotated| &&
    forall i :: from <= i < |s.rotated| ==>
      limit < |s.rotated[i].data| <= if i == from then first else limit + Max(cfg.flushSize, longest)
  }

  // Nothing was written yet since the file was opened.
  predicate Untouched(s: State, t: State, cfg: Config) {
    && t.fd == OnLive && t.live == s.live && t.size == s.size && t.rotated == s.rotated && t.archive == s.archive
    && (t.buf == s.buf || |t.buf| < cfg.flushSize)
  }

  lemma {:induction false} FirstFlush(cfg: Config, limit: nat, longest: nat, s: State, wait: bool, e: Env)
    requires SizeOnly(cfg, limit) && Inv(cfg, s) && s.fd == OnLive && s.size == |LiveBytes(s)| && e.dropped == 0
    ensures var t := Flush(cfg, s, wait, e);
            Tight(cfg, limit, t) && t.buf == []
            && LateBounded(cfg, limit, longest, |LiveBytes(s)| + |s.buf|, |s.rotated|, t)
  {
    hide Push, Cleaned, FreshSuffix, Sorted;
  }

  lemma {:induction false} LaterBounds(cfg: Config, limit: nat, longest: nat, first: nat, from: nat, s: State, t: State)
    requires LateBounded(cfg, limit, longest, first, from, s) && s.rotated <= t.rotated
    requires GensBounded(cfg, limit, longest, t, |s.rotated|) && limit + Max(cfg.flushSize, longest) <= first
    ensures LateBounded(cfg, limit, longest, first, from, t)
  {
    assert forall i :: 0 <= i < |s.rotated| ==> t.rotated[i] == s.rotated[i];
  }

  lemma {:induction false} LooserBound(cfg: Config, limit: nat, longest: nat, first: nat, more: nat, from: nat,
                                       s: State)
    requires LateBounded(cfg, limit, longest, first, from, s) && first <= more
    ensures LateBounded(cfg, limit, longest, more, from, s)
  {
  }

  lemma {:induction false} FlushExtends(cfg: Config, s: State, wait: bool, e: Env)
    ensures s.rotated <= Flush(cfg, s, wait, e).rotated
  {
    hide Push, Cleaned, FreshSuffix, Sorted;
  }

  lemma {:induction false} MessageExtends(cfg: Config, s: State, ev: Event)
    ensures s.rotated <= Process(cfg, s, ev).rotated
  {
    hide Flush;
    match ev
    case Line(line, before, after) =>
      FlushExtends(cfg, s, false, before);
      var s1 := FlushIf(cfg, s, NoRoom(cfg, s, line), before);
      FlushExtends(cfg, s1.(buf := s1.buf + line), false, after);
    case ReopenMsg(_) =>
    case FlushMsg(_, e) => FlushExtends(cfg, s, true, e);
    case Timeout(e) => FlushExtends(cfg, s, false, e);
    case Disconnected(e) => FlushExtends(cfg, s, true, e);
  }

  // A line on an untouched file either only joins the buffer or brings the first flush.
  lemma {:induction false} FirstWrite(cfg: Config, limit: nat, longest: nat, s: State, line: Bytes, before: Env,
                                      after: Env)
    requires SizeOnly(cfg, limit) && Inv(cfg, s) && s.fd == OnLive && s.size == |LiveBytes(s)|
    requires before.dropped == 0 && after.dropped == 0 && |line| <= longest && 0 < cfg.flushSize
    ensures var t := Write(cfg, s, line, before, after);
            || (Untouched(s, t, cfg) && |t.buf| < cfg.flushSize)
            || (Tight(cfg, limit, t) && |t.buf| < cfg.flushSize
                && LateBounded(cfg, limit, longest, FirstBound(cfg, limit, longest, |LiveBytes(s)|, |s.buf|),
                    |s.rotated|, t))
  {
    hide Flush, Inv, Tight, LateBounded, GensBounded, Max;
    var room := NoRoom(cfg, s, line);
    if room {
      FirstFlushThenStore(cfg, limit, longest, s, line, before, after);
    } else {
      StoreThenFirstFlush(cfg, limit, longest, s, line, before, after);
    }
  }

  lemma {:induction false} FirstFlushThenStore(cfg: Config, limit: nat, longest: nat, s: State, line: Bytes,
                                               before: Env, after: Env)
    requires SizeOnly(cfg, limit) && Inv(cfg, s) && s.fd == OnLive && s.size == |LiveBytes(s)|
    requires before.dropped == 0 && after.dropped == 0 && |line| <= longest && 0 < cfg.flushSize
    requires NoRoom(cfg, s, line)
    ensures var t := Write(cfg, s, line, before, after);
            Tight(cfg, limit, t) && |t.buf| < cfg.flushSize
            && LateBounded(cfg, limit, longest, FirstBound(cfg, limit, longest, |LiveBytes(s)|, |s.buf|),
                |s.rotated|, t)
  {
    hide Flush, Inv;
    var s1 := Flush(cfg, s, false, before);
    var s2 := s1.(buf := s1.buf + line);
    FirstFlush(cfg, limit, longest, s, false, before);
    InvIgnoresBuffer(cfg, s1, s2.buf);
    FlushIsTight(cfg, limit, longest, s2, false, after, |s2.rotated|);
    FlushExtends(cfg, s2, false, after);
    var t := Write(cfg, s, line, before, after);
    LooserBound(cfg, limit, longest, |LiveBytes(s)| + |s.buf|, FirstBound(cfg, limit, longest, |LiveBytes(s)|, |s.buf|),
                |s.rotated|, s1);
    if |s2.buf| >= cfg.flushSize {
      LaterBounds(cfg, limit, longest, FirstBound(cfg, limit, longest, |LiveBytes(s)|, |s.buf|), |s.rotated|, s2, t);
    }
  }

  lemma {:induction false} StoreThenFirstFlush(cfg: Config, limit: nat, longest: nat, s: State, line: Bytes,
                                               before: Env, after: Env)
    requires SizeOnly(cfg, limit) && Inv(cfg, s) && s.fd == OnLive && s.size == |LiveBytes(s)|
    requires before.dropped == 0 && after.dropped == 0 && |line| <= longest && 0 < cfg.flushSize
    requires !NoRoom(cfg, s, line)
    ensures var t := Write(cfg, s, line, before, after);
            || (Untouched(s, t, cfg) && |t.buf| < cfg.flushSize)
            || (Tight(cfg, limit, t) && |t.buf| < cfg.flushSize
                && LateBounded(cfg, limit, longest, FirstBound(cfg, limit, longest, |LiveBytes(s)|, |s.buf|),
                    |s.rotated|, t))
  {
    hide Flush, Inv;
    var s2 := s.(buf := s.buf + line);
    InvIgnoresBuffer(cfg, s, s2.buf);
    if |s2.buf| >= cfg.flushSize {
      FirstFlush(cfg, limit, longest, s2, false, after);
      LooserBound(cfg, limit, longest, |LiveBytes(s)| + |s2.buf|,
        FirstBound(cfg, limit, longest, |LiveBytes(s)|, |s.buf|),
                  |s.rotated|, Flush(cfg, s2, false, after));
    }
  }

  // Where the worker is after a run from an open state: it wrote nothing yet; or the live
  // file is within the limit, the first generation is bounded by what the file held and
  // what had piled up, and all later ones as ever.
  predicate LateState(cfg: Config, limit: nat, longest: nat, s: State, t: State) {
    || Untouched(s, t, cfg)
    || (Tight(cfg, limit, t) && |t.buf| < cfg.flushSize
        && LateBounded(cfg, limit, longest, FirstBound(cfg, limit, longest, |LiveBytes(s)|, |s.buf|), |s.rotated|, t))
  }

  lemma {:induction false} UntouchedStep(cfg: Config, limit: nat, longest: nat, s: State, t: State, ev: Event)
    requires SizeOnly(cfg, limit) && Inv(cfg, t) && t.size == |LiveBytes(t)| && 0 < cfg.flushSize &&
        Untouched(s, t, cfg)
    requires Clean(ev) && (ev.Line? ==> |ev.line| <= longest)
    ensures LateState(cfg, limit, longest, s, Process(cfg, t, ev))
  {
    hide Write, Flush, LateBounded, Inv, SizeOnly;
    var first := FirstBound(cfg, limit, longest, |LiveBytes(s)|, |s.buf|);
    var u := Process(cfg, t, ev);
    match ev
    case Line(line, before, after) =>
      FirstWrite(cfg, limit, longest, t, line, before, after);
      if !Untouched(t, u, cfg) {
        LooserBound(cfg, limit, longest, FirstBound(cfg, limit, longest, |LiveBytes(t)|, |t.buf|), first,
          |t.rotated|, u);
      }
    case ReopenMsg(_) => ReopenChangesNothing(cfg, t, ev.ok);
    case FlushMsg(_, e) => UntouchedFlush(cfg, limit, longest, s, t, true, e);
    case Timeout(e) => UntouchedFlush(cfg, limit, longest, s, t, false, e);
    case Disconnected(e) => UntouchedFlush(cfg, limit, longest, s, t, true, e);
  }

  lemma {:induction false} ReopenChangesNothing(cfg: Config, s: State, ok: bool)
    requires Inv(cfg, s) && s.fd == OnLive && s.size == |LiveBytes(s)|
    ensures Sink.Reopen(s, ok) == s
  {
  }

  lemma {:induction false} UntouchedFlush(cfg: Config, limit: nat, longest: nat, s: State, t: State, wait: bool, e: Env)
    requires SizeOnly(cfg, limit) && Inv(cfg, t) && t.size == |LiveBytes(t)| && 0 < cfg.flushSize &&
        Untouched(s, t, cfg)
    requires e.dropped == 0
    ensures LateState(cfg, limit, longest, s, Flush(cfg, t, wait, e))
  {
    hide Flush, LateBounded, Inv, SizeOnly;
    FirstFlush(cfg, limit, longest, t, wait, e);
    LooserBound(cfg, limit, longest, |LiveBytes(t)| + |t.buf|, FirstBound(cfg, limit, longest, |LiveBytes(s)|, |s.buf|),
                |t.rotated|, Flush(cfg, t, wait, e));
  }

  lemma {:induction false} LaterStep(cfg: Config, limit: nat, longest: nat, first: nat, from: nat, t: State, ev: Event)
    requires SizeOnly(cfg, limit) && Tight(cfg, limit, t) && |t.buf| < cfg.flushSize
    requires LateBounded(cfg, limit, longest, first, from, t) && limit + Max(cfg.flushSize, longest) <= first
    requires Clean(ev) && (ev.Line? ==> |ev.line| <= longest)
    ensures var u := Process(cfg, t, ev);
            Tight(cfg, limit, u) && |u.buf| < cfg.flushSize && LateBounded(cfg, limit, longest, first, from, u)
  {
    hide Write, Flush, LateBounded, SizeOnly, Inv;
    MessageExtends(cfg, t, ev);
    TightMessage(cfg, limit, longest, t, ev);
    LaterBounds(cfg, limit, longest, first, from, t, Process(cfg, t, ev));
  }

  lemma {:induction false} TightMessage(cfg: Config, limit: nat, longest: nat, t: State, ev: Event)
    requires SizeOnly(cfg, limit) && Tight(cfg, limit, t) && |t.buf| < cfg.flushSize
    requires Clean(ev) && (ev.Line? ==> |ev.line| <= longest)
    ensures var u := Process(cfg, t, ev);
            Tight(cfg, limit, u) && |u.buf| < cfg.flushSize && GensBounded(cfg, limit, longest, u, |t.rotated|)
  {
    var from := |t.rotated|;
    hide Write;
    match ev
    case Line(line, before, after) => WriteIsTight(cfg, limit, longest, t, line, before, after, from);
    case ReopenMsg(_) =>
    case FlushMsg(_, e) => FlushIsTight(cfg, limit, longest, t, true, e, from);
    case Timeout(e) => FlushIsTight(cfg, limit, longest, t, false, e, from);
    case Disconnected(e) => FlushIsTight(cfg, limit, longest, t, true, e, from);
  }

  // The size bound from any open state, as after a file that opened late.
  lemma {:induction false} LateOpenIsBounded(cfg: Config, limit: nat, longest: nat, s: State, evs: seq<Event>)
    requires SizeOnly(cfg, limit) && Inv(cfg, s) && s.fd == OnLive && s.size == |LiveBytes(s)| && 0 < cfg.flushSize
    requires AllClean(evs) && forall i :: 0 <= i < |evs| && evs[i].Line? ==> |evs[i].line| <= longest
    ensures LateState(cfg, limit, longest, s, Run(cfg, s, evs))
  {
    if evs != [] {
      var init, ev := evs[..|evs| - 1], evs[|evs| - 1];
      LateOpenIsBounded(cfg, limit, longest, s, init);
      assert init + [ev] == evs && Clean(ev);
      LateOpenStep(cfg, limit, longest, s, init, ev);
    }
  }

  lemma {:induction false} LateOpenStep(cfg: Config, limit: nat, longest: nat, s: State, init: seq<Event>, ev: Event)
    requires SizeOnly(cfg, limit) && Inv(cfg, s) && s.fd == OnLive && s.size == |LiveBytes(s)| && 0 < cfg.flushSize
    requires Clean(ev) && (ev.Line? ==> |ev.line| <= longest)
    requires LateState(cfg, limit, longest, s, Run(cfg, s, init))
    ensures LateState(cfg, limit, longest, s, Run(cfg, s, init + [ev]))
  {
    hide Run, Process, LateBounded, Inv, SizeOnly, Tight;
    var t := Run(cfg, s, init);
    RunSnoc(cfg, s, init, ev);
    if Untouched(s, t, cfg) {
      UntouchedStep(cfg, limit, longest, s, t, ev);
    } else {
      LaterStep(cfg, limit, longest, FirstBound(cfg, limit, longest, |LiveBytes(s)|, |s.buf|), |s.rotated|, t, ev);
    }
  }

  // ------------------------------------------------------------- from the start

  // What the file held counts as one line.
  function LedgerOf(s: State): Ledger {
    Ledger(seq(|s.rotated|, i requires 0 <= i < |s.rotated| => Listed(s.rotated[i].data)), Listed(LiveBytes(s)), [], [])
  }

  lemma {:induction false} StartLedger(cfg: Config, live: Option<Bytes>, archive: seq<Gen>, ok: bool, e: Env)
    requires Sorted(archive) && (HasAge(cfg) ==> ok)
    ensures var s := Started(cfg, live, archive, ok, e);
            var initial := Listed(if live.Some? then live.value else []);
            && Matches(s, LedgerOf(s)) && NoneEmpty(LedgerOf(s).buf)
            && MadeOfBatches(LedgerOf(s), initial) && AllLines(LedgerOf(s)) == initial
            && (ok && 0 < cfg.flushSize ==> Batching(cfg, s, LedgerOf(s)))
  {
    var s := Started(cfg, live, archive, ok, e);
    var initial := if live.Some? then live.value else [];
    StartedAgain(cfg, live, archive, ok, e);
    if s.rotated == [] {
      LedgerBefore(cfg, s, initial);
    } else {
      LedgerAfter(cfg, s, initial);
    }
    hide Inv, Started, Matches, MadeOfBatches, AllLines, LedgerOf, LiveBytes;
  }

  lemma {:induction false} LedgerBefore(cfg: Config, s: State, initial: Bytes)
    requires s.rotated == [] && LiveBytes(s) == initial && s.buf == []
    ensures var l := LedgerOf(s);
            && Matches(s, l) && NoneEmpty(l.buf) && MadeOfBatches(l, Listed(initial)) && AllLines(l) == Listed(initial)
            && AllWhole(cfg, l.batches)
  {
    ListedIsWhole(initial);
    assert LedgerOf(s).gens == [];
    hide Listed;
    assert [] + Listed(initial) + [] == Listed(initial);
  }

  lemma {:induction false} LedgerAfter(cfg: Config, s: State, initial: Bytes)
    requires |s.rotated| == 1 && s.rotated[0].data == initial && LiveBytes(s) == [] && s.buf == []
    ensures var l := LedgerOf(s);
            && Matches(s, l) && NoneEmpty(l.buf) && MadeOfBatches(l, Listed(initial)) && AllLines(l) == Listed(initial)
            && AllWhole(cfg, l.batches)
  {
    ListedIsWhole(initial);
    ListedIsWhole([]);
    assert LedgerOf(s).gens == [Listed(initial)];
    OneGroup(Listed(initial));
    assert Listed(initial) + [] + [] == Listed(initial);
  }

  // A start either keeps the live file or makes it a generation.
  lemma {:induction false} StartedAgain(cfg: Config, live: Option<Bytes>, archive: seq<Gen>, ok: bool, e: Env)
    requires Sorted(archive) && (HasAge(cfg) ==> ok)
    ensures var s, initial := Started(cfg, live, archive, ok, e), if live.Some? then live.value else [];
            && (s.rotated == [] ==> LiveBytes(s) == initial)
            && (s.rotated != [] ==> |s.rotated| == 1 && s.rotated[0].data == initial && LiveBytes(s) == [])
  {
  }

  lemma {:induction false} OneGroup(group: seq<Bytes>)
    ensures Concat([group]) == group
  {
    ConcatCons(group, []);
    assert [group] + [] == [group];
  }

  lemma {:induction false} ListedIsWhole(x: Bytes)
    ensures Concat(Listed(x)) == x
  {
    if x != [] {
      ConcatCons(x, []);
      assert [x] + [] == [x];
    }
  }

  // From the start of the worker on, whatever it finds, as long as no write fails: no line
  // is ever split, lost or reordered, and if the file opens at the start every batch is
  // whole.
  lemma {:induction false} WholeLinesFromStart(cfg: Config, live: Option<Bytes>, archive: seq<Gen>, ok: bool, e: Env,
                                               evs: seq<Event>)
    requires Sorted(archive) && (HasAge(cfg) ==> ok) && AllClean(evs)
    ensures var s := Started(cfg, live, archive, ok, e);
            var t, k := Run(cfg, s, evs), RunLines(cfg, s, LedgerOf(s), evs);
            && Matches(t, k)
            && AllLines(k) == Listed(if live.Some? then live.value else []) + Arrived(evs)
            && (ok && 0 < cfg.flushSize ==> Batching(cfg, t, k))
  {
    hide Run, RunLines, Started, LedgerOf, Matches, AllLines, Arrived, Batching, MadeOfBatches, NoneEmpty, AllClean,
        Listed, Sorted;
    var s := Started(cfg, live, archive, ok, e);
    var initial := Listed(if live.Some? then live.value else []);
    StartLedger(cfg, live, archive, ok, e);
    LinesStayWhole(cfg, s, LedgerOf(s), evs, initial);
    if ok && 0 < cfg.flushSize {
      BatchesAreWhole(cfg, s, LedgerOf(s), evs, initial);
    }
  }
}
