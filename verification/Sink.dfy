// The worker of the buffered file sink, one message at a time: what `write`, `flush`,
// `check_rotate` and `reopen` do to its buffer, the live file and the archive. A
// cleanup job counts as done at the moment it is spawned; Protocol.dfy shows that any
// other timing gives the same result.
module Sink {
  import opened Common
  import opened Archive

  datatype Plan = Plan(sizeLimit: Option<nat>, hasAge: bool, policy: Policy)
  datatype Config = Config(flushSize: nat, rotation: Option<Plan>)

  // Where the worker's descriptor points. Between a rename and the reopen that
  // follows, it still is the file that was just archived.
  datatype Descriptor = NotOpen | OnLive | OnArchived(suffix: int)

  // What the outside world decides during one flush: how many bytes of the buffer a
  // failing write leaves out, the age check, the clock, the age horizon of the cleanup.
  datatype Env = Env(dropped: nat, aged: bool, now: int, horizon: int)

  // `rotated` and `lost` record what happened so far; the program has no such fields.
  datatype State = State(
    size: nat, fd: Descriptor, live: Option<Bytes>, buf: Bytes,
    archive: seq<Gen>, unjoined: bool,
    rotated: seq<Rotated>, lost: nat)

  datatype Event =
    | Line(line: Bytes, before: Env, after: Env)
    | ReopenMsg(ok: bool)
    | FlushMsg(token: nat, env: Env)
    | Timeout(env: Env)
    | Disconnected(env: Env)

  predicate HasAge(cfg: Config) {
    cfg.rotation.Some? && cfg.rotation.value.hasAge
  }

  // Kept by every message. A write error makes the counted size run ahead of the file.
  predicate Inv(cfg: Config, s: State) {
    && Sorted(s.archive) && !s.fd.OnArchived?
    && (s.fd == OnLive ==> s.live.Some? && |s.live.value| <= s.size <= |s.live.value| + s.lost)
    && (s.fd == NotOpen ==> s.size == 0 && !HasAge(cfg) && s.rotated == [] && !s.unjoined)
    && (cfg.rotation.None? ==> s.rotated == [] && !s.unjoined)
  }

  // reopen: a failure leaves everything as it was.
  function Reopen(s: State, ok: bool): State {
    if ok then
      var content := if s.live.Some? then s.live.value else [];
      s.(live := Some(content), size := |content|, fd := OnLive)
    else s
  }

  function LiveBytes(s: State): Bytes {
    if s.live.Some? then s.live.value else []
  }

  // The bytes of the buffer that reach the file.
  function Written(s: State, dropped: nat): (w: Bytes)
    ensures |w| <= |s.buf| && (dropped == 0 ==> w == s.buf)
  {
    if dropped <= |s.buf| then s.buf[..|s.buf| - dropped] else []
  }

  // Bytes written through a descriptor that still is on an archived file.
  function AppendArchived(a: seq<Gen>, suffix: int, w: Bytes): seq<Gen> {
    seq(|a|, i requires 0 <= i < |a| =>
      if a[i].suffix == suffix && !a[i].compressed then a[i].(data := a[i].data + w) else a[i])
  }

  // The write loop of flush, after which the buffer is empty.
  function WriteOut(s: State, dropped: nat): State {
    var w := Written(s, dropped);
    var t := s.(size := s.size + |s.buf|, buf := [], lost := s.lost + |s.buf| - |w|);
    match s.fd
    case OnLive => t.(live := Some(LiveBytes(s) + w))
    case OnArchived(k) => t.(archive := AppendArchived(s.archive, k, w))
    case NotOpen => t
  }

  predicate NeedRotate(r: Plan, s: State, e: Env) {
    (r.hasAge && e.aged) || (r.sizeLimit.Some? && s.size > r.sizeLimit.value)
  }

  predicate Rotates(cfg: Config, s: State, e: Env) {
    cfg.rotation.Some? && NeedRotate(cfg.rotation.value, s, e)
  }

  // rename_files. It panics when the live file is missing; Inv rules that out.
  function RenameLive(r: Plan, s: State, e: Env): State {
    if s.live.None? then s
    else
      var k := FreshSuffix(r.policy.scheme, s.archive, e.now);
      s.(archive := Push(s.archive, k, false, s.live.value), live := None,
         fd := if s.fd == OnLive then OnArchived(k) else s.fd,
         rotated := s.rotated + [Rotated(e.now, e.horizon, s.live.value)])
  }

  function CleanUp(r: Plan, s: State, horizon: int): State {
    s.(archive := Cleaned(s.archive, r.policy, horizon))
  }

  function CheckRotate(cfg: Config, s: State, e: Env): (t: State)
    ensures Inv(cfg, s) ==> Inv(cfg, t)
  {
    if Rotates(cfg, s, e) then
      var r := cfg.rotation.value;
      assert Inv(cfg, s) ==> Sorted(Cleaned(RenameLive(r, s, e).archive, r.policy, e.horizon)) by {
        if Inv(cfg, s) {
          PushKeepsSorted(s.archive, FreshSuffix(r.policy.scheme, s.archive, e.now), false, s.live.value);
          CleanedKeepsOrder(RenameLive(r, s, e).archive, r.policy, e.horizon);
        }
      }
      Reopen(CleanUp(r, RenameLive(r, s, e), e.horizon).(unjoined := true), true)
    else s
  }

  function Flush(cfg: Config, s: State, wait: bool, e: Env): (t: State)
    ensures Inv(cfg, s) ==> Inv(cfg, t)
    ensures s.fd == OnLive ==> t.fd == OnLive && t.buf == []
  {
    var s1 := if s.fd == OnLive then CheckRotate(cfg, WriteOut(s, e.dropped), e) else s;
    if wait && cfg.rotation.Some? then s1.(unjoined := false) else s1
  }

  function FlushIf(cfg: Config, s: State, cond: bool, e: Env): (t: State)
    ensures Inv(cfg, s) ==> Inv(cfg, t)
    ensures s.fd == OnLive ==> t.fd == OnLive
  {
    if cond then Flush(cfg, s, false, e) else s
  }

  predicate NoRoom(cfg: Config, s: State, line: Bytes) {
    |s.buf| + |line| > cfg.flushSize && s.buf != []
  }

  function Write(cfg: Config, s: State, line: Bytes, before: Env, after: Env): (t: State)
    ensures Inv(cfg, s) ==> Inv(cfg, t)
    ensures s.fd == OnLive ==> t.fd == OnLive
  {
    var s1 := FlushIf(cfg, s, NoRoom(cfg, s, line), before);
    var s2 := s1.(buf := s1.buf + line);
    FlushIf(cfg, s2, |s2.buf| >= cfg.flushSize, after)
  }

  function Process(cfg: Config, s: State, ev: Event): (t: State)
    ensures Inv(cfg, s) ==> Inv(cfg, t)
    ensures s.fd == OnLive ==> t.fd == OnLive
  {
    match ev
    case Line(line, before, after) => Write(cfg, s, line, before, after)
    case ReopenMsg(ok) => Reopen(s, ok)
    case FlushMsg(_, e) => Flush(cfg, s, true, e)
    case Timeout(e) => Flush(cfg, s, false, e)
    case Disconnected(e) => Flush(cfg, s, true, e)
  }

  function Run(cfg: Config, s: State, evs: seq<Event>): (t: State)
    ensures Inv(cfg, s) ==> Inv(cfg, t)
    ensures s.fd == OnLive ==> t.fd == OnLive
  {
    if evs == [] then s else Process(cfg, Run(cfg, s, evs[..|evs| - 1]), evs[|evs| - 1])
  }

  lemma {:induction false} RunSnoc(cfg: Config, s: State, evs: seq<Event>, ev: Event)
    ensures Run(cfg, s, evs + [ev]) == Process(cfg, Run(cfg, s, evs), ev)
  {
    assert (evs + [ev])[..|evs|] == evs;
  }

  // The worker before its first step, on whatever is on disk.
  function Fresh(live: Option<Bytes>, archive: seq<Gen>): State {
    State(0, NotOpen, live, [], archive, false, [], 0)
  }

  // The head of log_writer. With an age limit the file must open here: the age check
  // unwraps the creation time.
  function Started(cfg: Config, live: Option<Bytes>, archive: seq<Gen>, ok: bool, e: Env): (s: State)
    requires Sorted(archive) && (HasAge(cfg) ==> ok)
    ensures Inv(cfg, s) && s.buf == [] && s.lost == 0
    ensures ok ==> s.fd == OnLive
  {
    CheckRotate(cfg, Reopen(Fresh(live, archive), ok), e)
  }

  // ------------------------------------------- what each operation comes to, exactly

  // A check for rotation with the file open, in terms of the limits and the answers of the
  // outside world: an age limit that is due or a size above the limit closes the live file
  // as one generation, starts its cleanup and opens an empty file; otherwise nothing happens.
  predicate Checked(cfg: Config, s: State, t: State, e: Env)
    requires s.live.Some?
  {
    if cfg.rotation.Some?
       && ((cfg.rotation.value.hasAge && e.aged)
           || (cfg.rotation.value.sizeLimit.Some? && s.size > cfg.rotation.value.sizeLimit.value))
    then
      var r := Rotated(e.now, e.horizon, s.live.value);
      && t.rotated == s.rotated + [r] && t.archive == Round(s.archive, cfg.rotation.value.policy, r) && t.unjoined
      && t.live == Some([]) && t.size == 0 && t.fd == OnLive && t.buf == s.buf && t.lost == s.lost
    else t == s
  }

  lemma {:induction false} CheckRotateExactly(cfg: Config, s: State, e: Env)
    requires Inv(cfg, s) && s.fd == OnLive
    ensures Checked(cfg, s, CheckRotate(cfg, s, e), e)
    ensures var due := cfg.rotation.Some?
                       && ((cfg.rotation.value.hasAge && e.aged)
                           || (cfg.rotation.value.sizeLimit.Some? && s.size > cfg.rotation.value.sizeLimit.value));
            CheckRotate(cfg, s, e).rotated == s.rotated + [Rotated(e.now, e.horizon, s.live.value)] <==> due
  {
    hide Push, Cleaned, FreshSuffix, Sorted;
  }

  // The state once the buffer is written out, with `dropped` bytes left out by a failing write.
  function Emptied(s: State, dropped: nat): State
    requires s.live.Some?
  {
    var w := if dropped <= |s.buf| then s.buf[..|s.buf| - dropped] else [];
    s.(live := Some(s.live.value + w), size := s.size + |s.buf|, buf := [], lost := s.lost + (|s.buf| - |w|))
  }

  // A flush of an open file writes the whole buffer and then checks for rotation; asked to
  // wait, it leaves no cleanup unjoined.
  predicate Flushed(cfg: Config, s: State, t: State, wait: bool, e: Env)
    requires s.live.Some?
  {
    if wait then !t.unjoined && exists joined :: Checked(cfg, Emptied(s, e.dropped), t.(unjoined := joined), e)
    else Checked(cfg, Emptied(s, e.dropped), t, e)
  }

  lemma {:induction false} FlushExactly(cfg: Config, s: State, wait: bool, e: Env)
    requires Inv(cfg, s)
    ensures s.fd == OnLive ==> Flushed(cfg, s, Flush(cfg, s, wait, e), wait, e)
    ensures s.fd == NotOpen ==> Flush(cfg, s, wait, e) == s
  {
    if s.fd == OnLive {
      var w := WriteOut(s, e.dropped);
      assert w == Emptied(s, e.dropped);
      var c := CheckRotate(cfg, w, e);
      EmptiedIsValid(cfg, s, e.dropped);
      CheckRotateExactly(cfg, w, e);
      hide Inv, CheckRotate, WriteOut, Emptied, Checked;
      assert wait ==> Checked(cfg, w, Flush(cfg, s, wait, e).(unjoined := c.unjoined), e);
    }
  }

  lemma {:induction false} EmptiedIsValid(cfg: Config, s: State, dropped: nat)
    requires Inv(cfg, s) && s.fd == OnLive
    ensures Inv(cfg, Emptied(s, dropped))
  {
  }

  // Every flush under a due age closes exactly one generation, which ends with the flushed
  // bytes.
  lemma {:induction false} DueAgeCloses(cfg: Config, s: State, wait: bool, e: Env)
    requires Inv(cfg, s) && s.fd == OnLive && cfg.rotation.Some? && cfg.rotation.value.hasAge && e.aged &&
        e.dropped == 0
    ensures Flush(cfg, s, wait, e).rotated == s.rotated + [Rotated(e.now, e.horizon, s.live.value + s.buf)]
  {
    FlushExactly(cfg, s, wait, e);
    assert s.buf[..|s.buf|] == s.buf;
  }

  // A flush token, a timeout and the end of the channel each write the buffer out; after a
  // token and at the end no cleanup is left unjoined.
  lemma {:induction false} MessagesFlush(cfg: Config, s: State, ev: Event)
    requires Inv(cfg, s) && s.fd == OnLive && (ev.FlushMsg? || ev.Timeout? || ev.Disconnected?)
    ensures Flushed(cfg, s, Process(cfg, s, ev), !ev.Timeout?, ev.env)
    ensures Process(cfg, s, ev).buf == []
    ensures !ev.Timeout? ==> !Process(cfg, s, ev).unjoined
  {
    hide Flush, Checked, Emptied, Inv;
    FlushExactly(cfg, s, !ev.Timeout?, ev.env);
  }

  // A request to reopen opens the file where it was not, with the size it has; a failure
  // changes nothing.
  lemma {:induction false} ReopenExactly(cfg: Config, s: State, ok: bool)
    requires Inv(cfg, s)
    ensures var t, found := Process(cfg, s, ReopenMsg(ok)), if s.live.Some? then s.live.value else [];
            t == if ok then s.(fd := OnLive, live := Some(found), size := |found|) else s
  {
  }

  // A line joins the buffer while the buffer stays short; the flush size exactly is one batch;
  // above it the buffer goes first, and then the line, at once if it is long enough by itself.
  lemma {:induction false} WriteExactly(cfg: Config, s: State, line: Bytes, before: Env, after: Env)
    requires Inv(cfg, s) && s.fd == OnLive && 0 < cfg.flushSize
    ensures var t, both := Write(cfg, s, line, before, after), s.(buf := s.buf + line);
            && (|s.buf| + |line| < cfg.flushSize ==> t == both)
            && (|s.buf| + |line| == cfg.flushSize ==> Flushed(cfg, both, t, false, after))
            && (|s.buf| + |line| > cfg.flushSize && s.buf == [] ==> Flushed(cfg, both, t, false, after))
            && (|s.buf| + |line| > cfg.flushSize && s.buf != [] ==>
                  var s1 := Flush(cfg, s, false, before);
                  && Flushed(cfg, s, s1, false, before) && s1.buf == [] && s1.live.Some?
                  && if |line| < cfg.flushSize then t == s1.(buf := line)
                     else Flushed(cfg, s1.(buf := line), t, false, after))
  {
    hide Flush, Flushed, Inv;
    var both := s.(buf := s.buf + line);
    InvIgnoresBuffer(cfg, s, both.buf);
    FlushExactly(cfg, both, false, after);
    FlushExactly(cfg, s, false, before);
    var s1 := Flush(cfg, s, false, before);
    InvIgnoresBuffer(cfg, s1, line);
    OpenHasLive(cfg, s1);
    FlushExactly(cfg, s1.(buf := line), false, after);
    assert [] + line == line;
  }

  lemma {:induction false} OpenHasLive(cfg: Config, s: State)
    requires Inv(cfg, s) && s.fd == OnLive
    ensures s.live.Some?
  {
  }

  // As long as the file is not open a line only joins the buffer.
  lemma {:induction false} WriteUnopened(cfg: Config, s: State, line: Bytes, before: Env, after: Env)
    requires Inv(cfg, s) && s.fd == NotOpen
    ensures Write(cfg, s, line, before, after) == s.(buf := s.buf + line)
  {
    hide Flush, Inv;
    var both := s.(buf := s.buf + line);
    InvIgnoresBuffer(cfg, s, both.buf);
    FlushExactly(cfg, s, false, before);
    FlushExactly(cfg, both, false, after);
  }

  // The start opens the file as it is and checks for rotation once.
  lemma {:induction false} StartsExactly(cfg: Config, live: Option<Bytes>, archive: seq<Gen>, ok: bool, e: Env)
    requires Sorted(archive) && (HasAge(cfg) ==> ok)
    ensures var found := if live.Some? then live.value else [];
            var s := Started(cfg, live, archive, ok, e);
            if ok then Checked(cfg, State(|found|, OnLive, Some(found), [], archive, false, [], 0), s, e)
            else s == State(0, NotOpen, live, [], archive, false, [], 0)
  {
    hide Push, Cleaned, FreshSuffix, Sorted;
    var found := if live.Some? then live.value else [];
    if ok {
      CheckRotateExactly(cfg, State(|found|, OnLive, Some(found), [], archive, false, [], 0), e);
    }
  }

  // ------------------------------------------------------------- conservation

  // All generations from the oldest on, then the live file.
  function OnDisk(s: State): Bytes {
    Concat(Datas(s.rotated)) + LiveBytes(s)
  }

  function Stored(s: State): Bytes {
    OnDisk(s) + s.buf
  }

  function LinesOf(evs: seq<Event>): seq<Bytes> {
    if evs == [] then []
    else
      var ev := evs[|evs| - 1];
      LinesOf(evs[..|evs| - 1]) + if ev.Line? then [ev.line] else []
  }

  // t holds what s held and then `more`, unless some bytes were lost on the way.
  predicate Carries(s: State, t: State, more: Bytes) {
    && s.lost <= t.lost
    && |Stored(t)| + t.lost == |Stored(s)| + |more| + s.lost
    && (t.lost == s.lost ==> Stored(t) == Stored(s) + more)
  }

  lemma {:induction false} CarriesChain(s: State, t: State, u: State, x: Bytes, y: Bytes)
    requires Carries(s, t, x) && Carries(t, u, y)
    ensures Carries(s, u, x + y)
  {
    assert Stored(s) + (x + y) == (Stored(s) + x) + y;
  }

  lemma {:induction false} CheckRotateCarries(cfg: Config, s: State, e: Env)
    requires Inv(cfg, s)
    ensures Carries(s, CheckRotate(cfg, s, e), []) && CheckRotate(cfg, s, e).buf == s.buf
  {
    if Rotates(cfg, s, e) {
      var r := Rotated(e.now, e.horizon, s.live.value);
      assert Datas(s.rotated + [r]) == Datas(s.rotated) + [r.data];
      ConcatSnoc(Datas(s.rotated), r.data);
      assert OnDisk(CheckRotate(cfg, s, e)) == OnDisk(s);
    }
    assert Stored(s) + [] == Stored(s);
  }

  lemma {:induction false} FlushCarries(cfg: Config, s: State, wait: bool, e: Env)
    requires Inv(cfg, s)
    ensures Carries(s, Flush(cfg, s, wait, e), [])
  {
    if s.fd == OnLive {
      var w := WriteOut(s, e.dropped);
      assert |Stored(w)| + w.lost == |Stored(s)| + s.lost;
      assert w.lost == s.lost ==> Stored(w) == Stored(s) + [];
      CheckRotateCarries(cfg, w, e);
      CarriesChain(s, w, CheckRotate(cfg, w, e), [], []);
      assert Stored(Flush(cfg, s, wait, e)) == Stored(CheckRotate(cfg, w, e));
    } else {
      assert Stored(s) + [] == Stored(s);
    }
  }

  lemma {:induction false} CarriesItself(s: State)
    ensures Carries(s, s, [])
  {
    assert Stored(s) + [] == Stored(s);
  }

  lemma {:induction false} WriteCarries(cfg: Config, s: State, line: Bytes, before: Env, after: Env)
    requires Inv(cfg, s)
    ensures Carries(s, Write(cfg, s, line, before, after), line)
  {
    hide Carries, Stored, Flush, Inv, NoRoom;
    var s1 := FlushIf(cfg, s, NoRoom(cfg, s, line), before);
    var s2 := s1.(buf := s1.buf + line);
    assert Inv(cfg, s2) by {
      InvIgnoresBuffer(cfg, s1, s2.buf);
    }
    FlushCarries(cfg, s, false, before);
    FlushCarries(cfg, s2, false, after);
    CarriesItself(s);
    CarriesItself(s2);
    AppendCarries(s1, line);
    CarriesChain(s, s1, s2, [], line);
    CarriesChain(s, s2, Write(cfg, s, line, before, after), [] + line, []);
    assert [] + line + [] == line;
  }

  lemma {:induction false} InvIgnoresBuffer(cfg: Config, s: State, buf: Bytes)
    requires Inv(cfg, s)
    ensures Inv(cfg, s.(buf := buf))
  {
  }

  lemma {:induction false} AppendCarries(s: State, line: Bytes)
    ensures Carries(s, s.(buf := s.buf + line), line)
  {
    assert Stored(s.(buf := s.buf + line)) == Stored(s) + line;
  }

  lemma {:induction false} ProcessCarries(cfg: Config, s: State, ev: Event)
    requires Inv(cfg, s)
    ensures Carries(s, Process(cfg, s, ev), if ev.Line? then ev.line else [])
  {
    hide Carries, Flush, Write;
    match ev
    case Line(line, before, after) => WriteCarries(cfg, s, line, before, after);
    case ReopenMsg(ok) =>
      assert Carries(s, Reopen(s, ok), []) by {
        ReopenCarries(s, ok);
      }
    case FlushMsg(_, e) => FlushCarries(cfg, s, true, e);
    case Timeout(e) => FlushCarries(cfg, s, false, e);
    case Disconnected(e) => FlushCarries(cfg, s, true, e);
  }

  lemma {:induction false} ReopenCarries(s: State, ok: bool)
    ensures Carries(s, Reopen(s, ok), [])
  {
    CarriesItself(s);
  }

  // End-to-end conservation, for every mix of messages and any state to start from.
  // Nothing is repeated or reordered; bytes go missing only through a failing write,
  // and then exactly the counted ones.
  lemma {:induction false} Conservation(cfg: Config, s: State, evs: seq<Event>)
    requires Inv(cfg, s)
    ensures Carries(s, Run(cfg, s, evs), Concat(LinesOf(evs)))
  {
    if evs == [] {
      CarriesItself(s);
    } else {
      var init, ev := evs[..|evs| - 1], evs[|evs| - 1];
      var more := if ev.Line? then ev.line else [];
      Conservation(cfg, s, init);
      ProcessCarries(cfg, Run(cfg, s, init), ev);
      LinesSnoc(evs);
      hide Carries, Process, Concat, LinesOf;
      CarriesChain(s, Run(cfg, s, init), Run(cfg, s, evs), Concat(LinesOf(init)), more);
    }
  }

  lemma {:induction false} LinesSnoc(evs: seq<Event>)
    requires evs != []
    ensures var ev := evs[|evs| - 1];
            Concat(LinesOf(evs)) == Concat(LinesOf(evs[..|evs| - 1])) + if ev.Line? then ev.line else []
  {
    var init, ev := evs[..|evs| - 1], evs[|evs| - 1];
    if ev.Line? {
      ConcatSnoc(LinesOf(init), ev.line);
    } else {
      assert LinesOf(evs) == LinesOf(init);
      assert Concat(LinesOf(init)) + [] == Concat(LinesOf(init));
    }
  }

  // The exact condition: the files and the buffer hold the initial content followed by
  // the received lines if and only if no write left bytes out.
  lemma {:induction false} ConservedIffNothingLost(cfg: Config, s: State, evs: seq<Event>)
    requires Inv(cfg, s)
    ensures var t := Run(cfg, s, evs);
            Stored(t) == Stored(s) + Concat(LinesOf(evs)) <==> t.lost == s.lost
  {
    Conservation(cfg, s, evs);
  }

  lemma {:induction false} StartCarries(cfg: Config, live: Option<Bytes>, archive: seq<Gen>, ok: bool, e: Env)
    requires Sorted(archive) && (HasAge(cfg) ==> ok)
    ensures Stored(Started(cfg, live, archive, ok, e)) == if live.Some? then live.value else []
  {
    var s := Reopen(Fresh(live, archive), ok);
    CheckRotateCarries(cfg, s, e);
    assert Datas([]) == [];
  }

  // ------------------------------------------------------------------- archive

  // The archive is what rotations and cleanups, strictly alternating, make of the
  // generations so far.
  predicate ArchiveFollows(cfg: Config, a: seq<Gen>, s: State) {
    s.archive == if cfg.rotation.Some? then Rounds(a, cfg.rotation.value.policy, s.rotated) else a
  }

  lemma {:induction false} CheckRotateFollows(cfg: Config, a: seq<Gen>, s: State, e: Env)
    requires Inv(cfg, s) && ArchiveFollows(cfg, a, s)
    ensures ArchiveFollows(cfg, a, CheckRotate(cfg, s, e))
  {
    if Rotates(cfg, s, e) {
      RoundsSnoc(a, cfg.rotation.value.policy, s.rotated, Rotated(e.now, e.horizon, s.live.value));
    }
  }

  lemma {:induction false} FlushFollows(cfg: Config, a: seq<Gen>, s: State, wait: bool, e: Env)
    requires Inv(cfg, s) && ArchiveFollows(cfg, a, s)
    ensures ArchiveFollows(cfg, a, Flush(cfg, s, wait, e))
  {
    if s.fd == OnLive {
      CheckRotateFollows(cfg, a, WriteOut(s, e.dropped), e);
    }
  }

  lemma {:induction false} ProcessFollows(cfg: Config, a: seq<Gen>, s: State, ev: Event)
    requires Inv(cfg, s) && ArchiveFollows(cfg, a, s)
    ensures ArchiveFollows(cfg, a, Process(cfg, s, ev))
  {
    hide Flush;
    match ev
    case Line(line, before, after) =>
      FlushFollows(cfg, a, s, false, before);
      var s1 := FlushIf(cfg, s, NoRoom(cfg, s, line), before);
      FlushFollows(cfg, a, s1.(buf := s1.buf + line), false, after);
    case ReopenMsg(ok) =>
    case FlushMsg(_, e) => FlushFollows(cfg, a, s, true, e);
    case Timeout(e) => FlushFollows(cfg, a, s, false, e);
    case Disconnected(e) => FlushFollows(cfg, a, s, true, e);
  }

  lemma {:induction false} RunFollows(cfg: Config, a: seq<Gen>, s: State, evs: seq<Event>)
    requires Inv(cfg, s) && ArchiveFollows(cfg, a, s)
    ensures ArchiveFollows(cfg, a, Run(cfg, s, evs))
  {
    if evs != [] {
      RunFollows(cfg, a, s, evs[..|evs| - 1]);
      ProcessFollows(cfg, a, Run(cfg, s, evs[..|evs| - 1]), evs[|evs| - 1]);
    }
  }

  // The whole set of files after any run of the worker from any archive: the archive is
  // the tidied newest part of all generations, as Archive.Accounts says - under an age
  // limit, the part within every horizon since - and those generations, the live file and
  // the buffer together hold exactly what came in.
  lemma {:induction false} WholeRun(cfg: Config, live: Option<Bytes>, archive: seq<Gen>, ok: bool, e: Env,
                                    evs: seq<Event>)
    requires Sorted(archive) && (HasAge(cfg) ==> ok)
    ensures var s := Run(cfg, Started(cfg, live, archive, ok, e), evs);
            var initial := if live.Some? then live.value else [];
            && |Stored(s)| + s.lost == |initial| + |Concat(LinesOf(evs))|
            && (s.lost == 0 <==> Stored(s) == initial + Concat(LinesOf(evs)))
            && ArchiveIsExplained(cfg, archive, s)
  {
    hide Run, Started, Stored, Concat, LinesOf, Inv, ArchiveIsExplained, ArchiveFollows, Sorted;
    var s0 := Started(cfg, live, archive, ok, e);
    StartCarries(cfg, live, archive, ok, e);
    Conservation(cfg, s0, evs);
    WholeArchive(cfg, live, archive, ok, e, evs);
    FollowingExplains(cfg, archive, Run(cfg, s0, evs));
  }

  predicate ArchiveIsExplained(cfg: Config, older: seq<Gen>, s: State) {
    match cfg.rotation
    case None => s.archive == older
    case Some(r) =>
      && (FrontIsFree(r.policy.scheme, older) ==> Accounts(older, r.policy, s.rotated, s.archive))
      && (r.policy.scheme == Stamped && r.policy.limit == MaxAge ==> KeptByAge(older, r.policy, s.rotated, s.archive))
  }

  lemma {:induction false} FollowingExplains(cfg: Config, older: seq<Gen>, s: State)
    requires Sorted(older) && ArchiveFollows(cfg, older, s)
    ensures ArchiveIsExplained(cfg, older, s)
  {
    hide Sorted, Rounds, Accounts, KeptByAge, FrontIsFree;
    if cfg.rotation.Some? {
      var policy := cfg.rotation.value.policy;
      if FrontIsFree(policy.scheme, older) {
        RunsRefineTheList(older, policy, s.rotated);
      }
      if policy.scheme == Stamped && policy.limit == MaxAge {
        AgeKeepsExactly(older, policy, s.rotated);
      }
    }
  }

  lemma {:induction false} WholeArchive(cfg: Config, live: Option<Bytes>, archive: seq<Gen>, ok: bool, e: Env,
                                        evs: seq<Event>)
    requires Sorted(archive) && (HasAge(cfg) ==> ok)
    ensures ArchiveFollows(cfg, archive, Run(cfg, Started(cfg, live, archive, ok, e), evs))
  {
    CheckRotateFollows(cfg, archive, Reopen(Fresh(live, archive), ok), e);
    RunFollows(cfg, archive, Started(cfg, live, archive, ok, e), evs);
  }

  // ... in numbered form, from an empty archive, file by file.
  lemma {:induction false} WholeRunNumbered(cfg: Config, live: Option<Bytes>, ok: bool, e: Env, evs: seq<Event>)
    requires HasAge(cfg) ==> ok
    requires cfg.rotation.Some? && cfg.rotation.value.policy.scheme == Numbered
    requires !cfg.rotation.value.policy.limit.MaxAge?
    requires RunFits(cfg.rotation.value.policy, 0, |Run(cfg, Started(cfg, live, [], ok, e), evs).rotated|)
    ensures var s, p := Run(cfg, Started(cfg, live, [], ok, e), evs), cfg.rotation.value.policy;
            && |s.archive| == Keep(p.limit, |s.rotated|)
            && (forall i :: 0 <= i < |s.archive| ==>
                  s.archive[i] ==
                  Gen(i + 1, p.exclude.Some? && i + 1 > p.exclude.value, s.rotated[|s.rotated| - 1 - i].data))
            && (s.lost == 0 <==>
                  Concat(Datas(s.rotated)) + LiveBytes(s) + s.buf ==
                    (if live.Some? then live.value else []) + Concat(LinesOf(evs)))
  {
    hide Run, Started, Concat, LinesOf, Inv, Rounds, ArchiveIsExplained, RunFits, Keep, Datas;
    WholeRun(cfg, live, [], ok, e, evs);
    WholeArchive(cfg, live, [], ok, e, evs);
    NumberedRuns(cfg.rotation.value.policy, Run(cfg, Started(cfg, live, [], ok, e), evs).rotated);
  }

  // As long as the file could not be opened, flushing and rotating do nothing: every
  // line waits in the buffer.
  lemma {:induction false} NotOpenUntouched(cfg: Config, s: State, evs: seq<Event>)
    requires Inv(cfg, s) && Run(cfg, s, evs).fd == NotOpen
    ensures var t := Run(cfg, s, evs); t.live == s.live && t.rotated == s.rotated && t.lost == s.lost
  {
    if evs != [] {
      assert Run(cfg, s, evs[..|evs| - 1]).fd == NotOpen;
      NotOpenUntouched(cfg, s, evs[..|evs| - 1]);
    }
  }

  predicate Clean(ev: Event) {
    match ev
    case Line(_, e1, e2) => e1.dropped == 0 && e2.dropped == 0
    case ReopenMsg(_) => true
    case FlushMsg(_, e) => e.dropped == 0
    case Timeout(e) => e.dropped == 0
    case Disconnected(e) => e.dropped == 0
  }

  // No write reported an error while processing these messages.
  predicate AllClean(evs: seq<Event>) {
    forall i :: 0 <= i < |evs| ==> Clean(evs[i])
  }

  lemma {:induction false} CleanRunsLoseNothing(cfg: Config, s: State, evs: seq<Event>)
    requires AllClean(evs)
    ensures Run(cfg, s, evs).lost == s.lost
  {
    if evs != [] {
      CleanRunsLoseNothing(cfg, s, evs[..|evs| - 1]);
      CleanStepLosesNothing(cfg, Run(cfg, s, evs[..|evs| - 1]), evs[|evs| - 1]);
    }
  }

  lemma {:induction false} CleanStepLosesNothing(cfg: Config, s: State, ev: Event)
    requires Clean(ev)
    ensures Process(cfg, s, ev).lost == s.lost
  {
    hide Push, Cleaned, FreshSuffix, Sorted, NeedRotate;
  }

  // The tracked size is the length of the live file after every message, whatever was
  // rotated or reopened, as long as no write failed; in any case it is off by no more
  // than the bytes that failing writes left out.
  lemma {:induction false} TrackedSize(cfg: Config, live: Option<Bytes>, archive: seq<Gen>, ok: bool, e: Env,
                                       evs: seq<Event>)
    requires Sorted(archive) && (HasAge(cfg) ==> ok)
    ensures var s := Run(cfg, Started(cfg, live, archive, ok, e), evs);
            s.fd == OnLive ==>
              && s.live.Some? && |s.live.value| <= s.size <= |s.live.value| + s.lost
              && (AllClean(evs) ==> s.size == |s.live.value|)
  {
    var s0 := Started(cfg, live, archive, ok, e);
    assert Inv(cfg, Run(cfg, s0, evs));
    if AllClean(evs) {
      CleanRunsLoseNothing(cfg, s0, evs);
    }
  }

  predicate Young(ev: Event) {
    match ev
    case Line(_, e1, e2) => !e1.aged && !e2.aged
    case ReopenMsg(_) => true
    case FlushMsg(_, e) => !e.aged
    case Timeout(e) => !e.aged
    case Disconnected(e) => !e.aged
  }

  // No age check answers yes while these messages are processed.
  predicate AllYoung(evs: seq<Event>) {
    forall i :: 0 <= i < |evs| ==> Young(evs[i])
  }

  lemma {:induction false} YoungMessagesCloseNothing(cfg: Config, s: State, ev: Event)
    requires cfg.rotation.Some? && cfg.rotation.value.sizeLimit.None? && Young(ev)
    ensures Process(cfg, s, ev).rotated == s.rotated
  {
    hide Push, Cleaned, FreshSuffix, Sorted;
  }

  // Without a size limit no generation is closed unless an age check answers yes.
  lemma {:induction false} YoungRunsCloseNothing(cfg: Config, s: State, evs: seq<Event>)
    requires cfg.rotation.Some? && cfg.rotation.value.sizeLimit.None? && AllYoung(evs)
    ensures Run(cfg, s, evs).rotated == s.rotated
  {
    if evs != [] {
      YoungRunsCloseNothing(cfg, s, evs[..|evs| - 1]);
      YoungMessagesCloseNothing(cfg, Run(cfg, s, evs[..|evs| - 1]), evs[|evs| - 1]);
    }
  }
}
