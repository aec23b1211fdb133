// The buffered file sink as the program has it: a worker object with a buffer, a size
// counter, a descriptor and an optional rotation, changed in place.
module BufFile {
  import opened Common
  import opened Archive
  import opened Files
  import R = Rotation
  import opened Sink

  const FLUSH_SIZE_DEFAULT: nat := 4096

  // LogSinkBufFile::new: a flush size of 0 stands for the default, and a period that is
  // 0 or above one second for one second.
  function NormalFlushSize(flushSize: nat): (r: nat)
    ensures r == if flushSize == 0 then 4096 else flushSize
    ensures 0 < r
  {
    if flushSize == 0 then FLUSH_SIZE_DEFAULT else flushSize
  }

  function NormalFlushMillis(millis: nat): (r: nat)
    ensures 0 < r <= 1000 && (0 < millis <= 1000 ==> r == millis) && (millis == 0 || millis > 1000 ==> r == 1000)
  {
    if millis == 0 || millis > 1000 then 1000 else millis
  }

  lemma {:induction false} RunNothing(cfg: Config, s: State)
    requires Inv(cfg, s)
    ensures Run(cfg, s, []) == s
  {
  }

  lemma {:induction false} WriteOutKeepsInv(cfg: Config, s: State, dropped: nat)
    requires Inv(cfg, s) && s.fd == OnLive
    ensures Inv(cfg, WriteOut(s, dropped))
  {
  }

  lemma {:induction false} WrittenIsPrefix(s: State, dropped: nat)
    ensures |Written(s, dropped)| == if dropped <= |s.buf| then |s.buf| - dropped else 0
    ensures Written(s, dropped) == s.buf[..|Written(s, dropped)|]
  {
  }

  lemma {:induction false} WritesAddUp(content: Bytes, buf: Bytes, p: nat, r: int)
    requires p <= |buf| && r <= |buf| - p
    ensures r >= 0 ==> (content + buf[..p]) + buf[p..][..r] == content + buf[..p + r]
  {
    if r >= 0 {
      assert buf[..p + r] == buf[..p] + buf[p..][..r];
    }
  }

  lemma {:induction false} BeginsValid(cfg: Config, live: Option<Bytes>, archive: seq<Gen>, ok: bool, e: Env)
    requires Sorted(archive) && (HasAge(cfg) ==> ok)
    ensures Inv(cfg, Sink.Reopen(Fresh(live, archive), ok))
  {
  }

  // A request to reopen that succeeded.
  predicate Reopened(evs: seq<Event>) {
    ReopenMsg(true) in evs
  }

  lemma {:induction false} MessageLeavesLive(cfg: Config, s: State, ev: Event)
    requires Inv(cfg, s)
    ensures Process(cfg, s, ev).live.Some? <==> s.live.Some? || ev == ReopenMsg(true)
  {
    hide Push, Cleaned, FreshSuffix, Sorted;
  }

  // The live file is there after every message exactly when it was there before or the
  // worker could open it.
  lemma {:induction false} LiveExactly(cfg: Config, s: State, evs: seq<Event>)
    requires Inv(cfg, s)
    ensures Run(cfg, s, evs).live.Some? <==> s.live.Some? || Reopened(evs)
  {
    if evs != [] {
      var init, ev := evs[..|evs| - 1], evs[|evs| - 1];
      LiveExactly(cfg, s, init);
      assert evs == init + [ev];
      hide Process;
      RunSnoc(cfg, s, init, ev);
      MessageLeavesLive(cfg, Run(cfg, s, init), ev);
    }
  }

  lemma {:induction false} StartedLive(cfg: Config, live: Option<Bytes>, archive: seq<Gen>, ok: bool, e: Env)
    requires Sorted(archive) && (HasAge(cfg) ==> ok)
    ensures Started(cfg, live, archive, ok, e).live.Some? <==> live.Some? || ok
  {
  }

  class LogRotate {
    const limits: Sink.Plan
    const backend: R.Backend
    // th: a spawned cleanup thread that nobody has joined yet.
    var th: bool

    ghost predicate Valid()
      reads this, backend, backend.disk
    {
      backend.Valid() && backend.policy == limits.policy
    }

    constructor (limits: Sink.Plan, backend: R.Backend)
      requires backend.Valid() && backend.policy == limits.policy
      ensures Valid() && this.limits == limits && this.backend == backend && !th
    {
      this.limits := limits;
      this.backend := backend;
      th := false;
    }

    // Joins the last cleanup.
    method Wait()
      modifies this`th
      ensures !th
    {
      if th {
        th := false;
      }
    }

    // Rotates when the age or the size asks for it. The spawned cleanup runs here; see
    // Protocol.dfy for every other moment at which it may run.
    method Rotate(size: nat, e: Env) returns (rotated: bool)
      requires Valid()
      requires backend.disk.fd == Closed || backend.disk.fd == At(Log)
      requires (limits.hasAge && e.aged) || (limits.sizeLimit.Some? && size > limits.sizeLimit.value) ==>
                 backend.disk.fd == At(Log) && Log in backend.disk.files
      modifies this`th, backend, backend.disk
      ensures Valid()
      ensures rotated <==> (limits.hasAge && e.aged) || (limits.sizeLimit.Some? && size > limits.sizeLimit.value)
      ensures !rotated ==> th == old(th) && backend.gens == old(backend.gens)
                           && backend.disk.files == old(backend.disk.files) && backend.disk.fd == old(backend.disk.fd)
      ensures rotated ==> var k := FreshSuffix(limits.policy.scheme, old(backend.gens), e.now);
                && th && Log !in backend.disk.files && backend.disk.fd != At(Log)
                && var pushed := Push(old(backend.gens), k, false, old(backend.disk.files)[Log]);
                   backend.gens == Cleaned(pushed, limits.policy, e.horizon)
    {
      var needRotate := false;
      if limits.hasAge && e.aged {
        needRotate := true;
      }
      if limits.sizeLimit.Some? && size > limits.sizeLimit.value {
        needRotate := true;
      }
      if !needRotate {
        return false;
      }
      Wait();
      backend.RenameFiles(e.now);
      backend.HandleOldFiles(e.horizon);
      th := true;
      return true;
    }
  }

  class BufFileInner {
    const flushSize: nat
    const disk: Disk
    const rotate: LogRotate?
    var size: nat
    var buf: Bytes
    // What happened so far, for the specification only.
    ghost var rotated: seq<Rotated>
    ghost var lost: nat

    ghost function Repr(): set<object> {
      {this, disk} + if rotate == null then {} else {rotate, rotate.backend}
    }

    ghost function Cfg(): Config {
      Config(flushSize, if rotate == null then None else Some(rotate.limits))
    }

    ghost function Desc(h: Handle): Descriptor {
      match h
      case At(Log) => OnLive
      case At(Archived(k, _)) => OnArchived(k)
      case _ => NotOpen
    }

    ghost function View(): State
      reads Repr()
    {
      State(size, Desc(disk.fd), if Log in disk.files then Some(disk.files[Log]) else None, buf,
            if rotate == null then [] else rotate.backend.gens, rotate != null && rotate.th, rotated, lost)
    }

    ghost predicate Valid()
      reads Repr()
    {
      && disk.fd != Orphan
      && (rotate != null ==> rotate.backend.disk == disk && rotate.Valid())
      && Inv(Cfg(), View())
    }

    // Nothing is open yet; the archive is whatever the scan found.
    constructor (flushSize: nat, disk: Disk, rotate: LogRotate?)
      requires rotate != null ==> rotate.backend.disk == disk && rotate.Valid() && !rotate.th
      requires disk.fd == Closed
      ensures this.flushSize == NormalFlushSize(flushSize) && this.disk == disk && this.rotate == rotate
      ensures View() == Fresh(if Log in disk.files then Some(disk.files[Log]) else None,
                              if rotate == null then [] else rotate.backend.gens)
    {
      this.flushSize := NormalFlushSize(flushSize);
      this.disk := disk;
      this.rotate := rotate;
      size, buf, rotated, lost := 0, [], [], 0;
    }

    method Reopen(ok: bool)
      modifies this`size, disk
      ensures View() == Sink.Reopen(old(View()), ok)
      ensures disk.files - {Log} == old(disk.files) - {Log}
      ensures disk.fd == if ok then At(Log) else old(disk.fd)
    {
      if ok {
        disk.OpenLog();
        size := |disk.files[Log]|;
      }
    }

    method CheckRotate(e: Env)
      requires Valid()
      modifies Repr()
      ensures Valid() && View() == Sink.CheckRotate(Cfg(), old(View()), e)
    {
      hide Push, Cleaned, FilesOf, Sorted, Infos, FreshSuffix;
      if rotate != null {
        ghost var s := View();
        var done := rotate.Rotate(size, e);
        if done {
          rotated := rotated + [Rotated(e.now, e.horizon, s.live.value)];
          Reopen(true);
        }
      }
    }

    // The loop around write(2): it ends with exactly the buffer appended, or with the
    // part that fitted before an error.
    method WriteAll(room: nat)
      requires disk.fd == At(Log) && Log in disk.files
      modifies disk`files
      ensures Log in disk.files && disk.files - {Log} == old(disk.files) - {Log}
      ensures disk.files[Log] == old(disk.files)[Log] + buf[..if room < |buf| then room else |buf|]
    {
      var p, l, left := 0, |buf|, room;
      while true
        invariant 0 <= p && 0 <= l && p + l == |buf| && p + left == room && 0 <= left
        invariant Log in disk.files && disk.files - {Log} == old(disk.files) - {Log}
        invariant disk.files[Log] == old(disk.files)[Log] + buf[..p]
        decreases l
      {
        var r := disk.Write(buf[p..], left);
        WritesAddUp(old(disk.files)[Log], buf, p, r);
        if r == l || r < 0 {
          break;
        }
        left := left - r;
        l := l - r;
        p := p + r;
      }
    }

    method WriteBuffer(e: Env)
      requires Valid() && disk.fd == At(Log)
      modifies Repr()
      ensures Valid() && View() == WriteOut(old(View()), e.dropped)
      ensures disk.fd == old(disk.fd)
    {
      WriteOutKeepsInv(Cfg(), View(), e.dropped);
      WrittenIsPrefix(View(), e.dropped);
      assert Log in disk.files;
      hide Inv, FilesOf, Sorted, Infos, Written;
      size := size + |buf|;
      WriteAll(if e.dropped <= |buf| then |buf| - e.dropped else 0);
      lost := lost + |buf| - |Written(old(View()), e.dropped)|;
      buf := [];
    }

    method Flush(waitRotate: bool, e: Env)
      requires Valid()
      modifies Repr()
      ensures Valid() && View() == Sink.Flush(Cfg(), old(View()), waitRotate, e)
    {
      ghost var t := Sink.Flush(Cfg(), View(), waitRotate, e);
      assert Inv(Cfg(), t);
      hide Inv, WriteOut, Sink.CheckRotate, FilesOf, Sorted, Infos;
      if disk.fd == At(Log) {
        WriteBuffer(e);
        CheckRotate(e);
      }
      if waitRotate && rotate != null {
        rotate.Wait();
      }
    }

    method Write(s: Bytes, before: Env, after: Env)
      requires Valid()
      modifies Repr()
      ensures Valid() && View() == Sink.Write(Cfg(), old(View()), s, before, after)
    {
      if |buf| + |s| > flushSize && buf != [] {
        Flush(false, before);
      }
      buf := buf + s;
      if |buf| >= flushSize {
        Flush(false, after);
      }
    }

    // What one outcome of a receive leads to.
    method Handle(ev: Event)
      requires Valid()
      modifies Repr()
      ensures Valid() && View() == Process(Cfg(), old(View()), ev)
    {
      ghost var t := Process(Cfg(), View(), ev);
      assert Inv(Cfg(), t);
      hide Sink.Write, Sink.Flush, Sink.Reopen, Inv, FilesOf, Sorted, Infos;
      match ev
      case Line(line, before, after) => Write(line, before, after);
      case ReopenMsg(ok) => Reopen(ok);
      case FlushMsg(_, e) => Flush(true, e);
      case Timeout(e) => Flush(false, e);
      case Disconnected(e) => Flush(true, e);
    }

    // log_writer, on the outcomes of its receives, up to the end of the channel.
    method LogWriter(opens: bool, first: Env, evs: seq<Event>)
      requires rotate != null ==> rotate.backend.disk == disk && rotate.Valid()
      requires disk.fd == Closed && (HasAge(Cfg()) ==> opens)
      requires var live := if Log in disk.files then Some(disk.files[Log]) else None;
               View() == Fresh(live, if rotate == null then [] else rotate.backend.gens)
      modifies Repr()
      ensures Valid()
      ensures View() == Run(Cfg(), Started(Cfg(), old(View()).live, old(View()).archive, opens, first), evs)
    {
      ghost var s0 := Started(Cfg(), View().live, View().archive, opens, first);
      BeginsValid(Cfg(), View().live, View().archive, opens, first);
      hide Process, Sink.CheckRotate, Sink.Reopen, Inv, FilesOf, Sorted, Infos, Run;
      Reopen(opens);
      CheckRotate(first);
      RunNothing(Cfg(), s0);
      assert evs[..0] == [];
      for i := 0 to |evs|
        invariant Valid()
        invariant View() == Run(Cfg(), s0, evs[..i])
      {
        assert evs[..i + 1] == evs[..i] + [evs[i]];
        RunSnoc(Cfg(), s0, evs[..i], evs[i]);
        Handle(evs[i]);
      }
      assert evs[..|evs|] == evs;
    }

    // What LogWriter leaves on disk in numbered form, from an empty archive: base.i is
    // the i-th most recent generation for i up to min(k, m), as .gz exactly when i > n,
    // the log is there exactly if it was or could be opened, and no other file is.
    lemma {:induction false} NumberedFiles(live: Option<Bytes>, opens: bool, first: Env, evs: seq<Event>)
      requires Valid() && rotate != null && (HasAge(Cfg()) ==> opens)
      requires rotate.limits.policy.scheme == Numbered && !rotate.limits.policy.limit.MaxAge?
      requires View() == Run(Cfg(), Started(Cfg(), live, [], opens, first), evs)
      requires RunFits(rotate.limits.policy, 0, |rotated|)
      ensures var p, k := rotate.limits.policy, |rotated|;
              && (forall i, gz :: Archived(i, gz) in disk.files <==>
                  1 <= i <= Keep(p.limit, k) && gz == Zips(p.exclude, i))
              && (forall i :: 1 <= i <= Keep(p.limit, k) ==>
                  disk.files[Archived(i, Zips(p.exclude, i))] == rotated[k - i].data)
              && (Log in disk.files <==> live.Some? || opens || Reopened(evs))
              && (lost == 0 <==>
                    Concat(Datas(rotated)) + (if Log in disk.files then disk.files[Log] else []) + buf ==
                    (if live.Some? then live.value else []) + Concat(LinesOf(evs)))
    {
      hide Run, Started, Inv, FilesOf, RunFits, Keep, Concat, Datas, LinesOf;
      var p, k := rotate.limits.policy, |rotated|;
      WholeRunNumbered(Cfg(), live, opens, first, evs);
      NumberedPaths(View().archive, p.exclude, disk.files);
      StartedLive(Cfg(), live, [], opens, first);
      LiveExactly(Cfg(), Started(Cfg(), live, [], opens, first), evs);
      forall i | 1 <= i <= Keep(p.limit, k)
        ensures disk.files[Archived(i, Zips(p.exclude, i))] == rotated[k - i].data
      {
        assert View().archive[i - 1].data == rotated[k - i].data;
      }
    }
  }
}
