// The threads on the files themselves: the cleanup thread removes and compresses file by
// file, with the index behind it, while the worker writes and reopens the log. Beside each
// world runs the state of Protocol, on the list of generations; the two stay tied together.
module Threads {
  import opened Common
  import opened Archive
  import opened Files
  import opened Sink
  import opened Protocol
  import R = Rotation

  // Where handle_old_files is. While it removes, `i` counts the entries not looked at yet and
  // the index still has all of them; `half` is between the two steps of one compression, with
  // the .gz file complete and the plain one still there.
  datatype Cleanup = NoCleanup | Removing(horizon: int, i: nat) | Compressing(at: nat, half: bool) | Ended

  datatype World = World(c: Conc, files: map<Path, Bytes>, index: seq<Info>, cleanup: Cleanup)

  predicate Running(k: Cleanup) {
    k.Removing? || k.Compressing?
  }

  function PolicyOf(cfg: Config): Policy {
    RotationOf(cfg).policy
  }

  // ------------------------------------------------------------- steps on the disk

  // The entry before rank `at` is to be compressed.
  predicate Compresses(policy: Policy, index: seq<Info>, at: nat) {
    ZipFrom(|index|, policy.exclude) < at <= |index| && !index[at - 1].compressed
  }

  // One step of the cleanup thread.
  function CleanStep(policy: Policy, w: World): World {
    var index, files := w.index, w.files;
    match w.cleanup
    case Removing(h, i) =>
      if 0 < i <= |index| && TooOld(policy.limit, h, index[i - 1].suffix, i - 1) then
        w.(files := files - {PathOf(index[i - 1])}, cleanup := Removing(h, i - 1))
      else
        var cut := if i <= |index| then index[..i] else index;
        w.(index := cut, cleanup := Compressing(|cut|, false))
    case Compressing(at, half) =>
      if Compresses(policy, index, at) then
        var plain, gz := Archived(index[at - 1].suffix, false), Archived(index[at - 1].suffix, true);
        if half then
          w.(files := files - {plain}, index := index[at - 1 := Info(index[at - 1].suffix, true)],
             cleanup := Compressing(at - 1, false))
        else
          w.(files := if plain in files then files[gz := files[plain]] else files, cleanup := Compressing(at, true))
      else if ZipFrom(|index|, policy.exclude) < at <= |index| then w.(cleanup := Compressing(at - 1, false))
      else w.(cleanup := Ended)
    case _ => w
  }

  function Opened(files: map<Path, Bytes>): map<Path, Bytes> {
    if Log in files then files else files[Log := []]
  }

  // What the index and the files stand for.
  function Listed(index: seq<Info>, files: map<Path, Bytes>): (a: seq<Gen>)
    ensures |a| == |index|
    ensures forall i :: 0 <= i < |a| ==>
              a[i] == Gen(index[i].suffix, index[i].compressed,
                if PathOf(index[i]) in files then files[PathOf(index[i])] else [])
  {
    seq(|index|, i requires 0 <= i < |index| =>
      Gen(index[i].suffix, index[i].compressed, if PathOf(index[i]) in files then files[PathOf(index[i])] else []))
  }

  // rename_files, which runs on the worker's own thread: Rotation.Backend.RenameFiles.
  function Renamed(policy: Policy, w: World, now: int): World {
    if Log !in w.files then w
    else
      var a := Listed(w.index, w.files);
      var b := Push(a, FreshSuffix(policy.scheme, a, now), false, w.files[Log]);
      w.(files := FilesOf(b), index := Infos(b))
  }

  // What one step of the worker does to the files and the index.
  function WorkStep(cfg: Config, w: World, op: Op): World {
    match op
    case WriteBuf(e) =>
      if w.c.s.fd == OnLive && Log in w.files then
        w.(files := w.files[Log := w.files[Log] + Written(w.c.s, e.dropped)])
      else w
    case Open(ok) => if ok then w.(files := Opened(w.files)) else w
    case Rotate(stage, e) =>
      if stage == 2 then Renamed(PolicyOf(cfg), w, e.now)
      else if stage > 3 then w.(files := Opened(w.files))
      else w
    case _ => w
  }

  function NextCleanup(w: World, op: Op): Cleanup {
    if op.Join? || (op.Rotate? && op.stage == 0) then NoCleanup
    else if op.Rotate? && op.stage == 3 then Removing(op.env.horizon, |w.index|)
    else w.cleanup
  }

  predicate Joins(op: Op) {
    op.Join? || (op.Rotate? && op.stage == 0)
  }

  predicate Possible(cfg: Config, w: World, a: Action) {
    match a
    case JobStep => Running(w.cleanup)
    case Work => w.c.todo != [] && (Joins(w.c.todo[0]) ==> w.c.s.unjoined ==> !Running(w.cleanup))
    case _ => Enabled(cfg, w.c, a)
  }

  // Writing the .gz file is a step of the disk alone.
  predicate DiskOnly(cfg: Config, w: World, a: Action) {
    a.JobStep? && w.cleanup.Compressing? && !w.cleanup.half && Compresses(PolicyOf(cfg), w.index, w.cleanup.at)
  }

  function Follow(cfg: Config, w: World, a: Action): Conc {
    if !DiskOnly(cfg, w, a) && Enabled(cfg, w.c, a) then Next(cfg, w.c, a) else w.c
  }

  function Onwards(cfg: Config, w: World, a: Action): World
    requires Possible(cfg, w, a)
  {
    var d :=
      match a
      case JobStep => CleanStep(PolicyOf(cfg), w)
      case Work => WorkStep(cfg, w, w.c.todo[0]).(cleanup := NextCleanup(w, w.c.todo[0]))
      case _ => w;
    d.(c := Follow(cfg, w, a))
  }

  predicate CanRun(cfg: Config, w: World, acts: seq<Action>)
    decreases |acts|
  {
    acts == [] || (Possible(cfg, w, acts[0]) && CanRun(cfg, Onwards(cfg, w, acts[0]), acts[1..]))
  }

  function Reached(cfg: Config, w: World, acts: seq<Action>): World
    requires CanRun(cfg, w, acts)
    decreases |acts|
  {
    if acts == [] then w else Reached(cfg, Onwards(cfg, w, acts[0]), acts[1..])
  }

  // ------------------------------------------------------- tied to the list

  predicate JobsTied(policy: Policy, w: World) {
    var a := w.c.s.archive;
    match w.cleanup
    case NoCleanup => w.c.job == NoJob
    case Removing(h, i) => w.c.job == Cutting(h) && i == |a| <= |w.index|
    case Compressing(at, half) =>
      w.c.job == Zipping(at) && at <= |a| && (half ==> Compresses(policy, w.index, at))
    case Ended => w.c.job == Finished
  }

  predicate IndexTied(w: World) {
    var a := w.c.s.archive;
    if w.cleanup.Removing? then |a| <= |w.index| && w.index[..|a|] == Infos(a) else w.index == Infos(a)
  }

  // The archived files are those of the list; in the middle of a compression there is one more.
  predicate FilesTied(w: World) {
    var a := w.c.s.archive;
    if w.cleanup.Compressing? && w.cleanup.half && 0 < w.cleanup.at <= |a| then
      var g := a[w.cleanup.at - 1];
      w.files - {Log} == FilesOf(a)[Archived(g.suffix, true) := g.data]
    else w.files - {Log} == FilesOf(a)
  }

  predicate LogTied(files: map<Path, Bytes>, s: State) {
    (Log in files <==> s.live.Some?) && (Log in files ==> files[Log] == s.live.value)
  }

  predicate Tied(policy: Policy, w: World) {
    Sorted(w.c.s.archive) && JobsTied(policy, w) && IndexTied(w) && FilesTied(w) && LogTied(w.files, w.c.s)
  }

  // ---------------------------------------------------------- the cleanup thread

  lemma {:induction false} RemovingStaysTied(cfg: Config, w: World)
    requires Tied(PolicyOf(cfg), w) && w.cleanup.Removing?
    ensures Tied(PolicyOf(cfg), Onwards(cfg, w, JobStep))
  {
    hide FilesOf, TooOld, ZipFrom, Sorted;
    var a := w.c.s.archive;
    var i := |a|;
    assert a[..i] == a;
    if i > 0 && TooOld(PolicyOf(cfg).limit, w.cleanup.horizon, a[i - 1].suffix, i - 1) {
      assert w.index[i - 1] == w.index[..i][i - 1] == InfoOf(a[i - 1]);
      R.LastFile(a, i - 1, w.files);
      PrefixIsSorted(a, i - 1);
      assert w.index[..i - 1] == w.index[..i][..i - 1];
      assert Infos(a)[..i - 1] == Infos(a[..i - 1]);
    } else if i > 0 {
      assert w.index[i - 1] == w.index[..i][i - 1] == InfoOf(a[i - 1]);
    }
  }

  lemma {:induction false} PrefixIsSorted(a: seq<Gen>, n: nat)
    requires Sorted(a) && n <= |a|
    ensures Sorted(a[..n])
  {
  }

  lemma {:induction false} CompressingStaysTied(cfg: Config, w: World)
    requires Tied(PolicyOf(cfg), w) && w.cleanup.Compressing?
    ensures Tied(PolicyOf(cfg), Onwards(cfg, w, JobStep))
  {
    hide FilesOf, ZipFrom, Sorted;
    var a, at := w.c.s.archive, w.cleanup.at;
    if Compresses(PolicyOf(cfg), w.index, at) {
      assert w.index[at - 1] == InfoOf(a[at - 1]);
      if w.cleanup.half {
        SecondHalf(a, at - 1, w.files);
        assert Infos(a)[at - 1 := Info(a[at - 1].suffix, true)] == Infos(a[at - 1 := a[at - 1].(compressed := true)]);
      } else {
        FirstHalf(a, at - 1, w.files);
      }
    } else if ZipFrom(|a|, PolicyOf(cfg).exclude) < at <= |a| {
      assert w.index[at - 1] == InfoOf(a[at - 1]);
      assert a[at - 1 := a[at - 1].(compressed := true)] == a;
    }
  }

  lemma {:induction false} FirstHalf(a: seq<Gen>, r: nat, files: map<Path, Bytes>)
    requires Sorted(a) && r < |a| && !a[r].compressed && files - {Log} == FilesOf(a)
    ensures var plain, gz := Archived(a[r].suffix, false), Archived(a[r].suffix, true);
            plain in files && files[gz := files[plain]] - {Log} == FilesOf(a)[gz := a[r].data]
  {
    var plain := Archived(a[r].suffix, false);
    FilesOfContents(a);
    assert a[r] in a && PathOf(InfoOf(a[r])) == plain;
    assert (files - {Log})[plain] == files[plain];
  }

  lemma {:induction false} SecondHalf(a: seq<Gen>, r: nat, files: map<Path, Bytes>)
    requires Sorted(a) && r < |a| && !a[r].compressed
    requires files - {Log} == FilesOf(a)[Archived(a[r].suffix, true) := a[r].data]
    ensures var b := a[r := a[r].(compressed := true)];
            Sorted(b) && (files - {Archived(a[r].suffix, false)}) - {Log} == FilesOf(b)
  {
    var plain, gz := Archived(a[r].suffix, false), Archived(a[r].suffix, true);
    FilesAreArchived(a);
    assert FilesOf(a) - {Log} == FilesOf(a);
    R.OneFile(a, r, FilesOf(a));
    FilesOfContents(a);
    assert a[r] in a;
    FilesAreArchived(a[r := a[r].(compressed := true)]);
    hide FilesOf, Sorted;
    assert (files - {plain}) - {Log} == (files - {Log}) - {plain};
  }

  // A step is possible on the disk exactly when it is on the list.
  lemma {:induction false} SameSteps(cfg: Config, w: World, a: Action)
    requires Tied(PolicyOf(cfg), w)
    ensures Possible(cfg, w, a) <==> Enabled(cfg, w.c, a)
  {
  }

  // ------------------------------------------------------------------ the worker

  lemma {:induction false} ListedIsArchive(w: World)
    requires Sorted(w.c.s.archive) && w.index == Infos(w.c.s.archive) && w.files - {Log} == FilesOf(w.c.s.archive)
    ensures Listed(w.index, w.files) == w.c.s.archive
  {
    IndexAndDiskAgree(w.c.s.archive, w.index, w.files);
  }

  lemma {:induction false} RenameStaysTied(cfg: Config, w: World, e: Env)
    requires Tied(PolicyOf(cfg), w) && Good(cfg, w.c) && w.c.todo != [] && w.c.todo[0] == Rotate(2, e)
    ensures Tied(PolicyOf(cfg), Onwards(cfg, w, Work))
  {
    hide FilesOf, Push, FreshSuffix, WellFormed, Fifo, ExitsLast, Sorted;
    ListedIsArchive(w);
    var a := w.c.s.archive;
    var k := FreshSuffix(PolicyOf(cfg).scheme, a, e.now);
    PushKeepsSorted(a, k, false, w.files[Log]);
    var b := Push(a, k, false, w.files[Log]);
    FilesAreArchived(b);
    assert FilesOf(b) - {Log} == FilesOf(b);
  }

  // Every other step of the worker leaves the archive alone, in the list and on disk ...
  lemma {:induction false} WorkLeavesArchive(cfg: Config, w: World)
    requires Descriptors(cfg, w.c) && w.c.todo != [] && Enabled(cfg, w.c, Work)
    requires Possible(cfg, w, Work) && !(w.c.todo[0].Rotate? && w.c.todo[0].stage == 2)
    ensures var d := Onwards(cfg, w, Work);
            && d.c.s.archive == w.c.s.archive && d.index == w.index && d.files - {Log} == w.files - {Log}
            && d.cleanup == NextCleanup(w, w.c.todo[0]) && d.c.job == NextJob(w.c, w.c.todo[0])
  {
    hide Push, FreshSuffix, NoRoom, Rotates, Written, LiveBytes;
  }

  // ... and the live file is what the state says.
  lemma {:induction false} WorkKeepsLog(cfg: Config, w: World)
    requires Descriptors(cfg, w.c) && w.c.todo != [] && Enabled(cfg, w.c, Work) && LogTied(w.files, w.c.s)
    requires Possible(cfg, w, Work) && !(w.c.todo[0].Rotate? && w.c.todo[0].stage == 2)
    ensures LogTied(Onwards(cfg, w, Work).files, Onwards(cfg, w, Work).c.s)
  {
    hide Push, FreshSuffix, NoRoom, Rotates, Written, NextJob, NextCleanup;
  }

  lemma {:induction false} WorkStaysTied(cfg: Config, w: World)
    requires Tied(PolicyOf(cfg), w) && Good(cfg, w.c) && Possible(cfg, w, Work)
    requires !(w.c.todo[0].Rotate? && w.c.todo[0].stage == 2)
    ensures Tied(PolicyOf(cfg), Onwards(cfg, w, Work))
  {
    hide FilesOf, WellFormed, Fifo, ExitsLast, Sorted, Descriptors, Onwards, LogTied, Enabled;
    SameSteps(cfg, w, Work);
    WorkLeavesArchive(cfg, w);
    WorkKeepsLog(cfg, w);
  }

  lemma {:induction false} StaysTied(cfg: Config, w: World, a: Action)
    requires Tied(PolicyOf(cfg), w) && Good(cfg, w.c) && Possible(cfg, w, a)
    ensures Tied(PolicyOf(cfg), Onwards(cfg, w, a))
  {
    match a
    case JobStep =>
      if w.cleanup.Removing? {
        RemovingStaysTied(cfg, w);
      } else {
        CompressingStaysTied(cfg, w);
      }
    case Work =>
      if w.c.todo[0].Rotate? && w.c.todo[0].stage == 2 {
        RenameStaysTied(cfg, w, w.c.todo[0].env);
      } else {
        WorkStaysTied(cfg, w);
      }
    case _ =>
  }

  // ------------------------------------------------------------------ whole runs

  ghost predicate Fine(cfg: Config, w: World, s0: State) {
    Tied(PolicyOf(cfg), w) && Good(cfg, w.c) && Destination(cfg, w.c) == Sink.Run(cfg, s0, w.c.received)
  }

  lemma {:induction false} StaysFine(cfg: Config, w: World, a: Action, s0: State)
    requires Fine(cfg, w, s0) && Possible(cfg, w, a)
    ensures Fine(cfg, Onwards(cfg, w, a), s0)
  {
    hide Tied, Good, Destination, Sink.Run, CleanStep, WorkStep, Enabled, Next, DiskOnly, Possible;
    StaysTied(cfg, w, a);
    SameSteps(cfg, w, a);
    if !DiskOnly(cfg, w, a) {
      NextKeepsGood(cfg, w.c, a);
      NextDestination(cfg, w.c, a, s0);
    }
  }

  lemma {:induction false} RunsAreFine(cfg: Config, w: World, acts: seq<Action>, s0: State)
    requires Fine(cfg, w, s0) && CanRun(cfg, w, acts)
    ensures Fine(cfg, Reached(cfg, w, acts), s0)
    decreases |acts|
  {
    hide Fine, Possible, Onwards;
    if acts != [] {
      StaysFine(cfg, w, acts[0], s0);
      RunsAreFine(cfg, Onwards(cfg, w, acts[0]), acts[1..], s0);
    }
  }

  function LogOf(files: map<Path, Bytes>): Option<Bytes> {
    if Log in files then Some(files[Log]) else None
  }

  // The worker before its first step, on a directory that the scan has read.
  ghost function Start(files: map<Path, Bytes>, index: seq<Info>, opens: bool, first: Env): World
    requires forall i :: 0 <= i < |index| ==> PathOf(index[i]) in files
  {
    World(Begin(LogOf(files), GensOf(index, files), opens, first), files, index, NoCleanup)
  }

  lemma {:induction false} StartIsFine(cfg: Config, files: map<Path, Bytes>, index: seq<Info>, opens: bool, first: Env)
    requires Ascending(index) && Agrees(index, files) && forall i :: 0 <= i < |index| ==> PathOf(index[i]) in files
    requires HasAge(cfg) ==> opens
    ensures Sorted(GensOf(index, files))
    ensures Fine(cfg, Start(files, index, opens, first), Started(cfg, LogOf(files), GensOf(index, files), opens, first))
  {
    hide Good, Destination, Sink.Run, Started, FilesOf;
    AgreementIsEnough(index, files);
    BeginIsGood(cfg, LogOf(files), GensOf(index, files), opens, first);
    NothingReceived(cfg, Started(cfg, LogOf(files), GensOf(index, files), opens, first));
  }

  lemma {:induction false} NothingReceived(cfg: Config, s0: State)
    ensures Sink.Run(cfg, s0, []) == s0
  {
  }

  // At every moment of every interleaving, also in the middle of a cleanup, each generation
  // that is not deleted is there as a complete file in the form the list has it in.
  lemma {:induction false} AlwaysOnDisk(cfg: Config, files: map<Path, Bytes>, index: seq<Info>, opens: bool, first: Env,
                                        acts: seq<Action>)
    requires Ascending(index) && Agrees(index, files) && forall i :: 0 <= i < |index| ==> PathOf(index[i]) in files
    requires (HasAge(cfg) ==> opens) && CanRun(cfg, Start(files, index, opens, first), acts)
    ensures var d := Reached(cfg, Start(files, index, opens, first), acts);
            && (forall g :: g in d.c.s.archive ==>
                  PathOf(InfoOf(g)) in d.files && d.files[PathOf(InfoOf(g))] == g.data)
            && LogTied(d.files, d.c.s)
            && (!Running(d.cleanup) ==> Agrees(d.index, d.files))
  {
    var w := Start(files, index, opens, first);
    StartIsFine(cfg, files, index, opens, first);
    RunsAreFine(cfg, w, acts, Started(cfg, LogOf(files), GensOf(index, files), opens, first));
    TiedIsOnDisk(PolicyOf(cfg), Reached(cfg, w, acts));
  }

  lemma {:induction false} TiedIsOnDisk(policy: Policy, w: World)
    requires Tied(policy, w)
    ensures forall g :: g in w.c.s.archive ==>
              PathOf(InfoOf(g)) in w.files && w.files[PathOf(InfoOf(g))] == g.data
    ensures !Running(w.cleanup) ==> Agrees(w.index, w.files)
  {
    hide FilesOf, Agrees;
    var a := w.c.s.archive;
    FilesOfContents(a);
    if !Running(w.cleanup) {
      IndexAndDiskAgree(a, w.index, w.files);
    }
    forall g | g in a
      ensures PathOf(InfoOf(g)) in w.files && w.files[PathOf(InfoOf(g))] == g.data
    {
      assert PathOf(InfoOf(g)) in w.files - {Log};
    }
  }

  // End to end on the files: for every configuration, from any directory the scan can read,
  // whatever the interleaving, once the queue is empty and the threads are at rest, index and
  // files agree, the archived files are the tidied newest part of all generations, and -
  // exactly if no write failed - all generations ever made, the log and the buffer together
  // are what the log held and then every line sent.
  lemma {:induction false} EndToEndOnDisk(cfg: Config, files: map<Path, Bytes>, index: seq<Info>, opens: bool,
                                          first: Env, acts: seq<Action>)
    requires Ascending(index) && Agrees(index, files) && forall i :: 0 <= i < |index| ==> PathOf(index[i]) in files
    requires (HasAge(cfg) ==> opens) && CanRun(cfg, Start(files, index, opens, first), acts)
    requires var d := Reached(cfg, Start(files, index, opens, first), acts);
             d.c.todo == [] && d.c.queue == [] && !Running(d.cleanup)
    ensures var d := Reached(cfg, Start(files, index, opens, first), acts);
            && d.index == Infos(d.c.s.archive) && d.files - {Log} == FilesOf(d.c.s.archive) && Agrees(d.index, d.files)
            && ArchiveIsExplained(cfg, GensOf(index, files), d.c.s)
            && (d.c.s.lost == 0 <==>
                  Concat(Datas(d.c.s.rotated)) + (if Log in d.files then d.files[Log] else []) + d.c.s.buf ==
                  (if Log in files then files[Log] else []) + Concat(SentLines(d.c.sent)))
  {
    hide Start, Started, Sink.Run, CanRun, Reached, Concat, Datas, SentLines, LinesOf, ArchiveIsExplained, FilesOf,
        Messages, Agrees;
    var w, archive := Start(files, index, opens, first), GensOf(index, files);
    var s0 := Started(cfg, LogOf(files), archive, opens, first);
    StartIsFine(cfg, files, index, opens, first);
    RunsAreFine(cfg, w, acts, s0);
    var d := Reached(cfg, w, acts);
    AtRestOnDisk(cfg, d, s0);
    WholeRun(cfg, LogOf(files), archive, opens, first, d.c.received);
    LinesAreSent(d.c.received);
    TiedIsOnDisk(PolicyOf(cfg), d);
  }

  lemma {:induction false} AtRestOnDisk(cfg: Config, d: World, s0: State)
    requires Fine(cfg, d, s0) && d.c.todo == [] && d.c.queue == [] && !Running(d.cleanup)
    ensures d.c.s == Sink.Run(cfg, s0, d.c.received) && d.c.sent == Messages(d.c.received)
    ensures d.index == Infos(d.c.s.archive) && d.files - {Log} == FilesOf(d.c.s.archive) && LogTied(d.files, d.c.s)
  {
    hide Sink.Run, FilesOf;
    assert Messages(d.c.received) + [] == Messages(d.c.received);
  }

  // ... and path by path, in numbered form from a directory without archives: base.1 up to
  // base.min(k, m) and no other, as .gz exactly when the number is above n, the i-th most
  // recent generation in base.i.
  lemma {:induction false} PathsAtTheEnd(cfg: Config, files: map<Path, Bytes>, opens: bool, first: Env,
                                         acts: seq<Action>)
    requires (forall p :: p in files ==> p == Log) && (HasAge(cfg) ==> opens)
    requires cfg.rotation.Some? && cfg.rotation.value.policy.scheme == Numbered
    requires !cfg.rotation.value.policy.limit.MaxAge?
    requires CanRun(cfg, Start(files, [], opens, first), acts)
    requires var d := Reached(cfg, Start(files, [], opens, first), acts);
             && d.c.todo == [] && d.c.queue == [] && !Running(d.cleanup)
             && RunFits(cfg.rotation.value.policy, 0, |d.c.s.rotated|)
    ensures var d, p := Reached(cfg, Start(files, [], opens, first), acts), cfg.rotation.value.policy;
            var k, rotated := |d.c.s.rotated|, d.c.s.rotated;
            && (forall i, gz :: Archived(i, gz) in d.files <==> 1 <= i <= Keep(p.limit, k) && gz == Zips(p.exclude, i))
            && (forall i :: 1 <= i <= Keep(p.limit, k) ==>
                  d.files[Archived(i, Zips(p.exclude, i))] == rotated[k - i].data)
  {
    hide Start, Started, Sink.Run, CanRun, Reached, Concat, Datas, LinesOf, FilesOf, Messages, Keep, RunFits;
    var w := Start(files, [], opens, first);
    assert GensOf([], files) == [];
    StartIsFine(cfg, files, [], opens, first);
    RunsAreFine(cfg, w, acts, Started(cfg, LogOf(files), [], opens, first));
    var d, p := Reached(cfg, w, acts), cfg.rotation.value.policy;
    AtRestOnDisk(cfg, d, Started(cfg, LogOf(files), [], opens, first));
    WholeRunNumbered(cfg, LogOf(files), opens, first, d.c.received);
    NumberedPaths(d.c.s.archive, p.exclude, d.files);
    forall i | 1 <= i <= Keep(p.limit, |d.c.s.rotated|)
      ensures d.files[Archived(i, Zips(p.exclude, i))] == d.c.s.rotated[|d.c.s.rotated| - i].data
    {
      assert d.c.s.archive[i - 1].data == d.c.s.rotated[|d.c.s.rotated| - i].data;
    }
  }
}
