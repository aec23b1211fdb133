// The rotation options, and what they promise: how much of the log is kept and how much
// room it takes.
module Options {
  import opened Common
  import opened Archive
  import opened Sink
  import Lines

  datatype Upkeep = Age | Count(files: nat) | All

  // `stamped` is whether a time format is given.
  datatype Options = Options(byAge: bool, bySize: Option<nat>, stamped: bool, upkeep: Upkeep,
    compressExclude: Option<nat>)

  function BySize(sizeLimit: nat, maxFiles: Option<nat>): Options {
    Options(false, Some(sizeLimit), false, if maxFiles.Some? then Count(maxFiles.value) else All, None)
  }

  predicate AgeLimited(o: Options) {
    o.stamped && o.upkeep == Age
  }

  // `maxTime` is whether one is given; the clock turns it into the horizons of cleanups.
  function ByAge(maxTime: bool): (o: Options)
    ensures AgeLimited(o) <==> maxTime
    ensures o.upkeep == All <==> !maxTime
  {
    Options(true, None, true, if maxTime then Age else All, None)
  }

  function ByAgeAndSize(sizeLimit: nat, maxTime: bool): (o: Options)
    ensures AgeLimited(o) <==> maxTime
    ensures o.upkeep == All <==> !maxTime
  {
    Options(true, Some(sizeLimit), true, if maxTime then Age else All, None)
  }

  // build; None is the panic when no limit is given. In the numbered form an age
  // becomes a limit of 0 files.
  function Build(o: Options): (r: Option<Plan>)
    ensures r.None? <==> !o.byAge && o.bySize.None?
    ensures r.Some? ==>
              && r.value.sizeLimit == o.bySize && (r.value.hasAge <==> o.byAge)
              && r.value.policy.exclude == o.compressExclude
              && (r.value.policy.scheme == Stamped <==> o.stamped)
              && (r.value.policy.limit == Unlimited <==> o.upkeep == All)
              && (r.value.policy.limit == MaxAge <==> AgeLimited(o))
              && (o.upkeep == Age && !o.stamped ==> r.value.policy.limit == MaxFiles(0))
              && (o.upkeep.Count? ==> r.value.policy.limit == MaxFiles(o.upkeep.files))
  {
    if !o.byAge && o.bySize.None? then None
    else
      var limit :=
        match o.upkeep
        case Age => if o.stamped then MaxAge else MaxFiles(0)
        case Count(c) => MaxFiles(c)
        case All => Unlimited;
      Some(Plan(o.bySize, o.byAge, Policy(if o.stamped then Stamped else Numbered, limit, o.compressExclude)))
  }

  // ----------------------------------------------------------- what is still there

  // What a reader finds: the archives from the oldest on, the live file, and what the
  // worker still holds back.
  function Remaining(s: State): Bytes {
    Concat(OldestFirst(s.archive)) + LiveBytes(s) + s.buf
  }

  // The log, from the archives that were there on.
  function WholeLog(older: seq<Gen>, live: Option<Bytes>, evs: seq<Event>): Bytes {
    Concat(OldestFirst(older)) + ((if live.Some? then live.value else []) + Concat(LinesOf(evs)))
  }

  lemma {:induction false} Regroup(a: Bytes, b: Bytes, c: Bytes, d: Bytes)
    ensures (a + b) + c + d == a + (b + c + d)
  {
  }

  // Archives that are the newest generations make the rest the newest bytes.
  lemma {:induction false} TailOfLog(older: seq<Gen>, s: State)
    requires IsTail(OldestFirst(s.archive), OldestFirst(older) + Datas(s.rotated))
    ensures IsTail(Remaining(s), Concat(OldestFirst(older)) + Stored(s))
  {
    hide Concat, Datas, OldestFirst, LiveBytes;
    var all, kept := OldestFirst(older) + Datas(s.rotated), OldestFirst(s.archive);
    var gone := all[..|all| - |kept|];
    assert all == gone + kept;
    ConcatAppend(gone, kept);
    ConcatAppend(OldestFirst(older), Datas(s.rotated));
    Regroup(Concat(OldestFirst(older)), Concat(Datas(s.rotated)), LiveBytes(s), s.buf);
    Regroup(Concat(gone), Concat(kept), LiveBytes(s), s.buf);
    assert (Concat(gone) + Remaining(s))[|Concat(gone)|..] == Remaining(s);
  }

  // Rotation tears no hole into the log.
  predicate NewestPart(older: seq<Gen>, limit: Limit, s: State, log: Bytes) {
    // the archives are the newest generations
    && IsTail(OldestFirst(s.archive), OldestFirst(older) + Datas(s.rotated))
    // archives, live file and buffer are the newest part of the log
    && (s.lost == 0 ==> IsTail(Remaining(s), log))
    // how many archives there are
    && (!limit.MaxAge? ==> |s.archive| == if s.rotated == [] then |older| else Keep(limit, |older| + |s.rotated|))
    // and that part is everything as long as no archive had to go
    && (|s.archive| == |older| + |s.rotated| && s.lost == 0 ==> Remaining(s) == log)
  }

  lemma {:induction false} AllArchivesAllLog(older: seq<Gen>, s: State)
    requires IsTail(OldestFirst(s.archive), OldestFirst(older) + Datas(s.rotated))
    requires |s.archive| == |older| + |s.rotated|
    ensures OldestFirst(s.archive) == OldestFirst(older) + Datas(s.rotated)
    ensures Remaining(s) == Concat(OldestFirst(older)) + Stored(s)
  {
    hide Concat, Datas, OldestFirst, LiveBytes;
    var all := OldestFirst(older) + Datas(s.rotated);
    assert all[0..] == all;
    ConcatAppend(OldestFirst(older), Datas(s.rotated));
    Regroup(Concat(OldestFirst(older)), Concat(Datas(s.rotated)), LiveBytes(s), s.buf);
  }

  lemma {:induction false} AccountedIsNewestPart(older: seq<Gen>, policy: Policy, s: State)
    requires Accounts(older, policy, s.rotated, s.archive)
    ensures NewestPart(older, policy.limit, s, Concat(OldestFirst(older)) + Stored(s))
  {
    hide Concat, Datas, OldestFirst, Remaining, Stored, IsTail, Keep, Tidy, NewestFirst, Bodies, Sorted, FrontIsFree,
        RunFits;
    TailOfLog(older, s);
    if |s.archive| == |older| + |s.rotated| {
      AllArchivesAllLog(older, s);
    }
  }

  // For every naming form, every limit, every archive to start from, and whatever fails
  // to compress as asked.
  lemma {:induction false} TheNewestPartRemains(cfg: Config, live: Option<Bytes>, archive: seq<Gen>, ok: bool,
                                                e: Env, evs: seq<Event>)
    requires Sorted(archive) && cfg.rotation.Some? && (HasAge(cfg) ==> ok)
    requires FrontIsFree(cfg.rotation.value.policy.scheme, archive)
    ensures NewestPart(archive, cfg.rotation.value.policy.limit, Run(cfg, Started(cfg, live, archive, ok, e), evs),
                       WholeLog(archive, live, evs))
  {
    hide Run, Started, LinesOf, Concat, OldestFirst, Stored, Accounts, KeptByAge, NewestPart, Sorted, FrontIsFree;
    var s := Run(cfg, Started(cfg, live, archive, ok, e), evs);
    WholeRun(cfg, live, archive, ok, e, evs);
    AccountedIsNewestPart(archive, cfg.rotation.value.policy, s);
    if s.lost != 0 {
      AnyLog(archive, cfg.rotation.value.policy.limit, s, Concat(OldestFirst(archive)) + Stored(s),
        WholeLog(archive, live, evs));
    }
  }

  lemma {:induction false} AnyLog(older: seq<Gen>, limit: Limit, s: State, log: Bytes, other: Bytes)
    requires NewestPart(older, limit, s, log) && s.lost != 0
    ensures NewestPart(older, limit, s, other)
  {
  }

  // Upkeep::All deletes nothing, in either naming form, rotating by size or by age, with
  // or without compression, whatever archive was there before.
  lemma {:induction false} AllDeletesNothing(o: Options, flushSize: nat, live: Option<Bytes>, archive: seq<Gen>,
                                             ok: bool, e: Env, evs: seq<Event>)
    requires o.upkeep == All && Build(o).Some? && (o.byAge ==> ok)
    requires Sorted(archive) && FrontIsFree(if o.stamped then Stamped else Numbered, archive)
    ensures var cfg := Config(flushSize, Build(o));
            var s := Run(cfg, Started(cfg, live, archive, ok, e), evs);
            && OldestFirst(s.archive) == OldestFirst(archive) + Datas(s.rotated)
            && (s.lost == 0 ==> Remaining(s) == WholeLog(archive, live, evs))
  {
    hide Run, Started, WholeLog, OldestFirst, Datas, Remaining, Sorted, FrontIsFree, Build;
    var cfg := Config(flushSize, Build(o));
    TheNewestPartRemains(cfg, live, archive, ok, e, evs);
    var s := Run(cfg, Started(cfg, live, archive, ok, e), evs);
    AllArchivesAllLog(archive, s);
  }

  // An age limit - by_age and by_age_and_size with a time - over whole runs: the archives
  // are the newest part of the log, a generation is there exactly when its suffix lies
  // within the horizon of every cleanup since it was archived, and with horizons that do
  // not go back, exactly when it lies within the last one.
  lemma {:induction false} AgeOptionKeepsItsWord(o: Options, flushSize: nat, live: Option<Bytes>, archive: seq<Gen>,
                                                 ok: bool, e: Env, evs: seq<Event>)
    requires AgeLimited(o) && Build(o).Some? && (o.byAge ==> ok) && Sorted(archive)
    ensures var cfg := Config(flushSize, Build(o));
            var s, policy := Run(cfg, Started(cfg, live, archive, ok, e), evs), cfg.rotation.value.policy;
            && NewestPart(archive, MaxAge, s, WholeLog(archive, live, evs))
            && KeptByAge(archive, policy, s.rotated, s.archive)
            && (s.rotated != [] && HorizonsAdvance(s.rotated) ==>
                  KeptByLastHorizon(archive, policy, s.rotated, s.archive))
  {
    hide Run, Started, WholeLog, NewestPart, Sorted, Build, Accounts, KeptByAge, KeptByLastHorizon, Stored, Concat,
         LinesOf, HorizonsAdvance;
    var cfg := Config(flushSize, Build(o));
    var s := Run(cfg, Started(cfg, live, archive, ok, e), evs);
    TheNewestPartRemains(cfg, live, archive, ok, e, evs);
    WholeRun(cfg, live, archive, ok, e, evs);
    if s.rotated != [] && HorizonsAdvance(s.rotated) {
      LastHorizonDecides(archive, cfg.rotation.value.policy, s.rotated, s.archive);
    }
  }

  // ------------------------------------------------------------------ how much room

  lemma {:induction false} ConcatWithin(pieces: seq<Bytes>, low: nat, high: nat)
    requires forall i :: 0 <= i < |pieces| ==> low <= |pieces[i]| <= high
    ensures Times(|pieces|, low) <= |Concat(pieces)| <= Times(|pieces|, high)
  {
    hide Times;
    if pieces == [] {
      NoneTakesNothing(low);
      NoneTakesNothing(high);
    } else {
      ConcatWithin(pieces[1..], low, high);
      OneMore(|pieces[1..]|, low);
      OneMore(|pieces[1..]|, high);
    }
  }

  function Times(files: nat, bytes: nat): nat {
    files * bytes
  }

  lemma {:induction false} NoneTakesNothing(bytes: nat)
    ensures Times(0, bytes) == 0
  {
  }

  lemma {:induction false} OneMore(files: nat, bytes: nat)
    ensures Times(files + 1, bytes) == Times(files, bytes) + bytes
  {
  }

  // How many archives were closed by this worker after its start.
  function Made(start: nat, s: State): (n: nat)
    requires start <= |s.rotated|
    ensures n <= |s.archive| && n <= |s.rotated| - start
  {
    if |s.rotated| - start < |s.archive| then |s.rotated| - start else |s.archive|
  }

  // Their contents, the oldest first: they are the newest archives there are.
  function MadeArchives(start: nat, s: State): (r: seq<Bytes>)
    requires start <= |s.rotated|
    ensures |r| == Made(start, s)
  {
    OldestFirst(s.archive)[|s.archive| - Made(start, s)..]
  }

  // What a size limit with a number of files promises of them.
  predicate KeepsItsWord(sizeLimit: nat, maxFiles: nat, longest: nat, flushSize: nat, start: nat, s: State)
    requires start <= |s.rotated|
  {
    var made := MadeArchives(start, s);
    // they are the generations closed last
    && made == Datas(s.rotated)[|s.rotated| - |made|..]
    // they and the live file take no more than this
    && |Concat(made)| + |LiveBytes(s)| <= Times(maxFiles, sizeLimit + Lines.Max(flushSize, longest)) + sizeLimit
    // after enough rotations there is nothing else, and at least this much is kept
    && (s.rotated != [] && |s.rotated| - start >= maxFiles ==>
          |made| == |s.archive| && Times(maxFiles, sizeLimit + 1) <= |Concat(made)|)
  }

  lemma {:induction false} RoomFor(files: nat, maxFiles: nat, low: nat, high: nat, size: nat)
    requires files <= maxFiles && Times(files, low) <= size <= Times(files, high)
    ensures size <= Times(maxFiles, high) && (files == maxFiles ==> Times(maxFiles, low) <= size)
  {
    assert files * high <= maxFiles * high;
  }

  // The newest entries of a tail are the newest entries of the whole.
  lemma {:induction false} NewestOfTail(part: seq<Bytes>, older: seq<Bytes>, newer: seq<Bytes>, k: nat)
    requires IsTail(part, older + newer) && k <= |part| && k <= |newer|
    ensures part[|part| - k..] == newer[|newer| - k..]
  {
    var all := older + newer;
    assert part == all[|all| - |part|..];
    assert part[|part| - k..] == all[|all| - k..] == newer[|newer| - k..];
  }

  lemma {:induction false} MadeAreNewest(older: seq<Gen>, start: nat, s: State)
    requires start <= |s.rotated| && IsTail(OldestFirst(s.archive), OldestFirst(older) + Datas(s.rotated))
    ensures MadeArchives(start, s) == Datas(s.rotated)[|s.rotated| - Made(start, s)..]
  {
    hide OldestFirst, Datas, IsTail, Made;
    NewestOfTail(OldestFirst(s.archive), OldestFirst(older), Datas(s.rotated), Made(start, s));
  }

  lemma {:induction false} NewestWithin(cfg: Config, sizeLimit: nat, longest: nat, start: nat, s: State, k: nat)
    requires Lines.GensBounded(cfg, sizeLimit, longest, s, start) && k <= |s.rotated| - start
    ensures var high, size := sizeLimit + Lines.Max(cfg.flushSize, longest),
        |Concat(Datas(s.rotated)[|s.rotated| - k..])|;
            Times(k, sizeLimit + 1) <= size <= Times(k, high)
  {
    hide Concat, Times;
    var made := Datas(s.rotated)[|s.rotated| - k..];
    assert forall i :: 0 <= i < |made| ==> made[i] == s.rotated[|s.rotated| - k + i].data;
    ConcatWithin(made, sizeLimit + 1, sizeLimit + Lines.Max(cfg.flushSize, longest));
  }

  // After enough rotations only archives made since the start are there, as many as may be.
  lemma {:induction false} EnoughRotations(older: seq<Gen>, maxFiles: nat, start: nat, s: State)
    requires start <= |s.rotated| && start <= 1
    requires |s.archive| == if s.rotated == [] then |older| else Keep(MaxFiles(maxFiles), |older| + |s.rotated|)
    ensures Made(start, s) <= maxFiles
    ensures s.rotated != [] && |s.rotated| - start >= maxFiles ==> Made(start, s) == |s.archive| == maxFiles
  {
  }

  lemma {:induction false} MadeFollow(older: seq<Gen>, maxFiles: nat, log: Bytes, start: nat, s: State)
    requires start <= |s.rotated| && start <= 1 && NewestPart(older, MaxFiles(maxFiles), s, log)
    ensures MadeArchives(start, s) == Datas(s.rotated)[|s.rotated| - Made(start, s)..]
    ensures Made(start, s) <= maxFiles
    ensures s.rotated != [] && |s.rotated| - start >= maxFiles ==> Made(start, s) == |s.archive| == maxFiles
  {
    hide OldestFirst, Datas, IsTail, Made, MadeArchives, Keep, Remaining;
    MadeAreNewest(older, start, s);
    EnoughRotations(older, maxFiles, start, s);
  }

  lemma {:induction false} MadeTakeRoom(cfg: Config, sizeLimit: nat, maxFiles: nat, longest: nat, start: nat, s: State)
    requires Lines.GensBounded(cfg, sizeLimit, longest, s, start) && start <= |s.rotated| && Made(start, s) <= maxFiles
    requires MadeArchives(start, s) == Datas(s.rotated)[|s.rotated| - Made(start, s)..]
    ensures var high, size := sizeLimit + Lines.Max(cfg.flushSize, longest), |Concat(MadeArchives(start, s))|;
            size <= Times(maxFiles, high) && (Made(start, s) == maxFiles ==> Times(maxFiles, sizeLimit + 1) <= size)
  {
    hide Concat, Datas, Lines.GensBounded, Lines.Max, Made, MadeArchives, Times;
    NewestWithin(cfg, sizeLimit, longest, start, s, Made(start, s));
    RoomFor(Made(start, s), maxFiles, sizeLimit + 1, sizeLimit + Lines.Max(cfg.flushSize, longest),
            |Concat(MadeArchives(start, s))|);
  }

  lemma {:induction false} BoundsGiveRoom(cfg: Config, sizeLimit: nat, maxFiles: nat, longest: nat, older: seq<Gen>,
                                          log: Bytes, start: nat, s: State)
    requires Lines.GensBounded(cfg, sizeLimit, longest, s, start) && start <= |s.rotated| && start <= 1
    requires |LiveBytes(s)| <= sizeLimit
    requires NewestPart(older, MaxFiles(maxFiles), s, log)
    ensures KeepsItsWord(sizeLimit, maxFiles, longest, cfg.flushSize, start, s)
  {
    hide Concat, Datas, LiveBytes, NewestPart, Lines.GensBounded, Lines.Max, Made, MadeArchives, Times;
    MadeFollow(older, maxFiles, log, start, s);
    MadeTakeRoom(cfg, sizeLimit, maxFiles, longest, start, s);
  }

  // by_size(limit, max_files), with or without compression, whatever is there at the
  // start: what remains is the newest part of the log; the archives closed since the start
  // and the live file hold at most max_files * (limit + one flush or line) + limit bytes;
  // and once max_files of them were closed nothing else is there, and they hold more than
  // max_files * limit bytes. A live file beyond the limit is closed at the start. All this
  // as long as the file opens at the start and no write fails.
  lemma {:induction false} SizeOptionKeepsItsWord(sizeLimit: nat, maxFiles: nat, exclude: Option<nat>,
                                                  flushSize: nat, longest: nat, live: Option<Bytes>, archive: seq<Gen>,
                                                  e: Env, evs: seq<Event>)
    requires 0 < flushSize && Sorted(archive) && FrontIsFree(Numbered, archive)
    requires AllClean(evs) && forall i :: 0 <= i < |evs| && evs[i].Line? ==> |evs[i].line| <= longest
    ensures var o := BySize(sizeLimit, Some(maxFiles)).(compressExclude := exclude);
            var cfg := Config(flushSize, Build(o));
            var s := Run(cfg, Started(cfg, live, archive, true, e), evs);
            var start := if live.Some? && |live.value| > sizeLimit then 1 else 0;
            && start <= |s.rotated| && s.lost == 0
            && NewestPart(archive, MaxFiles(maxFiles), s, WholeLog(archive, live, evs))
            && KeepsItsWord(sizeLimit, maxFiles, longest, flushSize, start, s)
  {
    hide Run, Started, WholeLog, AllClean, KeepsItsWord, NewestPart, Sorted, FrontIsFree, Lines.GensBounded, LiveBytes;
    var cfg := Config(flushSize, Build(BySize(sizeLimit, Some(maxFiles)).(compressExclude := exclude)));
    var s0 := Started(cfg, live, archive, true, e);
    var s := Run(cfg, s0, evs);
    StartRotatesOnce(cfg, sizeLimit, live, archive, e);
    Lines.StartsTight(cfg, sizeLimit, live, archive, e);
    Lines.GenerationsAreBounded(cfg, sizeLimit, longest, s0, evs);
    CleanRunsLoseNothing(cfg, s0, evs);
    TheNewestPartRemains(cfg, live, archive, true, e, evs);
    BoundedFrom(cfg, sizeLimit, longest, s, |s0.rotated|);
    BoundsGiveRoom(cfg, sizeLimit, maxFiles, longest, archive, WholeLog(archive, live, evs), |s0.rotated|, s);
  }

  lemma {:induction false} BoundedFrom(cfg: Config, sizeLimit: nat, longest: nat, s: State, start: nat)
    requires Lines.GensBounded(cfg, sizeLimit, longest, s, start) && Lines.Tight(cfg, sizeLimit, s)
    ensures start <= |s.rotated| && |LiveBytes(s)| <= sizeLimit
  {
  }

  lemma {:induction false} StartRotatesOnce(cfg: Config, sizeLimit: nat, live: Option<Bytes>, archive: seq<Gen>, e: Env)
    requires Lines.SizeOnly(cfg, sizeLimit) && Sorted(archive)
    ensures var s := Started(cfg, live, archive, true, e);
            |s.rotated| == (if live.Some? && |live.value| > sizeLimit then 1 else 0) && s.buf == []
  {
  }

  // by_size without a number of files: nothing is ever deleted, and every generation closed
  // after the start is above the limit by at most one flush or line.
  lemma {:induction false} SizeAloneDeletesNothing(sizeLimit: nat, exclude: Option<nat>, flushSize: nat, longest: nat,
                                                   live: Option<Bytes>, archive: seq<Gen>, e: Env, evs: seq<Event>)
    requires 0 < flushSize && Sorted(archive) && FrontIsFree(Numbered, archive)
    requires AllClean(evs) && forall i :: 0 <= i < |evs| && evs[i].Line? ==> |evs[i].line| <= longest
    ensures var o := BySize(sizeLimit, None).(compressExclude := exclude);
            var cfg := Config(flushSize, Build(o));
            var s := Run(cfg, Started(cfg, live, archive, true, e), evs);
            var start := if live.Some? && |live.value| > sizeLimit then 1 else 0;
            && OldestFirst(s.archive) == OldestFirst(archive) + Datas(s.rotated)
            && Remaining(s) == WholeLog(archive, live, evs)
            && Lines.GensBounded(cfg, sizeLimit, longest, s, start) && s.fd == OnLive && |LiveBytes(s)| <= sizeLimit
  {
    hide Run, Started, WholeLog, AllClean, Sorted, FrontIsFree, Lines.GensBounded, LiveBytes, Remaining;
    var o := BySize(sizeLimit, None).(compressExclude := exclude);
    var cfg := Config(flushSize, Build(o));
    var s0 := Started(cfg, live, archive, true, e);
    StartRotatesOnce(cfg, sizeLimit, live, archive, e);
    Lines.StartsTight(cfg, sizeLimit, live, archive, e);
    Lines.GenerationsAreBounded(cfg, sizeLimit, longest, s0, evs);
    CleanRunsLoseNothing(cfg, s0, evs);
    AllDeletesNothing(o, flushSize, live, archive, true, e, evs);
    BoundedFrom(cfg, sizeLimit, longest, Run(cfg, s0, evs), |s0.rotated|);
  }

  // by_age_and_size: the live file is within the size limit after every message, whatever
  // the age checks answer.
  lemma {:induction false} AgeAndSizeStaysWithin(sizeLimit: nat, maxTime: bool, exclude: Option<nat>, flushSize: nat,
                                                 live: Option<Bytes>, archive: seq<Gen>, e: Env, evs: seq<Event>)
    requires Sorted(archive) && AllClean(evs)
    ensures var cfg := Config(flushSize, Build(ByAgeAndSize(sizeLimit, maxTime).(compressExclude := exclude)));
            var s := Run(cfg, Started(cfg, live, archive, true, e), evs);
            s.fd == OnLive && s.live.Some? && |s.live.value| <= sizeLimit
  {
    hide Run, Started, AllClean, Sorted;
    var cfg := Config(flushSize, Build(ByAgeAndSize(sizeLimit, maxTime).(compressExclude := exclude)));
    Lines.StartsWithin(cfg, sizeLimit, live, archive, e);
    Lines.LiveStaysWithin(cfg, sizeLimit, Started(cfg, live, archive, true, e), evs);
  }

  // by_age: no generation is closed unless an age check answers yes.
  lemma {:induction false} AgeAloneWaits(maxTime: bool, exclude: Option<nat>, flushSize: nat,
                                         live: Option<Bytes>, archive: seq<Gen>, e: Env, evs: seq<Event>)
    requires Sorted(archive) && !e.aged && AllYoung(evs)
    ensures var cfg := Config(flushSize, Build(ByAge(maxTime).(compressExclude := exclude)));
            Run(cfg, Started(cfg, live, archive, true, e), evs).rotated == []
  {
    hide Run, AllYoung;
    var cfg := Config(flushSize, Build(ByAge(maxTime).(compressExclude := exclude)));
    StartsExactly(cfg, live, archive, true, e);
    hide Started;
    YoungRunsCloseNothing(cfg, Started(cfg, live, archive, true, e), evs);
  }

  // When the constructors rotate, flush by flush: by_age exactly when the age check answers
  // yes, by_size exactly when the file outgrows the limit, by_age_and_size when either does.
  lemma {:induction false} WhenTheyRotate(o: Options, flushSize: nat, s: State, wait: bool, e: Env)
    requires Build(o).Some? && Inv(Config(flushSize, Build(o)), s) && s.fd == OnLive
    ensures var closed := |Flush(Config(flushSize, Build(o)), s, wait, e).rotated| - |s.rotated|;
            var size := s.size + |s.buf|;
            && (forall m: bool, x :: o == ByAge(m).(compressExclude := x) ==> closed == if e.aged then 1 else 0)
            && (forall l: nat, c, x :: o == BySize(l, c).(compressExclude := x) ==> closed == if size > l then 1 else 0)
            && (forall l: nat, m: bool, x :: o == ByAgeAndSize(l, m).(compressExclude := x) ==>
                  closed == if e.aged || size > l then 1 else 0)
  {
    FlushExactly(Config(flushSize, Build(o)), s, wait, e);
    hide Flush, Inv;
  }
}
