// The global logger with any number of threads: setups that contend for the spin lock
// and lookups that take no lock, interleaved access by access.
module Publication {
  import opened Common
  import opened Config
  import opened Setup

  // Where a thread is. From CheckSame to Unlocking it holds the lock; each point is
  // followed by one access to the shared static.
  datatype Pc =
    | Idle
    | Spinning(call: Call)
    | CheckSame(call: Call) | OpenSinks(call: Call) | LevelSame(call: Call)
    | Rebuild(call: Call) | StoreSinks(call: Call) | StoreSum(call: Call) | LevelDiff(call: Call)
    | InitBuild(call: Call) | InitInner(call: Call) | InitSum(call: Call) | InitFlag(call: Call)
    | Unlocking(call: Call, outcome: Outcome)
    | Registering(call: Call) | RegisterLevel(call: Call)
    | Returned(ok: bool)
    | Loading | Looked(found: bool)

  // lock, inited, inner and checksum are the static; level and registered belong to the
  // log crate. The rest records the run: who holds the lock, the calls that released it and
  // what they came to, the place of each thread's last call among them, how often a setup
  // won, who is about to register, how often set_logger was called.
  datatype Sys = Sys(
    lock: bool, core: Core, level: int, registered: bool, threads: map<nat, Pc>,
    holder: Option<nat>, done: seq<Call>, outcomes: seq<Outcome>, place: map<nat, nat>, wins: nat,
      winner: Option<nat>, registrations: nat)

  datatype Action = StartSetup(t: nat, call: Call) | StartLookup(t: nat) | Go(t: nat, lucky: bool)

  predicate Holds(pc: Pc) {
    pc.CheckSame? || pc.OpenSinks? || pc.LevelSame? || pc.Rebuild? || pc.StoreSinks? || pc.StoreSum? || pc.LevelDiff?
    || InInit(pc) || pc.Unlocking?
  }

  // The thread has the exclusive reference that `init` takes.
  predicate InInit(pc: Pc) {
    pc.InitBuild? || pc.InitInner? || pc.InitSum? || pc.InitFlag?
  }

  // The thread was handed the logger.
  predicate HasLogger(pc: Pc) {
    pc.Registering? || pc.RegisterLevel? || pc == Returned(true) || pc == Looked(true)
  }

  predicate Resting(pc: Pc) {
    pc.Idle? || pc.Returned? || pc.Looked?
  }

  predicate Enabled(s: Sys, a: Action) {
    match a
    case StartSetup(t, _) => t in s.threads ==> Resting(s.threads[t])
    case StartLookup(t) => t in s.threads ==> Resting(s.threads[t])
    case Go(t, _) => t in s.threads && !Resting(s.threads[t])
  }

  function Moved(s: Sys, t: nat, pc: Pc): Sys {
    s.(threads := s.threads[t := pc])
  }

  // One access of thread t. The compare-exchange may also fail for no reason.
  function GoOn(s: Sys, t: nat, lucky: bool): Sys
    requires t in s.threads
  {
    var core := s.core;
    match s.threads[t]
    case Spinning(c) =>
      if !s.lock && lucky then Moved(s.(lock := true, holder := Some(t)), t, CheckSame(c)) else s
    case CheckSame(c) =>
      Moved(s, t, if core.inner.None? then InitBuild(c)
                  else if core.checksum == Of(c.builder) then OpenSinks(c)
                  else if !c.builder.dynamic then Unlocking(c, Failed)
                  else Rebuild(c))
    case OpenSinks(c) =>
      var ok := core.inner.None? || AllOpen(core.inner.value.sinks, c.broken);
      Moved(s, t, if ok then LevelSame(c) else Unlocking(c, Failed))
    case LevelSame(c) => Moved(s.(level := MaxLevel(c.builder.sinks)), t, Unlocking(c, Again))
    case Rebuild(c) => Moved(s, t, if AllOpen(c.builder.sinks, c.broken) then StoreSinks(c) else Unlocking(c, Failed))
    case StoreSinks(c) =>
      if core.inner.Some? && core.inner.value.dynamic then
        Moved(s.(core := core.(inner := Some(core.inner.value.(sinks := c.builder.sinks)))), t, StoreSum(c))
      else Moved(s, t, Unlocking(c, Failed))
    case StoreSum(c) => Moved(s.(core := core.(checksum := Of(c.builder))), t, LevelDiff(c))
    case LevelDiff(c) => Moved(s.(level := MaxLevel(c.builder.sinks)), t, Unlocking(c, Again))
    case InitBuild(c) => Moved(s, t, if AllOpen(c.builder.sinks, c.broken) then InitInner(c) else Unlocking(c, Failed))
    case InitInner(c) =>
      Moved(s.(core := core.(inner := Some(Inner(c.builder.dynamic, c.builder.sinks)))), t, InitSum(c))
    case InitSum(c) => Moved(s.(core := core.(checksum := Of(c.builder))), t, InitFlag(c))
    case InitFlag(c) => Moved(s.(core := core.(inited := true)), t, Unlocking(c, First))
    case Unlocking(c, o) =>
      var s1 := s.(lock := false, holder := None, done := s.done + [c], outcomes := s.outcomes + [o],
                   place := s.place[t := |s.done|]);
      if o == First then Moved(s1.(wins := s.wins + 1, winner := Some(t)), t, Registering(c))
      else Moved(s1, t, Returned(o == Again))
    case Registering(c) =>
      var s1 := s.(winner := None, registrations := s.registrations + 1);
      if s.registered then Moved(s1, t, Returned(false)) else Moved(s1.(registered := true), t, RegisterLevel(c))
    case RegisterLevel(c) => Moved(s.(level := MaxLevel(c.builder.sinks)), t, Returned(true))
    case Loading => Moved(s, t, Looked(core.inited))
    case _ => s
  }

  function Next(s: Sys, a: Action): Sys
    requires Enabled(s, a)
  {
    match a
    case StartSetup(t, c) => Moved(s, t, Spinning(c))
    case StartLookup(t) => Moved(s, t, Loading)
    case Go(t, lucky) => GoOn(s, t, lucky)
  }

  predicate Legal(s: Sys, acts: seq<Action>)
    decreases |acts|
  {
    acts == [] || (Enabled(s, acts[0]) && Legal(Next(s, acts[0]), acts[1..]))
  }

  function After(s: Sys, acts: seq<Action>): Sys
    requires Legal(s, acts)
    decreases |acts|
  {
    if acts == [] then s else After(Next(s, acts[0]), acts[1..])
  }

  // No thread has started; another logger may have been registered already.
  function Init(registered: bool): Sys {
    Sys(false, EMPTY, OFF, registered, map[], None, [], [], map[], 0, None, 0)
  }

  // ------------------------------------------------------------------ invariant

  // How far the holder has come with its call, from the core as it was when it locked.
  predicate Progress(base: Core, core: Core, pc: Pc) {
    match pc
    case CheckSame(_) => core == base
    case OpenSinks(c) => core == base && base.inner.Some? && base.checksum == Of(c.builder)
    case LevelSame(c) => core == base && TryOnce(base, c.builder, c.broken) == (base, Again)
    case Rebuild(c) => core == base && base.inner.Some? && base.checksum != Of(c.builder) && c.builder.dynamic
    case StoreSinks(c) =>
      && core == base && base.inner.Some? && base.checksum != Of(c.builder) && c.builder.dynamic
      && AllOpen(c.builder.sinks, c.broken)
    case StoreSum(c) =>
      (core.(checksum := Of(c.builder)), Again) == TryOnce(base, c.builder, c.broken)
    case LevelDiff(c) => (core, Again) == TryOnce(base, c.builder, c.broken)
    case InitBuild(_) => core == base && base.inner.None?
    case InitInner(c) => core == base && base.inner.None? && AllOpen(c.builder.sinks, c.broken)
    case InitSum(c) =>
      base.inner.None? && AllOpen(c.builder.sinks, c.broken)
      && core == base.(inner := Some(Inner(c.builder.dynamic, c.builder.sinks)))
    case InitFlag(c) =>
      base.inner.None? && AllOpen(c.builder.sinks, c.broken)
      && core == Core(Some(Inner(c.builder.dynamic, c.builder.sinks)), Of(c.builder), base.inited)
    case Unlocking(c, o) => (core, o) == TryOnce(base, c.builder, c.broken)
    case _ => true
  }

  ghost predicate Exclusion(s: Sys) {
    && (s.lock <==> s.holder.Some?)
    && (s.holder.Some? ==> s.holder.value in s.threads)
    && (forall t :: t in s.threads ==> (Holds(s.threads[t]) <==> s.holder == Some(t)))
  }

  // What each finished call came to is what it comes to at its place in the serial order.
  predicate OutcomesFollow(s: Sys) {
    |s.outcomes| == |s.done| && forall i :: 0 <= i < |s.done| ==> s.outcomes[i] == OutcomeAt(s.done, i)
  }

  // The core is what the finished calls, one after the other, make of an empty one, plus
  // what the holder has done so far.
  predicate Serial(s: Sys) {
    var base := TryAll(EMPTY, s.done);
    && Consistent(base)
    && (if s.holder.Some? && s.holder.value in s.threads
        then Progress(base, s.core, s.threads[s.holder.value])
        else s.core == base)
    && s.wins == (if base.inited then 1 else 0)
    && OutcomesFollow(s)
  }

  ghost predicate Published(s: Sys) {
    forall t :: t in s.threads && HasLogger(s.threads[t]) ==> s.core.inited
  }

  ghost predicate RegistersOnce(s: Sys) {
    && (forall t :: t in s.threads ==> (s.threads[t].Registering? <==> s.winner == Some(t)))
    && (s.winner.Some? ==> s.wins == 1 && s.registrations == 0)
    && (s.winner.Some? ==> s.winner.value in s.threads)
    && s.registrations <= s.wins
  }

  // What a thread was told fits what its call came to: an error after a failure, or after a
  // first init that found another logger registered; success after anything else.
  predicate Answered(s: Sys, t: nat, pc: Pc) {
    match pc
    case Registering(c) => Came(s, t, c, First)
    case RegisterLevel(c) => Came(s, t, c, First)
    case Returned(ok) =>
      && t in s.place && s.place[t] < |s.outcomes|
      && (ok ==> s.outcomes[s.place[t]] != Failed)
      && (!ok ==> s.outcomes[s.place[t]] == Failed || (s.outcomes[s.place[t]] == First && s.registered))
    case _ => true
  }

  // The last call of thread t was this one, and it came to o.
  predicate Came(s: Sys, t: nat, c: Call, o: Outcome) {
    && t in s.place && s.place[t] < |s.outcomes| && s.outcomes[s.place[t]] == o
    && s.place[t] < |s.done| && s.done[s.place[t]] == c
  }

  ghost predicate Answers(s: Sys) {
    forall t :: t in s.threads ==> Answered(s, t, s.threads[t])
  }

  ghost predicate Good(s: Sys) {
    Exclusion(s) && Serial(s) && Published(s) && RegistersOnce(s) && Answers(s)
  }

  lemma {:induction false} HolderAnswered(s: Sys, t: nat, lucky: bool)
    requires t in s.threads && Holds(s.threads[t]) && |s.outcomes| == |s.done|
    ensures Answered(GoOn(s, t, lucky), t, PcOf(GoOn(s, t, lucky), t))
  {
    hide AllOpen, MaxLevel;
  }

  lemma {:induction false} OutsiderAnswered(s: Sys, t: nat, lucky: bool)
    requires t in s.threads && !Holds(s.threads[t]) && Answered(s, t, s.threads[t])
    ensures Answered(GoOn(s, t, lucky), t, PcOf(GoOn(s, t, lucky), t))
  {
    hide AllOpen, MaxLevel;
  }

  lemma {:induction false} MoverAnswered(s: Sys, a: Action)
    requires Enabled(s, a) && |s.outcomes| == |s.done| && Answered(s, a.t, PcOf(s, a.t))
    ensures Answered(Next(s, a), a.t, PcOf(Next(s, a), a.t))
  {
    hide GoOn;
    if a.Go? {
      if Holds(s.threads[a.t]) {
        HolderAnswered(s, a.t, a.lucky);
      } else {
        OutsiderAnswered(s, a.t, a.lucky);
      }
    }
  }

  // The records of a run only grow, and a thread's place is its own.
  predicate Recorded(s: Sys, d: Sys, t: nat, u: nat) {
    && s.outcomes <= d.outcomes && s.done <= d.done && (s.registered ==> d.registered)
    && (u != t ==> (u in d.place <==> u in s.place) && (u in s.place ==> d.place[u] == s.place[u]))
  }

  lemma {:induction false} HolderRecords(s: Sys, t: nat, lucky: bool, u: nat)
    requires t in s.threads && Holds(s.threads[t])
    ensures Recorded(s, GoOn(s, t, lucky), t, u)
  {
    hide AllOpen, MaxLevel;
  }

  lemma {:induction false} OutsiderRecords(s: Sys, t: nat, lucky: bool, u: nat)
    requires t in s.threads && !Holds(s.threads[t])
    ensures Recorded(s, GoOn(s, t, lucky), t, u)
  {
    hide AllOpen, MaxLevel;
  }

  lemma {:induction false} RecordsGrow(s: Sys, a: Action, u: nat)
    requires Enabled(s, a)
    ensures Recorded(s, Next(s, a), a.t, u)
  {
    hide GoOn;
    if a.Go? {
      if Holds(s.threads[a.t]) {
        HolderRecords(s, a.t, a.lucky, u);
      } else {
        OutsiderRecords(s, a.t, a.lucky, u);
      }
    }
  }

  lemma {:induction false} StillAnswered(s: Sys, d: Sys, u: nat, pc: Pc)
    requires Answered(s, u, pc) && s.outcomes <= d.outcomes && s.done <= d.done && (s.registered ==> d.registered)
    requires (u in d.place <==> u in s.place) && (u in s.place ==> d.place[u] == s.place[u])
    ensures Answered(d, u, pc)
  {
  }

  lemma {:induction false} KeepsAnswers(s: Sys, a: Action)
    requires Answers(s) && |s.outcomes| == |s.done| && Enabled(s, a)
    ensures Answers(Next(s, a))
  {
    hide GoOn, Next, Enabled, Answered;
    var d := Next(s, a);
    assert Answered(s, a.t, PcOf(s, a.t)) by {
      IdleIsAnswered(s, a.t);
    }
    MoverAnswered(s, a);
    forall u | u in d.threads
      ensures Answered(d, u, d.threads[u])
    {
      assert d.threads[u] == PcOf(d, u);
      if u != a.t {
        OnlyTheMoverMoves(s, a, u);
        assert s.threads[u] == PcOf(s, u);
        RecordsGrow(s, a, u);
        StillAnswered(s, d, u, PcOf(s, u));
      }
    }
  }

  lemma {:induction false} IdleIsAnswered(s: Sys, t: nat)
    ensures t !in s.threads ==> Answered(s, t, PcOf(s, t))
    ensures t in s.threads ==> PcOf(s, t) == s.threads[t]
  {
  }

  lemma {:induction false} DoneSnoc(done: seq<Call>, c: Call)
    ensures TryAll(EMPTY, done + [c]) == TryOnce(TryAll(EMPTY, done), c.builder, c.broken).0
  {
    assert (done + [c])[..|done|] == done;
  }

  function PcOf(s: Sys, t: nat): Pc {
    if t in s.threads then s.threads[t] else Idle
  }

  predicate Stays(s: Sys, d: Sys, u: nat) {
    PcOf(d, u) == PcOf(s, u) && (u in d.threads <==> u in s.threads)
  }

  lemma {:induction false} HolderMovesAlone(s: Sys, t: nat, lucky: bool, u: nat)
    requires t in s.threads && Holds(s.threads[t]) && u != t
    ensures Stays(s, GoOn(s, t, lucky), u)
  {
    hide AllOpen, MaxLevel;
  }

  lemma {:induction false} OutsiderMovesAlone(s: Sys, t: nat, lucky: bool, u: nat)
    requires t in s.threads && !Holds(s.threads[t]) && u != t
    ensures Stays(s, GoOn(s, t, lucky), u)
  {
    hide AllOpen, MaxLevel;
  }

  lemma {:induction false} OnlyTheMoverMoves(s: Sys, a: Action, u: nat)
    requires Enabled(s, a) && u != a.t
    ensures PcOf(Next(s, a), u) == PcOf(s, u) && (u in Next(s, a).threads <==> u in s.threads)
  {
    hide GoOn;
    if a.Go? {
      if Holds(s.threads[a.t]) {
        HolderMovesAlone(s, a.t, a.lucky, u);
      } else {
        OutsiderMovesAlone(s, a.t, a.lucky, u);
      }
    }
  }

  // Only taking and releasing the lock touches it; every other access keeps a thread in the
  // locked section or out of it.
  predicate LeavesTheLock(s: Sys, d: Sys, t: nat) {
    && d.lock == s.lock && d.holder == s.holder && t in d.threads
    && (Holds(PcOf(d, t)) <==> Holds(PcOf(s, t)))
  }

  lemma {:induction false} HolderLeavesTheLock(s: Sys, t: nat, lucky: bool)
    requires t in s.threads && Holds(s.threads[t]) && !s.threads[t].Unlocking?
    ensures LeavesTheLock(s, GoOn(s, t, lucky), t)
  {
    hide AllOpen, MaxLevel;
  }

  lemma {:induction false} OutsideLeavesTheLock(s: Sys, t: nat, lucky: bool)
    requires t in s.threads && !Holds(s.threads[t]) && !s.threads[t].Spinning?
    ensures LeavesTheLock(s, GoOn(s, t, lucky), t)
  {
    hide AllOpen, MaxLevel;
  }

  lemma {:induction false} OthersLeaveTheLock(s: Sys, a: Action)
    requires Enabled(s, a) && !PcOf(s, a.t).Spinning? && !PcOf(s, a.t).Unlocking?
    ensures LeavesTheLock(s, Next(s, a), a.t)
  {
    hide GoOn;
    if a.Go? {
      if Holds(s.threads[a.t]) {
        HolderLeavesTheLock(s, a.t, a.lucky);
      } else {
        OutsideLeavesTheLock(s, a.t, a.lucky);
      }
    }
  }

  lemma {:induction false} LockMoves(s: Sys, a: Action)
    requires Enabled(s, a) && (PcOf(s, a.t).Spinning? || PcOf(s, a.t).Unlocking?)
    ensures var d := Next(s, a);
            && a.t in d.threads
            && ((d.lock == s.lock && d.holder == s.holder && Holds(PcOf(d, a.t)) == Holds(PcOf(s, a.t)))
                || (!s.lock && d.lock && d.holder == Some(a.t) && Holds(PcOf(d, a.t)))
                || (Holds(PcOf(s, a.t)) && !d.lock && d.holder.None? && !Holds(PcOf(d, a.t))))
  {
    hide AllOpen, MaxLevel;
  }

  lemma {:induction false} LockFollows(s: Sys, a: Action, u: nat)
    requires Enabled(s, a) && (s.lock <==> s.holder.Some?)
    requires Holds(PcOf(s, a.t)) <==> s.holder == Some(a.t)
    ensures var d := Next(s, a);
            && (d.lock <==> d.holder.Some?)
            && (Holds(PcOf(d, a.t)) <==> d.holder == Some(a.t))
            && (u != a.t ==> (d.holder == Some(u) <==> s.holder == Some(u)))
            && (d.holder.Some? ==> d.holder == s.holder || d.holder.value == a.t)
            && a.t in d.threads
  {
    hide AllOpen, MaxLevel, GoOn, Next;
    if PcOf(s, a.t).Spinning? || PcOf(s, a.t).Unlocking? {
      LockMoves(s, a);
    } else {
      OthersLeaveTheLock(s, a);
    }
  }

  lemma {:induction false} KeepsExclusion(s: Sys, a: Action)
    requires Exclusion(s) && Enabled(s, a)
    ensures Exclusion(Next(s, a))
  {
    var d := Next(s, a);
    LockFollows(s, a, a.t);
    hide GoOn, Next, Enabled, Holds;
    forall u | u in d.threads
      ensures Holds(d.threads[u]) <==> d.holder == Some(u)
    {
      if u != a.t {
        OnlyTheMoverMoves(s, a, u);
        LockFollows(s, a, u);
        assert d.threads[u] == PcOf(d, u) && s.threads[u] == PcOf(s, u);
      } else {
        assert d.threads[u] == PcOf(d, u);
      }
    }
    if d.holder.Some? && d.holder.value != a.t {
      OnlyTheMoverMoves(s, a, d.holder.value);
    }
  }

  // The holder gets on with its call; nobody else touches the core.
  predicate Advances(base: Core, s: Sys, t: nat, d: Sys) {
    && t in d.threads && Progress(base, d.core, d.threads[t])
    && d.done == s.done && d.outcomes == s.outcomes && d.wins == s.wins && d.holder == s.holder
  }

  lemma {:induction false} InitAdvances(base: Core, s: Sys, t: nat, lucky: bool)
    requires t in s.threads && InInit(s.threads[t]) && Progress(base, s.core, s.threads[t])
    ensures Advances(base, s, t, GoOn(s, t, lucky))
  {
    hide AllOpen, MaxLevel;
  }

  lemma {:induction false} HolderAdvances(base: Core, s: Sys, t: nat, lucky: bool)
    requires t in s.threads && Holds(s.threads[t]) && !s.threads[t].Unlocking? && !InInit(s.threads[t])
    requires Consistent(base) && Progress(base, s.core, s.threads[t])
    ensures Advances(base, s, t, GoOn(s, t, lucky))
  {
    hide AllOpen, MaxLevel;
  }

  lemma {:induction false} OthersLeaveTheCore(s: Sys, a: Action)
    requires Enabled(s, a) && !Holds(PcOf(s, a.t))
    ensures var d := Next(s, a);
            && d.core == s.core && d.done == s.done && d.outcomes == s.outcomes && d.wins == s.wins
            && (d.holder != s.holder ==> !s.lock && d.holder == Some(a.t) && PcOf(d, a.t).CheckSame?)
  {
    hide AllOpen, MaxLevel;
  }

  lemma {:induction false} KeepsSerial(s: Sys, a: Action)
    requires Exclusion(s) && Serial(s) && Enabled(s, a)
    ensures Serial(Next(s, a))
  {
    hide AllOpen, MaxLevel, TryAll, GoOn, TryOnce, Consistent, OutcomeAt;
    if a.Go? && s.threads[a.t].Unlocking? {
      UnlockKeepsSerial(s, a);
    } else if a.Go? && Holds(s.threads[a.t]) {
      if InInit(s.threads[a.t]) {
        InitAdvances(TryAll(EMPTY, s.done), s, a.t, a.lucky);
      } else {
        HolderAdvances(TryAll(EMPTY, s.done), s, a.t, a.lucky);
      }
    } else {
      OthersLeaveTheCore(s, a);
      if s.holder.Some? {
        OnlyTheMoverMoves(s, a, s.holder.value);
      }
    }
  }

  lemma {:induction false} UnlockKeepsSerial(s: Sys, a: Action)
    requires Exclusion(s) && Serial(s) && Enabled(s, a)
    requires a.Go? && s.threads[a.t].Unlocking?
    ensures Serial(Next(s, a))
  {
    hide AllOpen, MaxLevel, TryAll, OutcomeAt;
    var c := s.threads[a.t].call;
    DoneSnoc(s.done, c);
    SetupIsAtomic(TryAll(EMPTY, s.done), c.builder, c.broken);
    OutcomesSnoc(s.done, s.outcomes, c, s.threads[a.t].outcome);
  }

  lemma {:induction false} OutcomesSnoc(done: seq<Call>, outcomes: seq<Outcome>, c: Call, o: Outcome)
    requires |outcomes| == |done| && forall i :: 0 <= i < |done| ==> outcomes[i] == OutcomeAt(done, i)
    requires o == TryOnce(TryAll(EMPTY, done), c.builder, c.broken).1
    ensures forall i :: 0 <= i <= |done| ==> (outcomes + [o])[i] == OutcomeAt(done + [c], i)
  {
    hide TryOnce, TryAll;
    forall i | 0 <= i <= |done|
      ensures (outcomes + [o])[i] == OutcomeAt(done + [c], i)
    {
      assert (done + [c])[..i] == done[..i];
      assert done[..|done|] == done;
    }
  }

  lemma {:induction false} KeepsPublished(s: Sys, a: Action)
    requires Good(s) && Enabled(s, a)
    ensures Published(Next(s, a))
  {
    hide AllOpen, MaxLevel, TryAll;
    if a.Go? && s.threads[a.t].Unlocking? {
      var c := s.threads[a.t].call;
      SetupIsAtomic(TryAll(EMPTY, s.done), c.builder, c.broken);
    }
  }

  // A winning setup found nothing initialised, so nobody won before it.
  lemma {:induction false} WinnerIsFirst(s: Sys, t: nat)
    requires Exclusion(s) && Serial(s) && t in s.threads && s.threads[t].Unlocking? && s.threads[t].outcome == First
    ensures s.wins == 0
  {
    hide TryAll, AllOpen;
    assert s.holder == Some(t);
  }

  predicate NoWinner(s: Sys, d: Sys, t: nat) {
    d.winner == s.winner && d.wins == s.wins && d.registrations == s.registrations && !PcOf(d, t).Registering?
  }

  lemma {:induction false} HolderDoesNotWin(s: Sys, t: nat, lucky: bool)
    requires t in s.threads && Holds(s.threads[t]) && !s.threads[t].Unlocking?
    ensures NoWinner(s, GoOn(s, t, lucky), t)
  {
    hide AllOpen, MaxLevel;
  }

  lemma {:induction false} OutsiderDoesNotWin(s: Sys, t: nat, lucky: bool)
    requires t in s.threads && !Holds(s.threads[t]) && !s.threads[t].Registering?
    ensures NoWinner(s, GoOn(s, t, lucky), t)
  {
    hide AllOpen, MaxLevel;
  }

  lemma {:induction false} OthersDoNotWin(s: Sys, a: Action)
    requires Enabled(s, a) && !PcOf(s, a.t).Unlocking? && !PcOf(s, a.t).Registering?
    ensures NoWinner(s, Next(s, a), a.t)
  {
    hide GoOn;
    if a.Go? {
      if Holds(s.threads[a.t]) {
        HolderDoesNotWin(s, a.t, a.lucky);
      } else {
        OutsiderDoesNotWin(s, a.t, a.lucky);
      }
    }
  }

  lemma {:induction false} WinnerFollows(s: Sys, a: Action, u: nat)
    requires Enabled(s, a) && (PcOf(s, a.t).Registering? <==> s.winner == Some(a.t))
    requires s.winner.Some? ==> s.wins == 1 && s.registrations == 0
    requires s.registrations <= s.wins
    requires PcOf(s, a.t).Unlocking? && PcOf(s, a.t).outcome == First ==> s.wins == 0
    ensures var d := Next(s, a);
            && (PcOf(d, a.t).Registering? <==> d.winner == Some(a.t))
            && (u != a.t ==> (d.winner == Some(u) <==> s.winner == Some(u)))
            && (d.winner.Some? ==> d.wins == 1 && d.registrations == 0)
            && d.registrations <= d.wins
  {
    if !PcOf(s, a.t).Unlocking? && !PcOf(s, a.t).Registering? {
      hide GoOn, Next;
      OthersDoNotWin(s, a);
    } else {
      hide AllOpen, MaxLevel;
    }
  }

  lemma {:induction false} KeepsRegistersOnce(s: Sys, a: Action)
    requires Exclusion(s) && Serial(s) && RegistersOnce(s) && Enabled(s, a)
    ensures RegistersOnce(Next(s, a))
  {
    var d := Next(s, a);
    if a.t in s.threads && s.threads[a.t].Unlocking? && s.threads[a.t].outcome == First {
      WinnerIsFirst(s, a.t);
    }
    hide GoOn, Next, Enabled, Serial, Exclusion;
    assert a.t !in s.threads ==> s.winner != Some(a.t);
    WinnerFollows(s, a, a.t);
    forall u | u in d.threads
      ensures d.threads[u].Registering? <==> d.winner == Some(u)
    {
      if u != a.t {
        OnlyTheMoverMoves(s, a, u);
        WinnerFollows(s, a, u);
        assert d.threads[u] == PcOf(d, u) && s.threads[u] == PcOf(s, u);
      } else {
        assert d.threads[u] == PcOf(d, u);
      }
    }
    if d.winner.Some? {
      var u := d.winner.value;
      if u != a.t {
        OnlyTheMoverMoves(s, a, u);
        WinnerFollows(s, a, u);
      } else {
        assert PcOf(d, u).Registering?;
      }
    }
  }

  lemma {:induction false} RunsAreGood(s: Sys, acts: seq<Action>)
    requires Good(s) && Legal(s, acts)
    ensures Good(After(s, acts))
    decreases |acts|
  {
    if acts != [] {
      KeepsExclusion(s, acts[0]);
      KeepsSerial(s, acts[0]);
      KeepsPublished(s, acts[0]);
      KeepsRegistersOnce(s, acts[0]);
      KeepsAnswers(s, acts[0]);
      RunsAreGood(Next(s, acts[0]), acts[1..]);
    }
  }

  lemma {:induction false} InitIsGood(registered: bool)
    ensures Good(Init(registered))
  {
  }

  // --------------------------------------------------------------- the results

  // Over all interleavings of any number of setup and lookup threads.
  lemma {:induction false} PublicationIsSafe(registered: bool, acts: seq<Action>, t: nat, u: nat)
    requires Legal(Init(registered), acts)
    requires t in After(Init(registered), acts).threads && u in After(Init(registered), acts).threads
    ensures var s := After(Init(registered), acts);
            // at most one thread is in the locked section
            && (Holds(s.threads[t]) && Holds(s.threads[u]) ==> t == u)
            // at most one setup gets Ok(true), and set_logger is called at most once
            && s.wins <= 1 && s.registrations <= 1
            // whoever was handed the logger sees initialised sinks ...
            && (HasLogger(s.threads[t]) ==> s.core.inited && s.core.inner.Some?)
            // ... and no exclusive initialisation can be under way then
            && (HasLogger(s.threads[t]) ==> !InInit(s.threads[u]))
  {
    var s := After(Init(registered), acts);
    RunsAreGood(Init(registered), acts);
    InitedIsInitialised(s);
  }

  lemma {:induction false} InitedIsInitialised(s: Sys)
    requires Good(s)
    ensures s.core.inited ==> s.core.inner.Some?
    ensures s.core.inited ==> forall u :: u in s.threads ==> !InInit(s.threads[u])
  {
    hide AllOpen, MaxLevel, TryAll;
    var base := TryAll(EMPTY, s.done);
    if s.holder.Some? && s.threads[s.holder.value].Unlocking? {
      var c := s.threads[s.holder.value].call;
      SetupIsAtomic(base, c.builder, c.broken);
    }
  }

  // Whenever the lock is free, the shared core is the result of the completed setups run
  // one at a time in the order of their locking; so all that Setup proves of such runs
  // holds for every interleaving: in particular sinks and checksum belong together.
  lemma {:induction false} SetupsAreSerial(registered: bool, acts: seq<Action>)
    requires Legal(Init(registered), acts) && !After(Init(registered), acts).lock
    ensures var s := After(Init(registered), acts);
            && s.core == TryAll(EMPTY, s.done) && Consistent(s.core) && (s.wins == 1 <==> s.core.inited)
            && |s.outcomes| == |s.done| && forall i :: 0 <= i < |s.done| ==> s.outcomes[i] == OutcomeAt(s.done, i)
  {
    RunsAreGood(Init(registered), acts);
  }

  // What setup_log told a thread, over all interleavings: success exactly if its call, at its
  // place in the serial order, did not fail and - for a first init - found no other logger.
  lemma {:induction false} AnswersFit(registered: bool, acts: seq<Action>, t: nat)
    requires Legal(Init(registered), acts)
    requires t in After(Init(registered), acts).threads && After(Init(registered), acts).threads[t].Returned?
    ensures var s := After(Init(registered), acts);
            && t in s.place && s.place[t] < |s.done|
            && var o := OutcomeAt(s.done, s.place[t]);
               && (s.threads[t].ok ==> o != Failed)
               && (!s.threads[t].ok ==> o == Failed || (o == First && s.registered))
  {
    RunsAreGood(Init(registered), acts);
    hide OutcomeAt;
  }

  // --------------------------------------------------------------------- lookups

  lemma {:induction false} StaysInited(s: Sys, a: Action)
    requires Enabled(s, a) && s.core.inited
    ensures Next(s, a).core.inited
  {
    hide AllOpen, MaxLevel;
  }

  // A lookup that is under way or over, and did not miss the logger.
  predicate Finding(s: Sys, t: nat) {
    s.core.inited && (PcOf(s, t).Loading? || PcOf(s, t) == Looked(true))
  }

  predicate StartsAnew(a: Action, t: nat) {
    !a.Go? && a.t == t
  }

  lemma {:induction false} KeepsFinding(s: Sys, a: Action, t: nat)
    requires Enabled(s, a) && Finding(s, t) && !StartsAnew(a, t)
    ensures Finding(Next(s, a), t)
  {
    StaysInited(s, a);
    if a.t != t {
      OnlyTheMoverMoves(s, a, t);
    }
  }

  lemma {:induction false} FindsOn(s: Sys, acts: seq<Action>, t: nat)
    requires Legal(s, acts) && Finding(s, t) && forall i :: 0 <= i < |acts| ==> !StartsAnew(acts[i], t)
    ensures Finding(After(s, acts), t)
    decreases |acts|
  {
    hide Finding, StartsAnew;
    if acts != [] {
      KeepsFinding(s, acts[0], t);
      FindsOn(Next(s, acts[0]), acts[1..], t);
    }
  }

  // A lookup that starts when some thread has the logger, or when the lock is free after a
  // first init, never misses it, whatever the other threads do; and its next step ends it.
  lemma {:induction false} LookupFinds(registered: bool, acts: seq<Action>, u: nat, t: nat, more: seq<Action>,
                                       lucky: bool)
    requires Legal(Init(registered), acts)
    requires var s := After(Init(registered), acts);
             && ((u in s.threads && HasLogger(s.threads[u])) || (!s.lock && s.wins == 1))
             && Enabled(s, StartLookup(t)) && Legal(Next(s, StartLookup(t)), more)
    requires forall i :: 0 <= i < |more| ==> !StartsAnew(more[i], t)
    ensures var d := After(Next(After(Init(registered), acts), StartLookup(t)), more);
            && (PcOf(d, t) == Loading || PcOf(d, t) == Looked(true))
            && (PcOf(d, t) == Loading ==> Enabled(d, Go(t, lucky)) && PcOf(Next(d, Go(t, lucky)), t) == Looked(true))
  {
    hide StartsAnew, TryAll, TryOnce;
    var s := After(Init(registered), acts);
    InitIsGood(registered);
    RunsAreGood(Init(registered), acts);
    assert s.core.inited;
    FindsOn(Next(s, StartLookup(t)), more, t);
  }

  // ------------------------------------------------------------ a setup on its own

  // How many accesses a thread makes at most before it is done, the lock being free.
  function StepsLeft(pc: Pc): nat {
    match pc
    case Spinning(_) => 9
    case CheckSame(_) => 8
    case OpenSinks(_) => 7
    case LevelSame(_) => 6
    case Rebuild(_) => 7
    case StoreSinks(_) => 6
    case StoreSum(_) => 5
    case LevelDiff(_) => 4
    case InitBuild(_) => 7
    case InitInner(_) => 6
    case InitSum(_) => 5
    case InitFlag(_) => 4
    case Unlocking(_, _) => 3
    case Registering(_) => 2
    case RegisterLevel(_) => 1
    case Loading => 1
    case _ => 0
  }

  predicate Counts(s: Sys, d: Sys, t: nat)
    requires t in s.threads
  {
    t in d.threads && StepsLeft(d.threads[t]) < StepsLeft(s.threads[t])
  }

  lemma {:induction false} HolderCounts(s: Sys, t: nat)
    requires t in s.threads && Holds(s.threads[t])
    ensures Counts(s, GoOn(s, t, true), t)
  {
    hide AllOpen, MaxLevel;
  }

  lemma {:induction false} OutsiderCounts(s: Sys, t: nat)
    requires t in s.threads && !Holds(s.threads[t]) && !Resting(s.threads[t]) && (s.threads[t].Spinning? ==> !s.lock)
    ensures Counts(s, GoOn(s, t, true), t)
  {
    hide AllOpen, MaxLevel;
  }

  // Only a thread that waits for the lock may make an access in vain.
  lemma {:induction false} EveryAccessCounts(s: Sys, t: nat)
    requires t in s.threads && !Resting(s.threads[t]) && (s.threads[t].Spinning? ==> !s.lock)
    ensures t in GoOn(s, t, true).threads && StepsLeft(GoOn(s, t, true).threads[t]) < StepsLeft(s.threads[t])
  {
    hide GoOn, StepsLeft;
    if Holds(s.threads[t]) {
      HolderCounts(s, t);
    } else {
      OutsiderCounts(s, t);
    }
  }

  // No deadlock: while any thread is not done, one of them gets on - the one that holds the
  // lock, if it is held.
  lemma {:induction false} SomeoneGetsOn(s: Sys, t: nat)
    requires Exclusion(s) && t in s.threads && !Resting(s.threads[t])
    ensures var u := if s.holder.Some? then s.holder.value else t;
            && u in s.threads && Enabled(s, Go(u, true))
            && StepsLeft(PcOf(Next(s, Go(u, true)), u)) < StepsLeft(PcOf(s, u))
  {
    var u := if s.holder.Some? then s.holder.value else t;
    EveryAccessCounts(s, u);
    hide GoOn;
  }

  // Thread t by itself, until it is done.
  function Alone(s: Sys, t: nat): Sys
    requires t in s.threads && (s.threads[t].Spinning? ==> !s.lock)
    decreases StepsLeft(s.threads[t])
  {
    if Resting(s.threads[t]) then s
    else
      EveryAccessCounts(s, t);
      var d := GoOn(s, t, true);
      if d.threads[t].Spinning? then d else Alone(d, t)
  }

  function GlobalOf(s: Sys): Global {
    Global(s.core, s.level, s.registered)
  }

  function CallOf(pc: Pc): Option<Call> {
    if Holds(pc) || pc.Spinning? || pc.Registering? || pc.RegisterLevel? then Some(pc.call) else None
  }

  // How far thread t has come with call c, from the state g at which it began.
  predicate OnTheWay(g: Global, c: Call, s: Sys, t: nat)
    requires t in s.threads
  {
    var pc := s.threads[t];
    match pc
    case Spinning(_) => CallOf(pc) == Some(c) && !s.lock && GlobalOf(s) == g
    case Unlocking(_, o) =>
      && CallOf(pc) == Some(c) && s.lock && (s.core, o) == TryOnce(g.core, c.builder, c.broken)
      && s.registered == g.registered && s.level == if o == Again then MaxLevel(c.builder.sinks) else g.level
    case Registering(_) =>
      && CallOf(pc) == Some(c) && !s.lock && (s.core, First) == TryOnce(g.core, c.builder, c.broken)
      && s.registered == g.registered && s.level == g.level
    case RegisterLevel(_) =>
      && CallOf(pc) == Some(c) && !s.lock && (s.core, First) == TryOnce(g.core, c.builder, c.broken)
      && !g.registered && s.registered && s.level == g.level
    case Returned(ok) => !s.lock && (GlobalOf(s), ok) == SetupOnce(g, c.builder, c.broken)
    case _ =>
      && Holds(pc) && CallOf(pc) == Some(c) && s.lock && Progress(g.core, s.core, pc)
      && s.level == g.level && s.registered == g.registered
  }

  lemma {:induction false} InitOnTheWay(g: Global, c: Call, s: Sys, t: nat)
    requires t in s.threads && InInit(s.threads[t]) && OnTheWay(g, c, s, t) && Consistent(g.core)
    ensures OnTheWay(g, c, GoOn(s, t, true), t)
  {
    hide AllOpen, MaxLevel;
  }

  lemma {:induction false} EndOnTheWay(g: Global, c: Call, s: Sys, t: nat)
    requires t in s.threads && OnTheWay(g, c, s, t) && Consistent(g.core)
    requires s.threads[t].Unlocking? || s.threads[t].Registering? || s.threads[t].RegisterLevel?
    ensures OnTheWay(g, c, GoOn(s, t, true), t)
  {
    hide AllOpen, MaxLevel;
  }

  lemma {:induction false} LockedOnTheWay(g: Global, c: Call, s: Sys, t: nat)
    requires t in s.threads && OnTheWay(g, c, s, t) && Consistent(g.core)
    requires s.threads[t].Spinning? || (Holds(s.threads[t]) && !InInit(s.threads[t]) && !s.threads[t].Unlocking?)
    ensures OnTheWay(g, c, GoOn(s, t, true), t)
  {
    hide AllOpen, MaxLevel;
  }

  lemma {:induction false} AloneArrives(g: Global, c: Call, s: Sys, t: nat)
    requires t in s.threads && OnTheWay(g, c, s, t) && Consistent(g.core)
    ensures var d := Alone(s, t);
            t in d.threads && d.threads[t].Returned? && OnTheWay(g, c, d, t)
    decreases StepsLeft(s.threads[t])
  {
    hide GoOn, SetupOnce, TryOnce, Progress, MaxLevel;
    if !s.threads[t].Returned? {
      EveryAccessCounts(s, t);
      if InInit(s.threads[t]) {
        InitOnTheWay(g, c, s, t);
      } else if s.threads[t].Spinning? || (Holds(s.threads[t]) && !s.threads[t].Unlocking?) {
        LockedOnTheWay(g, c, s, t);
      } else {
        EndOnTheWay(g, c, s, t);
      }
      AloneArrives(g, c, GoOn(s, t, true), t);
    }
  }

  // A setup that runs by itself from a free lock is the setup of module Setup, access by
  // access: the same sinks, checksum, level, registration and answer.
  lemma {:induction false} AloneIsSetupOnce(s: Sys, t: nat, c: Call)
    requires t in s.threads && s.threads[t] == Spinning(c) && !s.lock && Consistent(s.core)
    ensures var d := Alone(s, t);
            && t in d.threads && !d.lock
            && (GlobalOf(d), d.threads[t]) ==
               (SetupOnce(GlobalOf(s), c.builder, c.broken).0, Returned(SetupOnce(GlobalOf(s), c.builder, c.broken).1))
  {
    AloneArrives(GlobalOf(s), c, s, t);
  }
}
