// Setting up the global logger, one call at a time: first init, same configuration,
// reconfiguration; then the level gate in front of the sinks.
module Setup {
  import opened Common
  import opened Config

  // Once or Dyn is chosen by the first init.
  datatype Inner = Inner(dynamic: bool, sinks: seq<SinkConfig>)

  datatype Core = Core(inner: Option<Inner>, checksum: Checksum, inited: bool)

  datatype Outcome = First | Again | Failed

  const EMPTY: Core := Core(None, Zero, false)

  // What happens under the lock, tracing left out. `broken` are the sinks that cannot be
  // opened at this moment.
  function TryOnce(c: Core, b: Builder, broken: set<SinkConfig>): (Core, Outcome) {
    if c.inner.None? then
      if AllOpen(b.sinks, broken) then (Core(Some(Inner(b.dynamic, b.sinks)), Of(b), true), First) else (c, Failed)
    else if c.checksum == Of(b) then
      if AllOpen(c.inner.value.sinks, broken) then (c, Again) else (c, Failed)
    else if b.dynamic && AllOpen(b.sinks, broken) && c.inner.value.dynamic then
      (c.(inner := Some(c.inner.value.(sinks := b.sinks)), checksum := Of(b)), Again)
    else (c, Failed)
  }

  // The stored checksum is that of the configuration whose sinks are installed.
  predicate Consistent(c: Core) {
    && (c.inner.Some? <==> c.inited)
    && (c.inner.Some? ==> c.checksum.Of? && c.checksum.builder.sinks == c.inner.value.sinks)
    && (c.inner.Some? ==> c.checksum.builder.dynamic == c.inner.value.dynamic)
  }

  datatype Call = Call(builder: Builder, broken: set<SinkConfig>)

  function TryAll(c: Core, calls: seq<Call>): Core {
    if calls == [] then c
    else TryOnce(TryAll(c, calls[..|calls| - 1]), calls[|calls| - 1].builder, calls[|calls| - 1].broken).0
  }

  // Setup is atomic: a failed call leaves everything as it was; a successful one leaves
  // exactly the sinks and the checksum of its configuration; nothing else can happen.
  lemma {:induction false} SetupIsAtomic(c: Core, b: Builder, broken: set<SinkConfig>)
    requires Consistent(c)
    ensures var (d, o) := TryOnce(c, b, broken);
            && Consistent(d)
            && (o == Failed ==> d == c)
            && (o != Failed ==> d.checksum == Of(b) && d.inner.Some? && d.inner.value.sinks == b.sinks)
            && (o == First <==> c.inner.None? && d.inner.Some?)
            && (c.inner.Some? ==> d.inner.Some? && d.inner.value.dynamic == c.inner.value.dynamic)
            && (c.inner.Some? && !c.inner.value.dynamic ==> d == c)
  {
  }

  // When each outcome comes about. A first configuration is installed when its sinks open;
  // the one in force opens its installed sinks again; another one takes over when both it and
  // the first are dynamic and its sinks open. Nothing else succeeds.
  lemma {:induction false} OutcomesExactly(c: Core, b: Builder, broken: set<SinkConfig>)
    requires Consistent(c)
    ensures var o := TryOnce(c, b, broken).1;
            var opens := forall i :: 0 <= i < |b.sinks| ==> b.sinks[i] !in broken;
            && (o == First <==> c.inner.None? && opens)
            && (o == Again <==>
                  && c.inner.Some?
                  && if c.checksum == Of(b) then forall i :: 0 <= i < |c.inner.value.sinks| ==>
                      c.inner.value.sinks[i] !in broken
                     else b.dynamic && c.inner.value.dynamic && opens)
  {
  }

  function OutcomeAt(calls: seq<Call>, i: nat): Outcome
    requires i < |calls|
  {
    TryOnce(TryAll(EMPTY, calls[..i]), calls[i].builder, calls[i].broken).1
  }

  // Call i is the last one that succeeded.
  predicate LastSuccess(calls: seq<Call>, i: nat) {
    i < |calls| && OutcomeAt(calls, i) != Failed && forall j :: i < j < |calls| ==> OutcomeAt(calls, j) == Failed
  }

  lemma {:induction false} OutcomesOfPrefix(calls: seq<Call>, i: nat)
    requires i + 1 < |calls|
    ensures OutcomeAt(calls, i) == OutcomeAt(calls[..|calls| - 1], i)
  {
    assert calls[..|calls| - 1][..i] == calls[..i];
  }

  // Sinks and checksum are those of this configuration.
  predicate Stands(c: Core, b: Builder) {
    c.inner.Some? && c.inner.value.sinks == b.sinks && c.checksum == Of(b)
  }

  lemma {:induction false} LastSuccessOfPrefix(calls: seq<Call>, i: nat)
    requires LastSuccess(calls, i) && i + 1 < |calls|
    ensures LastSuccess(calls[..|calls| - 1], i) && OutcomeAt(calls, |calls| - 1) == Failed
  {
    var init := calls[..|calls| - 1];
    hide OutcomeAt;
    OutcomesOfPrefix(calls, i);
    forall j | i < j < |init|
      ensures OutcomeAt(init, j) == Failed
    {
      OutcomesOfPrefix(calls, j);
    }
  }

  // In every run of successful and failing setups the installed sinks and the checksum
  // are those of the last call that succeeded.
  lemma {:induction false} LastSuccessStands(calls: seq<Call>)
    ensures var c := TryAll(EMPTY, calls);
            && Consistent(c)
            && (c.inner.None? <==> forall i :: 0 <= i < |calls| ==> OutcomeAt(calls, i) == Failed)
            && (forall i :: 0 <= i < |calls| && LastSuccess(calls, i) ==> Stands(c, calls[i].builder))
  {
    if calls != [] {
      var n, init := |calls| - 1, calls[..|calls| - 1];
      LastSuccessStands(init);
      var c, d := TryAll(EMPTY, init), TryAll(EMPTY, calls);
      SetupIsAtomic(c, calls[n].builder, calls[n].broken);
      assert (d, OutcomeAt(calls, n)) == TryOnce(c, calls[n].builder, calls[n].broken);
      hide TryOnce, TryAll, Consistent, LastSuccess, OutcomeAt;
      forall i | 0 <= i < n
        ensures OutcomeAt(calls, i) == OutcomeAt(init, i)
      {
        OutcomesOfPrefix(calls, i);
      }
      forall i | 0 <= i < |calls| && LastSuccess(calls, i)
        ensures Stands(d, calls[i].builder)
      {
        if i < n {
          LastSuccessOfPrefix(calls, i);
        } else {
          LastIsSuccess(calls, i);
        }
      }
    }
  }

  lemma {:induction false} LastIsSuccess(calls: seq<Call>, i: nat)
    requires LastSuccess(calls, i)
    ensures i < |calls| && OutcomeAt(calls, i) != Failed
  {
  }

  // The once or dynamic kind chosen by the first init is there for good, and what a
  // once-logger installed is never replaced.
  lemma {:induction false} KindNeverChanges(calls: seq<Call>, more: seq<Call>)
    ensures var c, d := TryAll(EMPTY, calls), TryAll(EMPTY, calls + more);
            c.inner.Some? ==>
              && d.inner.Some? && d.inner.value.dynamic == c.inner.value.dynamic
              && (!c.inner.value.dynamic ==> d == c)
  {
    if more == [] {
      assert calls + more == calls;
    } else {
      var init := calls + more[..|more| - 1];
      assert (calls + more)[..|calls + more| - 1] == init;
      KindNeverChanges(calls, more[..|more| - 1]);
      LastSuccessStands(init);
      SetupIsAtomic(TryAll(EMPTY, init), more[|more| - 1].builder, more[|more| - 1].broken);
    }
  }

  // ------------------------------------------------------------- the level gate

  // `registered` is whether log::set_logger was called already, by anyone.
  datatype Global = Global(core: Core, level: int, registered: bool)

  // setup_log: the first init registers the logger and sets the level after that.
  function SetupOnce(g: Global, b: Builder, broken: set<SinkConfig>): (Global, bool) {
    var (core, outcome) := TryOnce(g.core, b, broken);
    match outcome
    case Failed => (g.(core := core), false)
    case Again => (g.(core := core, level := MaxLevel(b.sinks)), true)
    case First =>
      if g.registered then (g.(core := core), false)
      else (Global(core, MaxLevel(b.sinks), true), true)
  }

  // A failed setup leaves everything as it was, with one exception: a first init that
  // installs its sinks and then finds another logger registered.
  lemma {:induction false} FailureIsCleanExactly(g: Global, b: Builder, broken: set<SinkConfig>)
    ensures var (h, ok) := SetupOnce(g, b, broken);
            !ok ==> (h == g <==> !(g.core.inner.None? && g.registered && AllOpen(b.sinks, broken)))
    ensures g.core.inner.None? && g.registered && AllOpen(b.sinks, broken) ==>
              SetupOnce(g, b, broken) == (g.(core := Core(Some(Inner(b.dynamic, b.sinks)), Of(b), true)), false)
  {
  }

  // What a caller of setup_log gets, and the level and the registration that come with it.
  lemma {:induction false} SetupExactly(g: Global, b: Builder, broken: set<SinkConfig>)
    ensures var (h, ok) := SetupOnce(g, b, broken);
            var (core, o) := TryOnce(g.core, b, broken);
            && h.core == core
            && (ok <==> o == Again || (o == First && !g.registered))
            && h.level == (if ok then MaxLevel(b.sinks) else g.level)
            && (h.registered <==> g.registered || o == First)
  {
  }

  function SetupAll(g: Global, calls: seq<Call>): Global {
    if calls == [] then g
    else SetupOnce(SetupAll(g, calls[..|calls| - 1]), calls[|calls| - 1].builder, calls[|calls| - 1].broken).0
  }

  function Installed(g: Global): seq<SinkConfig> {
    if g.core.inner.Some? then g.core.inner.value.sinks else []
  }

  // Each sink takes the records up to its own level, in the order of the sinks.
  function Deliver(sinks: seq<SinkConfig>, record: Level): (r: seq<SinkConfig>)
    ensures forall s :: s in r <==> s in sinks && record <= s.level
  {
    if sinks == [] then []
    else (if record <= sinks[0].level then [sinks[0]] else []) + Deliver(sinks[1..], record)
  }

  // Each sink is asked alone: what one sink gets does not depend on the others, and the
  // order of the deliveries is the order of the sinks.
  lemma {:induction false} EachSinkAlone(a: seq<SinkConfig>, s: SinkConfig, b: seq<SinkConfig>, record: Level)
    ensures Deliver([s], record) == if record <= s.level then [s] else []
    ensures Deliver(a + [s] + b, record) == Deliver(a, record) + Deliver([s], record) + Deliver(b, record)
  {
    DeliverConcat(a + [s], b, record);
    DeliverConcat(a, [s], record);
    assert [s][1..] == [];
  }

  lemma {:induction false} DeliverConcat(a: seq<SinkConfig>, b: seq<SinkConfig>, record: Level)
    ensures Deliver(a + b, record) == Deliver(a, record) + Deliver(b, record)
  {
    if a == [] {
      assert a + b == b;
    } else {
      assert (a + b)[0] == a[0] && (a + b)[1..] == a[1..] + b;
      DeliverConcat(a[1..], b, record);
      Associates(if record <= a[0].level then [a[0]] else [], Deliver(a[1..], record), Deliver(b, record));
    }
  }

  predicate LevelFits(g: Global) {
    && Consistent(g.core)
    && (g.core.inner.Some? ==> g.registered && g.level == MaxLevel(g.core.inner.value.sinks))
  }

  // After any sequence of setups, failed ones included, the global level is the maximum
  // over the installed sinks, as long as no other logger took the place before.
  lemma {:induction false} LevelAlwaysFits(calls: seq<Call>)
    ensures LevelFits(SetupAll(Global(EMPTY, OFF, false), calls))
    ensures SetupAll(Global(EMPTY, OFF, false), calls).registered ==>
        SetupAll(Global(EMPTY, OFF, false), calls).core.inner.Some?
  {
    if calls != [] {
      LevelAlwaysFits(calls[..|calls| - 1]);
      var g := SetupAll(Global(EMPTY, OFF, false), calls[..|calls| - 1]);
      SetupIsAtomic(g.core, calls[|calls| - 1].builder, calls[|calls| - 1].broken);
    }
  }

  lemma {:induction false} AboveAllNothing(sinks: seq<SinkConfig>, record: Level)
    requires MaxLevel(sinks) < record
    ensures Deliver(sinks, record) == []
  {
    if sinks != [] {
      assert sinks[0].level <= MaxLevel(sinks);
      AboveAllNothing(sinks[1..], record);
    }
  }

  // The gate loses nothing: checking the global level first and then asking each sink
  // delivers the same records to the same sinks in the same order as asking each alone.
  lemma {:induction false} GateIsLossless(calls: seq<Call>, record: Level)
    ensures var g := SetupAll(Global(EMPTY, OFF, false), calls);
            (if record <= g.level then Deliver(Installed(g), record) else []) == Deliver(Installed(g), record)
  {
    LevelAlwaysFits(calls);
    var g := SetupAll(Global(EMPTY, OFF, false), calls);
    if g.core.inner.Some? && g.level < record {
      AboveAllNothing(Installed(g), record);
    }
  }

  // ------------------------------------------------------------ the static itself

  lemma {:induction false} DeliverFrom(sinks: seq<SinkConfig>, i: nat, record: Level)
    requires i < |sinks|
    ensures Deliver(sinks[i..], record) ==
        (if record <= sinks[i].level then [sinks[i]] else []) + Deliver(sinks[i + 1..], record)
  {
    assert sinks[i..][1..] == sinks[i + 1..];
  }

  class GlobalLogger {
    var lock: bool
    var inited: bool
    var configChecksum: Checksum
    var inner: Option<Inner>
    // log::set_max_level and log::set_logger are process-wide.
    var maxLevel: int
    var registered: bool

    ghost function View(): Global
      reads this
    {
      Global(Core(inner, configChecksum, inited), maxLevel, registered)
    }

    constructor ()
      ensures View() == Global(EMPTY, OFF, false) && !lock
    {
      lock, inited, configChecksum, inner := false, false, Zero, None;
      maxLevel, registered := OFF, false;
    }

    method Open(broken: set<SinkConfig>) returns (ok: bool)
      ensures ok <==> inner.None? || AllOpen(inner.value.sinks, broken)
    {
      if inner.Some? {
        var sinks := inner.value.sinks;
        for i := 0 to |sinks|
          invariant AllOpen(sinks[..i], broken)
        {
          if sinks[i] in broken {
            return false;
          }
          assert sinks[..i + 1] == sinks[..i] + [sinks[i]];
        }
        assert sinks[..|sinks|] == sinks;
      }
      return true;
    }

    method CheckTheSame(b: Builder) returns (r: Option<bool>)
      ensures r == if inner.None? then None else Some(configChecksum == Of(b))
    {
      if inner.Some? {
        return Some(configChecksum == Of(b));
      }
      return None;
    }

    method Reinit(b: Builder, broken: set<SinkConfig>) returns (ok: bool)
      requires inner.Some?
      modifies this`inner, this`configChecksum
      ensures ok <==> AllOpen(b.sinks, broken) && old(inner).value.dynamic
      ensures inner == if ok then Some(old(inner).value.(sinks := b.sinks)) else old(inner)
      ensures configChecksum == if ok then Of(b) else old(configChecksum)
    {
      var sinks, _ := BuildSinks(b, broken);
      if sinks.None? || !inner.value.dynamic {
        return false;
      }
      inner := Some(inner.value.(sinks := sinks.value));
      configChecksum := Of(b);
      return true;
    }

    method Init(b: Builder, broken: set<SinkConfig>) returns (ok: bool)
      requires inner.None?
      modifies this`inner, this`configChecksum
      ensures ok <==> AllOpen(b.sinks, broken)
      ensures inner == if ok then Some(Inner(b.dynamic, b.sinks)) else None
      ensures configChecksum == if ok then Of(b) else old(configChecksum)
    {
      var sinks, _ := BuildSinks(b, broken);
      if sinks.None? {
        return false;
      }
      assert inner.None?;
      inner := Some(Inner(b.dynamic, sinks.value));
      configChecksum := Of(b);
      return true;
    }

    // The lock is free on entry, as in a program with one thread; Publication.dfy has
    // any number of threads.
    method TrySetup(b: Builder, broken: set<SinkConfig>) returns (outcome: Outcome)
      requires !lock && Consistent(View().core)
      modifies this
      ensures !lock && registered == old(registered)
      ensures (View().core, outcome) == TryOnce(old(View()).core, b, broken)
      ensures maxLevel == if outcome == Again then MaxLevel(b.sinks) else old(maxLevel)
    {
      lock := true;
      outcome := Failed;
      var res := CheckTheSame(b);
      match res {
        case Some(same) =>
          if same {
            var ok := Open(broken);
            if ok {
              maxLevel := GetMaxLevel(b);
              outcome := Again;
            }
          } else if b.dynamic {
            var ok := Reinit(b, broken);
            if ok {
              maxLevel := GetMaxLevel(b);
              outcome := Again;
            }
          }
        case None =>
          var ok := Init(b, broken);
          if ok {
            inited := true;
            outcome := First;
          }
      }
      lock := false;
    }

    method SetupLog(b: Builder, broken: set<SinkConfig>) returns (ok: bool)
      requires !lock && Consistent(View().core)
      modifies this
      ensures !lock && (View(), ok) == SetupOnce(old(View()), b, broken)
    {
      var outcome := TrySetup(b, broken);
      if outcome == First {
        if registered {
          return false;
        }
        registered := true;
        maxLevel := GetMaxLevel(b);
      }
      return outcome != Failed;
    }

    // Log::log: the record goes to each sink in turn; the sink checks its own level.
    method Log(record: Level) returns (delivered: seq<SinkConfig>)
      ensures delivered == Deliver(Installed(View()), record)
    {
      delivered := [];
      if inner.Some? {
        var sinks := inner.value.sinks;
        assert sinks[0..] == sinks;
        for i := 0 to |sinks|
          invariant delivered + Deliver(sinks[i..], record) == Deliver(sinks, record)
        {
          DeliverFrom(sinks, i, record);
          Associates(delivered, if record <= sinks[i].level then [sinks[i]] else [], Deliver(sinks[i + 1..], record));
          if record <= sinks[i].level {
            delivered := delivered + [sinks[i]];
          } else {
            assert delivered + [] == delivered;
          }
        }
      }
    }
  }
}
