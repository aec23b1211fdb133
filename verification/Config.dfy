// The setup configuration: levels, sinks, the fingerprint.
module Config {
  import opened Common

  // log::Level as a number, Error the least; 0 is LevelFilter::Off.
  type Level = l: int | 1 <= l <= 5 witness 1

  const OFF: int := 0
  const ERROR: Level := 1

  // `details` stands for everything else about a sink that goes into the fingerprint.
  datatype SinkConfig = SinkConfig(level: Level, details: int)

  datatype Builder = Builder(dynamic: bool, signals: seq<int>, panicHook: bool, forceAbort: bool,
    sinks: seq<SinkConfig>)

  // cal_checksum, taken as an injective fingerprint of all it hashes.
  datatype Checksum = Zero | Of(builder: Builder)

  // m is the highest level of the sinks, Error when there is none.
  ghost predicate IsMaxLevel(m: Level, sinks: seq<SinkConfig>) {
    && (forall i :: 0 <= i < |sinks| ==> sinks[i].level <= m)
    && (m == ERROR || exists i :: 0 <= i < |sinks| && sinks[i].level == m)
  }

  function MaxLevel(sinks: seq<SinkConfig>): (m: Level)
    ensures IsMaxLevel(m, sinks)
  {
    if sinks == [] then ERROR
    else
      var rest := MaxLevel(sinks[1..]);
      assert forall i :: 1 <= i < |sinks| ==> sinks[i] == sinks[1..][i - 1];
      assert forall i :: 0 <= i < |sinks| - 1 ==> sinks[1..][i] == sinks[i + 1];
      if sinks[0].level > rest then sinks[0].level else rest
  }

  lemma {:induction false} MaxLevelIsUnique(m: Level, n: Level, sinks: seq<SinkConfig>)
    requires IsMaxLevel(m, sinks) && IsMaxLevel(n, sinks)
    ensures m == n
  {
  }

  // get_max_level: a running maximum.
  method GetMaxLevel(b: Builder) returns (maxLevel: Level)
    ensures maxLevel == MaxLevel(b.sinks)
  {
    maxLevel := ERROR;
    for i := 0 to |b.sinks|
      invariant IsMaxLevel(maxLevel, b.sinks[..i])
    {
      var level := b.sinks[i].level;
      assert b.sinks[..i + 1] == b.sinks[..i] + [b.sinks[i]];
      if level > maxLevel {
        maxLevel := level;
        assert b.sinks[..i + 1][i].level == maxLevel;
      } else if maxLevel != ERROR {
        var j :| 0 <= j < i && b.sinks[..i][j].level == maxLevel;
        assert b.sinks[..i + 1][j].level == maxLevel;
      }
    }
    assert b.sinks[..|b.sinks|] == b.sinks;
    MaxLevelIsUnique(maxLevel, MaxLevel(b.sinks), b.sinks);
  }

  predicate AllOpen(sinks: seq<SinkConfig>, broken: set<SinkConfig>) {
    forall i :: 0 <= i < |sinks| ==> sinks[i] !in broken
  }

  // build_sinks: builds and opens one by one, stops at the first that fails to open.
  method BuildSinks(b: Builder, broken: set<SinkConfig>) returns (r: Option<seq<SinkConfig>>, tried: nat)
    ensures r == if AllOpen(b.sinks, broken) then Some(b.sinks) else None
    ensures tried <= |b.sinks| && (r.Some? ==> tried == |b.sinks|)
    ensures r.None? ==> tried > 0 && AllOpen(b.sinks[..tried - 1], broken) && b.sinks[tried - 1] in broken
  {
    var sinks := [];
    for i := 0 to |b.sinks|
      invariant sinks == b.sinks[..i] && AllOpen(b.sinks[..i], broken)
    {
      if b.sinks[i] in broken {
        return None, i + 1;
      }
      sinks := sinks + [b.sinks[i]];
      assert b.sinks[..i + 1] == b.sinks[..i] + [b.sinks[i]];
    }
    assert b.sinks[..|b.sinks|] == b.sinks;
    return Some(sinks), |b.sinks|;
  }
}
