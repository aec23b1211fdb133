// The archive as the simple thing behind the index and the files: a list of
// log generations, newest first, each under its suffix.
module Archive {
  import opened Common

  // A smaller suffix is a newer one, in both naming schemes.
  datatype Gen = Gen(suffix: int, compressed: bool, data: Bytes)

  datatype Scheme = Numbered | Stamped
  datatype Limit = Unlimited | MaxFiles(count: nat) | MaxAge

  datatype Policy = Policy(scheme: Scheme, limit: Limit, exclude: Option<nat>)

  // One rotation: the clock read for the suffix, the age horizon of the
  // cleanup that follows, and what the live file held.
  datatype Rotated = Rotated(now: int, horizon: int, data: Bytes)

  predicate Sorted(a: seq<Gen>) {
    forall i, j :: 0 <= i < j < |a| ==> a[i].suffix < a[j].suffix
  }

  // ---------------------------------------------------------------- suffixes

  // rotate_file of the suffix scheme. Numbered: 1, then k + 1. Stamped: assumed strictly
  // newer than the newest one indexed; `now` makes it any such suffix.
  function RotateFile(scheme: Scheme, newest: Option<int>, from: Option<int>, now: int): int {
    match from
    case Some(k) => k + 1
    case None =>
      match scheme
      case Numbered => 1
      case Stamped => if newest.Some? && newest.value <= now then newest.value - 1 else now
  }

  function Newest(a: seq<Gen>): Option<int> {
    if a == [] then None else Some(a[0].suffix)
  }

  function FreshSuffix(scheme: Scheme, a: seq<Gen>, now: int): int {
    RotateFile(scheme, Newest(a), None, now)
  }

  // ----------------------------------------------------------------- cascade

  // Put a file under suffix k, moving whatever is there to k + 1, and so on.
  function Push(a: seq<Gen>, k: int, compressed: bool, data: Bytes): (r: seq<Gen>)
    ensures |r| == |a| + 1
  {
    if a == [] then
      [Gen(k, compressed, data)]
    else if a[0].suffix < k then
      [a[0]] + Push(a[1..], k, compressed, data)
    else if a[0].suffix == k then
      [Gen(k, compressed, data)] + Push(a[1..], k + 1, a[0].compressed, a[0].data)
    else
      [Gen(k, compressed, data)] + a
  }

  // How many entries lie before suffix k.
  function Below(a: seq<Gen>, k: int): (n: nat)
    ensures n <= |a|
  {
    if a == [] || a[0].suffix >= k then 0 else 1 + Below(a[1..], k)
  }

  // The rank just after the gap-free run of suffixes k, k + 1, ...
  function RunEnd(a: seq<Gen>, k: int): (n: nat)
    ensures n <= |a|
  {
    if a == [] || k < a[0].suffix then 0
    else if a[0].suffix == k then 1 + RunEnd(a[1..], k + 1)
    else 1 + RunEnd(a[1..], k)
  }

  lemma {:induction false} SortedTail(a: seq<Gen>)
    requires Sorted(a) && a != []
    ensures Sorted(a[1..]) && forall i :: 0 <= i < |a[1..]| ==> a[0].suffix < a[1..][i].suffix
  {
  }

  lemma {:induction false} BelowSplits(a: seq<Gen>, k: int)
    requires Sorted(a)
    ensures forall i :: 0 <= i < |a| ==> (a[i].suffix < k <==> i < Below(a, k))
  {
    if a != [] && a[0].suffix < k {
      SortedTail(a);
      BelowSplits(a[1..], k);
      assert forall i :: 1 <= i < |a| ==> a[i] == a[1..][i - 1];
    }
  }

  // The run is exactly k, k + 1, ... up to the first gap.
  lemma {:induction false} RunIsMaximal(a: seq<Gen>, k: int)
    requires Sorted(a)
    ensures var p, e := Below(a, k), RunEnd(a, k);
            && p <= e
            && (forall i :: p <= i < e ==> a[i].suffix == k + i - p)
            && (e < |a| ==> k + e - p < a[e].suffix)
  {
    if a != [] && a[0].suffix <= k {
      SortedTail(a);
      BelowSplits(a, k);
      var k' := if a[0].suffix == k then k + 1 else k;
      BelowSplits(a[1..], k');
      RunIsMaximal(a[1..], k');
      assert forall i :: 1 <= i < |a| ==> a[i] == a[1..][i - 1];
      assert Below(a, k) == if a[0].suffix == k then 0 else 1 + Below(a[1..], k);
      assert a[0].suffix == k ==> Below(a[1..], k + 1) == 0;
    }
  }

  // What a rotation should do, rank by rank: the run starting at k moves up by one
  // with its flags and contents, everything else stays.
  function ShiftedAt(a: seq<Gen>, k: int, compressed: bool, data: Bytes, i: nat): Gen
    requires i <= |a|
  {
    if i < Below(a, k) then a[i]
    else if i == Below(a, k) then Gen(k, compressed, data)
    else if i <= RunEnd(a, k) then a[i - 1].(suffix := a[i - 1].suffix + 1)
    else a[i - 1]
  }

  function Shifted(a: seq<Gen>, k: int, compressed: bool, data: Bytes): (r: seq<Gen>)
    ensures |r| == |a| + 1
    ensures forall i :: 0 <= i <= |a| ==> r[i] == ShiftedAt(a, k, compressed, data, i)
  {
    seq(|a| + 1, i requires 0 <= i <= |a| => ShiftedAt(a, k, compressed, data, i))
  }

  lemma {:induction false} NoneBelow(a: seq<Gen>, k: int)
    requires Sorted(a) && a != [] && k <= a[0].suffix
    ensures Below(a, k) == 0 && Below(a[1..], k + 1) == 0
  {
    if |a| > 1 {
      assert a[0].suffix < a[1].suffix && a[1..][0] == a[1];
    }
  }

  lemma {:induction false} ShiftedTail(a: seq<Gen>, k: int, compressed: bool, data: Bytes, i: nat)
    requires Sorted(a) && a != [] && a[0].suffix <= k && 0 < i <= |a|
    ensures ShiftedAt(a, k, compressed, data, i) ==
            if a[0].suffix < k then ShiftedAt(a[1..], k, compressed, data, i - 1)
            else ShiftedAt(a[1..], k + 1, a[0].compressed, a[0].data, i - 1)
  {
    if a[0].suffix == k {
      NoneBelow(a, k);
    }
  }

  lemma {:induction false} PushTail(a: seq<Gen>, k: int, compressed: bool, data: Bytes, i: nat)
    requires a != [] && a[0].suffix <= k && 0 < i <= |a|
    ensures Push(a, k, compressed, data)[i] ==
            if a[0].suffix < k then Push(a[1..], k, compressed, data)[i - 1]
            else Push(a[1..], k + 1, a[0].compressed, a[0].data)[i - 1]
  {
  }

  lemma {:induction false} PushHere(a: seq<Gen>, k: int, compressed: bool, data: Bytes, i: nat)
    requires Sorted(a) && i <= |a| && (a != [] && a[0].suffix <= k ==> i == 0)
    ensures Push(a, k, compressed, data)[i] == ShiftedAt(a, k, compressed, data, i)
  {
  }

  lemma {:induction false} PushAt(a: seq<Gen>, k: int, compressed: bool, data: Bytes, i: nat)
    requires Sorted(a) && i <= |a|
    ensures Push(a, k, compressed, data)[i] == ShiftedAt(a, k, compressed, data, i)
  {
    hide Push, ShiftedAt, Sorted;
    if a != [] && i > 0 && a[0].suffix <= k {
      SortedTail(a);
      PushTail(a, k, compressed, data, i);
      ShiftedTail(a, k, compressed, data, i);
      if a[0].suffix < k {
        PushAt(a[1..], k, compressed, data, i - 1);
      } else {
        PushAt(a[1..], k + 1, a[0].compressed, a[0].data, i - 1);
      }
    } else {
      PushHere(a, k, compressed, data, i);
    }
  }

  // The cascade is exact: it is the shift of the run that starts at k.
  lemma {:induction false} CascadeIsShift(a: seq<Gen>, k: int, compressed: bool, data: Bytes)
    requires Sorted(a)
    ensures Push(a, k, compressed, data) == Shifted(a, k, compressed, data)
  {
    forall i | 0 <= i <= |a|
      ensures Push(a, k, compressed, data)[i] == ShiftedAt(a, k, compressed, data, i)
    {
      PushAt(a, k, compressed, data, i);
    }
  }

  lemma {:induction false} PushSkips(head: seq<Gen>, tail: seq<Gen>, k: int, compressed: bool, data: Bytes)
    requires forall i :: 0 <= i < |head| ==> head[i].suffix < k
    ensures Push(head + tail, k, compressed, data) == head + Push(tail, k, compressed, data)
  {
    if head == [] {
      assert head + tail == tail;
    } else {
      var g, rest := head[0], head[1..];
      assert head + tail == [g] + (rest + tail);
      PushSkips(rest, tail, k, compressed, data);
      assert head + Push(tail, k, compressed, data) == [g] + (rest + Push(tail, k, compressed, data));
    }
  }

  lemma {:induction false} PushStaysFrom(a: seq<Gen>, k: int, compressed: bool, data: Bytes, low: int)
    requires low <= k && forall g :: g in a ==> low <= g.suffix
    ensures forall g :: g in Push(a, k, compressed, data) ==> low <= g.suffix
  {
    if a != [] && a[0].suffix < k {
      PushStaysFrom(a[1..], k, compressed, data, low);
    } else if a != [] && a[0].suffix == k {
      PushStaysFrom(a[1..], k + 1, a[0].compressed, a[0].data, low);
    }
  }

  lemma {:induction false} SortedCons(g: Gen, rest: seq<Gen>)
    requires Sorted(rest) && forall x :: x in rest ==> g.suffix < x.suffix
    ensures Sorted([g] + rest)
  {
    var a := [g] + rest;
    forall i, j | 0 <= i < j < |a|
      ensures a[i].suffix < a[j].suffix
    {
      assert a[j] == rest[j - 1];
    }
  }

  lemma {:induction false} PushUnfolds(a: seq<Gen>, k: int, compressed: bool, data: Bytes)
    ensures Push(a, k, compressed, data) ==
            if a == [] || k < a[0].suffix then [Gen(k, compressed, data)] + a
            else if a[0].suffix < k then [a[0]] + Push(a[1..], k, compressed, data)
            else [Gen(k, compressed, data)] + Push(a[1..], k + 1, a[0].compressed, a[0].data)
  {
    assert [Gen(k, compressed, data)] + [] == [Gen(k, compressed, data)];
  }

  lemma {:induction false} TailBeyond(a: seq<Gen>, k: int)
    requires Sorted(a) && (a != [] ==> k < a[0].suffix)
    ensures forall x :: x in a ==> k < x.suffix
  {
  }

  lemma {:induction false} PushKeepsSorted(a: seq<Gen>, k: int, compressed: bool, data: Bytes)
    requires Sorted(a)
    ensures Sorted(Push(a, k, compressed, data))
  {
    hide Sorted, Push;
    PushUnfolds(a, k, compressed, data);
    if a == [] || k < a[0].suffix {
      TailBeyond(a, k);
      SortedCons(Gen(k, compressed, data), a);
    } else {
      SortedTail(a);
      var e, rest := a[0], a[1..];
      if e.suffix < k {
        PushKeepsSorted(rest, k, compressed, data);
        PushStaysFrom(rest, k, compressed, data, e.suffix + 1);
        SortedCons(e, Push(rest, k, compressed, data));
      } else {
        PushKeepsSorted(rest, k + 1, e.compressed, e.data);
        PushStaysFrom(rest, k + 1, e.compressed, e.data, k + 1);
        SortedCons(Gen(k, compressed, data), Push(rest, k + 1, e.compressed, e.data));
      }
    }
  }

  // A stamped suffix is the clock's unless that is not newer than all indexed ones, and then
  // one that is; so the cascade is never entered: exactly one entry is added, in front.
  lemma {:induction false} StampedNeverCascades(a: seq<Gen>, now: int, data: Bytes)
    requires Sorted(a)
    ensures var k := FreshSuffix(Stamped, a, now);
            && (forall g :: g in a ==> k < g.suffix)
            && ((forall g :: g in a ==> now < g.suffix) ==> k == now)
            && Push(a, k, false, data) == [Gen(k, false, data)] + a
  {
    assert a != [] ==> forall i :: 0 <= i < |a| ==> a[0].suffix <= a[i].suffix;
    assert a != [] ==> a[0] in a;
  }

  // ----------------------------------------------------------------- cleanup

  predicate TooOld(limit: Limit, horizon: int, suffix: int, rank: nat) {
    match limit
    case Unlimited => false
    case MaxFiles(m) => rank >= m
    case MaxAge => suffix > horizon
  }

  // How many entries survive: all but the longest tail that is too old.
  function Kept(a: seq<Gen>, limit: Limit, horizon: int): (n: nat)
    ensures n <= |a|
    ensures forall i :: n <= i < |a| ==> TooOld(limit, horizon, a[i].suffix, i)
    ensures n > 0 ==> !TooOld(limit, horizon, a[n - 1].suffix, n - 1)
  {
    if a == [] then 0
    else if TooOld(limit, horizon, a[|a| - 1].suffix, |a| - 1) then Kept(a[..|a| - 1], limit, horizon)
    else |a|
  }

  const TWO31: int := 0x8000_0000
  const TWO32: int := 0x1_0000_0000

  // A cast to 32 bits, and the wrapped result of a 32-bit subtraction.
  function AsI32(x: int): (r: int)
    ensures -TWO31 <= r < TWO31
    ensures -TWO31 <= x < TWO31 ==> r == x
    ensures (x - r) % TWO32 == 0
  {
    (x + TWO31) % TWO32 - TWO31
  }

  // Two casts and a wrapping subtraction come to one cast of the true difference.
  lemma {:induction false} CastOnce(x: int, y: int)
    ensures AsI32(AsI32(x) - AsI32(y)) == AsI32(x - y)
  {
    var p, q := x - AsI32(x), y - AsI32(y);
    assert p == p / TWO32 * TWO32 && q == q / TWO32 * TWO32;
    hide AsI32;
    SameCast(AsI32(x) - AsI32(y), p / TWO32 - q / TWO32);
  }

  lemma {:induction false} SameCast(x: int, k: int)
    ensures AsI32(x + k * TWO32) == AsI32(x)
  {
    assert (x + k * TWO32 + TWO31) % TWO32 == (x + TWO31) % TWO32;
  }

  // The difference of the two casts, not below 0, and no more than there are.
  function CompressCount(len: nat, exclude: nat): (n: nat)
    ensures var d := AsI32(len - exclude); n == if d <= 0 then 0 else if d <= len then d else len
  {
    CastOnce(len, exclude);
    var n := AsI32(AsI32(len) - AsI32(exclude));
    if n <= 0 then 0 else if n <= len then n else len
  }

  // Every entry of rank `from` and more is compressed.
  function Zipped(a: seq<Gen>, from: nat): (r: seq<Gen>)
    ensures |r| == |a|
    ensures forall i :: 0 <= i < |a| ==> r[i] == if i < from then a[i] else a[i].(compressed := true)
  {
    seq(|a|, i requires 0 <= i < |a| => if i < from then a[i] else a[i].(compressed := true))
  }

  function ZipFrom(len: nat, exclude: Option<nat>): (from: nat)
    ensures from <= len
  {
    match exclude
    case None => len
    case Some(n) => len - CompressCount(len, n)
  }

  function Cleaned(a: seq<Gen>, policy: Policy, horizon: int): seq<Gen> {
    var n := Kept(a, policy.limit, horizon);
    Zipped(a[..n], ZipFrom(n, policy.exclude))
  }

  // One rotation with the cleanup that follows it.
  function Round(a: seq<Gen>, policy: Policy, r: Rotated): seq<Gen> {
    Cleaned(Push(a, FreshSuffix(policy.scheme, a, r.now), false, r.data), policy, r.horizon)
  }

  function Rounds(a: seq<Gen>, policy: Policy, rs: seq<Rotated>): seq<Gen> {
    if rs == [] then a
    else Round(Rounds(a, policy, rs[..|rs| - 1]), policy, rs[|rs| - 1])
  }

  lemma {:induction false} RoundsSnoc(a: seq<Gen>, policy: Policy, rs: seq<Rotated>, r: Rotated)
    ensures Rounds(a, policy, rs + [r]) == Round(Rounds(a, policy, rs), policy, r)
  {
    assert (rs + [r])[..|rs|] == rs;
  }

  // The 32-bit cast does what the option says for every archive size exactly when
  // the option fits in 31 bits, or lies within one of 2^31 modulo 2^32.
  predicate CastIsHarmless(exclude: nat) {
    exclude < TWO31 || TWO31 - 1 <= exclude % TWO32 <= TWO31 + 1
  }

  ghost predicate ExcludesAsAsked(exclude: nat) {
    forall len: nat :: len < TWO31 ==> CompressCount(len, exclude) == if exclude < len then len - exclude else 0
  }

  lemma {:induction false} CastOfDifference(len: nat, exclude: nat)
    requires len < TWO31
    ensures var m := exclude % TWO32; AsI32(len - exclude) == if m - len > TWO31 then len - m + TWO32 else len - m
  {
    var m, k := exclude % TWO32, exclude / TWO32;
    SameCast(len - m, -k);
    assert len - exclude == len - m + -k * TWO32;
  }

  lemma {:induction false} CastExactness(exclude: nat)
    ensures ExcludesAsAsked(exclude) <==> CastIsHarmless(exclude)
  {
    hide AsI32;
    var m := exclude % TWO32;
    if CastIsHarmless(exclude) {
      forall len: nat | len < TWO31
        ensures CompressCount(len, exclude) == if exclude < len then len - exclude else 0
      {
        CastOfDifference(len, exclude);
      }
    } else {
      var len := if m < TWO31 then m + 1 else 1;
      CastOfDifference(len, exclude);
      assert CompressCount(len, exclude) == 1;
    }
  }

  // compress_exclude(2^32 - 1) means "leave that many plain"; everything is compressed.
  lemma {:induction false} CastCounterexample()
    ensures CompressCount(1, TWO32 - 1) == 1
  {
  }

  lemma {:induction false} CleanedKeepsOrder(a: seq<Gen>, policy: Policy, horizon: int)
    requires Sorted(a)
    ensures Sorted(Cleaned(a, policy, horizon))
    ensures |Cleaned(a, policy, horizon)| <= |a|
    ensures forall i :: 0 <= i < |Cleaned(a, policy, horizon)| ==>
              Cleaned(a, policy, horizon)[i].suffix == a[i].suffix
  {
    var c := Cleaned(a, policy, horizon);
    assert forall i :: 0 <= i < |c| ==> c[i].suffix == a[i].suffix;
  }

  lemma {:induction false} RoundsKeepSorted(a: seq<Gen>, policy: Policy, rs: seq<Rotated>)
    requires Sorted(a)
    ensures Sorted(Rounds(a, policy, rs))
  {
    if rs != [] {
      RoundsKeepSorted(a, policy, rs[..|rs| - 1]);
      var b, r := Rounds(a, policy, rs[..|rs| - 1]), rs[|rs| - 1];
      PushKeepsSorted(b, FreshSuffix(policy.scheme, b, r.now), false, r.data);
      CleanedKeepsOrder(Push(b, FreshSuffix(policy.scheme, b, r.now), false, r.data), policy, r.horizon);
    }
  }

  // Archives that are compressed stay a tail of the list: once one entry is in .gz
  // form, every older one is.
  predicate CompressedIsMonotone(a: seq<Gen>) {
    forall i, j :: 0 <= i < j < |a| && a[i].compressed ==> a[j].compressed
  }

  // ------------------------------------------------------- the list of bodies

  datatype Body = Body(compressed: bool, data: Bytes)

  function Bodies(a: seq<Gen>): (r: seq<Body>)
    ensures |r| == |a|
    ensures forall i :: 0 <= i < |a| ==> r[i] == Body(a[i].compressed, a[i].data)
  {
    seq(|a|, i requires 0 <= i < |a| => Body(a[i].compressed, a[i].data))
  }

  // Pushing forgets nothing and reorders nothing: the new body goes in at the place
  // of suffix k and all the others keep their order.
  lemma {:induction false} PushInsertsBody(a: seq<Gen>, k: int, compressed: bool, data: Bytes)
    requires Sorted(a)
    ensures var p := Below(a, k);
            Bodies(Push(a, k, compressed, data)) == Bodies(a)[..p] + [Body(compressed, data)] + Bodies(a)[p..]
  {
    CascadeIsShift(a, k, compressed, data);
  }

  // No file is named base.0, the one number a rotation would never move.
  predicate FrontIsFree(scheme: Scheme, a: seq<Gen>) {
    scheme == Numbered ==> forall g :: g in a ==> 1 <= g.suffix
  }

  // The live file becomes the newest archive exactly when that holds.
  lemma {:induction false} FrontExactly(a: seq<Gen>, scheme: Scheme, now: int, data: Bytes)
    requires Sorted(a)
    ensures var k := FreshSuffix(scheme, a, now);
            Push(a, k, false, data)[0] == Gen(k, false, data) <==> FrontIsFree(scheme, a)
  {
    var k := FreshSuffix(scheme, a, now);
    PushAt(a, k, false, data, 0);
    assert a != [] ==> a[0] in a && forall i :: 0 <= i < |a| ==> a[0].suffix <= a[i].suffix;
  }

  function NewestFirst(rs: seq<Rotated>): (r: seq<Body>)
    ensures |r| == |rs|
    ensures forall i :: 0 <= i < |rs| ==> r[i] == Body(false, rs[|rs| - 1 - i].data)
  {
    seq(|rs|, i requires 0 <= i < |rs| => Body(false, rs[|rs| - 1 - i].data))
  }

  function Keep(limit: Limit, len: nat): (n: nat)
    ensures n <= len
  {
    if limit.MaxFiles? && limit.count < len then limit.count else len
  }

  // The simple picture: newest first, keep the first n, compress from rank e on.
  function Tidy(bodies: seq<Body>, n: nat, exclude: Option<nat>): (r: seq<Body>)
    requires n <= |bodies|
    ensures |r| == n
    ensures forall i :: 0 <= i < n ==>
              r[i] == if exclude.Some? && i >= exclude.value then bodies[i].(compressed := true) else bodies[i]
  {
    seq(n, i requires 0 <= i < n =>
      if exclude.Some? && i >= exclude.value then bodies[i].(compressed := true) else bodies[i])
  }

  // The cast does no harm to the option, for every archive up to this size.
  predicate Fits(policy: Policy, size: nat) {
    policy.exclude.Some? ==> CastIsHarmless(policy.exclude.value) && size < TWO31
  }

  // It never does in a run of k rotations on an archive of this size. The cast is taken
  // after the cut, so under a count the size that matters is the count.
  predicate RunFits(policy: Policy, older: nat, k: nat) {
    policy.exclude.Some? ==>
      && CastIsHarmless(policy.exclude.value)
      && (older + k < TWO31 || (policy.limit.MaxFiles? && policy.limit.count < TWO31))
  }

  lemma {:induction false} KeptUnderCount(a: seq<Gen>, limit: Limit, horizon: int)
    requires !limit.MaxAge?
    ensures Kept(a, limit, horizon) == Keep(limit, |a|)
  {
    var n := Kept(a, limit, horizon);
    assert n < |a| ==> TooOld(limit, horizon, a[n].suffix, n);
  }

  // Suffixes are ordered, so the cut by age takes exactly what lies beyond the horizon.
  lemma {:induction false} KeptUnderAge(a: seq<Gen>, horizon: int)
    requires Sorted(a)
    ensures forall i :: 0 <= i < |a| ==> (i < Kept(a, MaxAge, horizon) <==> a[i].suffix <= horizon)
  {
  }

  lemma {:induction false} CleanedIsTidy(a: seq<Gen>, policy: Policy, horizon: int)
    requires Fits(policy, Kept(a, policy.limit, horizon))
    ensures Bodies(Cleaned(a, policy, horizon)) == Tidy(Bodies(a), Kept(a, policy.limit, horizon), policy.exclude)
  {
    if policy.exclude.Some? {
      CastExactness(policy.exclude.value);
    }
  }

  // When the front is free a rotation puts the live file in front of the list.
  lemma {:induction false} PushPutsInFront(a: seq<Gen>, scheme: Scheme, now: int, data: Bytes)
    requires Sorted(a) && FrontIsFree(scheme, a)
    ensures var b := Push(a, FreshSuffix(scheme, a, now), false, data);
            && Bodies(b) == [Body(false, data)] + Bodies(a)
            && FrontIsFree(scheme, b) && Sorted(b)
  {
    var k := FreshSuffix(scheme, a, now);
    if scheme == Stamped {
      StampedNeverCascades(a, now, data);
    } else {
      PushStaysFrom(a, k, false, data, 1);
    }
    assert a != [] ==> a[0] in a;
    assert Below(a, k) == 0;
    PushInsertsBody(a, k, false, data);
    PushKeepsSorted(a, k, false, data);
    assert Bodies(a)[..0] == [] && Bodies(a)[0..] == Bodies(a);
  }

  // For every limit: one rotation with its cleanup puts the live file in front, drops a
  // tail and compresses from a rank on.
  lemma {:induction false} RoundPutsInFront(a: seq<Gen>, policy: Policy, r: Rotated)
    requires Sorted(a) && FrontIsFree(policy.scheme, a)
    ensures var b := Round(a, policy, r);
            && FrontIsFree(policy.scheme, b) && Sorted(b) && |b| <= |a| + 1
            && (!policy.limit.MaxAge? ==> |b| == Keep(policy.limit, |a| + 1))
            && (Fits(policy, |b|) ==> Bodies(b) == Tidy([Body(false, r.data)] + Bodies(a), |b|, policy.exclude))
  {
    hide Push, FreshSuffix, Sorted, FrontIsFree, Bodies, Tidy, Fits, Kept, Keep, Cleaned;
    PushPutsInFront(a, policy.scheme, r.now, r.data);
    var b := Push(a, FreshSuffix(policy.scheme, a, r.now), false, r.data);
    CleanedKeepsFront(b, policy, r.horizon);
    if Fits(policy, |Cleaned(b, policy, r.horizon)|) {
      CleanedIsTidy(b, policy, r.horizon);
    }
    if !policy.limit.MaxAge? {
      KeptUnderCount(b, policy.limit, r.horizon);
    }
  }

  lemma {:induction false} CleanedKeepsFront(a: seq<Gen>, policy: Policy, horizon: int)
    requires Sorted(a) && FrontIsFree(policy.scheme, a)
    ensures var c := Cleaned(a, policy, horizon);
            Sorted(c) && FrontIsFree(policy.scheme, c) && |c| == Kept(a, policy.limit, horizon)
  {
    CleanedKeepsOrder(a, policy, horizon);
    var c := Cleaned(a, policy, horizon);
    forall g | policy.scheme == Numbered && g in c
      ensures 1 <= g.suffix
    {
      var i :| 0 <= i < |c| && c[i] == g;
      assert a[i] in a;
    }
  }

  // Tidying early changes nothing for later: what it dropped or compressed would be
  // dropped or compressed anyway.
  lemma {:induction false} TidyAbsorbs(x: Body, bodies: seq<Body>, m: nat, n: nat, exclude: Option<nat>)
    requires m <= |bodies| && n <= m + 1
    ensures Tidy([x] + Tidy(bodies, m, exclude), n, exclude) == Tidy([x] + bodies, n, exclude)
  {
    var l, r := Tidy([x] + Tidy(bodies, m, exclude), n, exclude), Tidy([x] + bodies, n, exclude);
    assert forall i :: 1 <= i < n ==> ([x] + bodies)[i] == bodies[i - 1];
    assert forall i :: 1 <= i < n ==> ([x] + Tidy(bodies, m, exclude))[i] == Tidy(bodies, m, exclude)[i - 1];
    assert |l| == |r|;
  }

  lemma {:induction false} NewestFirstSnoc(init: seq<Rotated>, r: Rotated, older: seq<Body>)
    ensures NewestFirst(init + [r]) + older == [Body(false, r.data)] + (NewestFirst(init) + older)
  {
    assert NewestFirst(init + [r]) == [Body(false, r.data)] + NewestFirst(init);
  }

  // --------------------------------------------------------- contents, no holes

  function Datas(rs: seq<Rotated>): (r: seq<Bytes>)
    ensures |r| == |rs|
    ensures forall i :: 0 <= i < |rs| ==> r[i] == rs[i].data
  {
    seq(|rs|, i requires 0 <= i < |rs| => rs[i].data)
  }

  function OldestFirst(a: seq<Gen>): (r: seq<Bytes>)
    ensures |r| == |a|
    ensures forall i :: 0 <= i < |a| ==> r[i] == a[|a| - 1 - i].data
  {
    seq(|a|, i requires 0 <= i < |a| => a[|a| - 1 - i].data)
  }

  lemma {:induction false} PushAppends(a: seq<Gen>, scheme: Scheme, now: int, data: Bytes)
    requires Sorted(a) && FrontIsFree(scheme, a)
    ensures OldestFirst(Push(a, FreshSuffix(scheme, a, now), false, data)) == OldestFirst(a) + [data]
  {
    PushPutsInFront(a, scheme, now, data);
    BodiesGiveContents(Push(a, FreshSuffix(scheme, a, now), false, data), data, a);
  }

  lemma {:induction false} BodiesGiveContents(b: seq<Gen>, data: Bytes, a: seq<Gen>)
    requires Bodies(b) == [Body(false, data)] + Bodies(a)
    ensures OldestFirst(b) == OldestFirst(a) + [data]
  {
    assert |b| == |a| + 1 && Bodies(b)[0] == Body(false, data);
    forall i | 1 <= i < |b|
      ensures b[i].data == a[i - 1].data
    {
      assert Bodies(b)[i] == Bodies(a)[i - 1];
    }
  }

  // Whatever the limit, a cleanup cuts at the old end only.
  lemma {:induction false} CleanedIsTail(a: seq<Gen>, policy: Policy, horizon: int)
    ensures IsTail(OldestFirst(Cleaned(a, policy, horizon)), OldestFirst(a))
  {
    var n := Kept(a, policy.limit, horizon);
    assert forall i :: 0 <= i < n ==> a[..n][i] == a[i];
  }

  lemma {:induction false} TailOfMore<T>(part: seq<T>, left: seq<T>, whole: seq<T>, x: T)
    requires IsTail(left, whole) && IsTail(part, left + [x])
    ensures IsTail(part, whole + [x])
  {
    var gone := |left| + 1 - |part|;
    assert left == whole[|whole| - |left|..];
    assert (left + [x])[gone..] == (whole + [x])[|whole| - |left| + gone..];
  }

  // ---------------------------------------------------------------- whole runs

  // What there is to say of the archive a after these rotations on an older one.
  predicate Accounts(older: seq<Gen>, policy: Policy, rs: seq<Rotated>, a: seq<Gen>) {
    && Sorted(a) && FrontIsFree(policy.scheme, a)
    && (rs == [] ==> a == older)
    // the contents are the newest part of all generations ever: there is no hole
    && IsTail(OldestFirst(a), OldestFirst(older) + Datas(rs))
    // under a count or no limit, how many there are
    && (rs != [] && !policy.limit.MaxAge? ==> |a| == Keep(policy.limit, |older| + |rs|))
    // newest first, each in the form that its rank asks for
    && (rs != [] && RunFits(policy, |older|, |rs|) ==>
          Bodies(a) == Tidy(NewestFirst(rs) + Bodies(older), |a|, policy.exclude))
  }

  lemma {:induction false} RoundIsTail(b: seq<Gen>, whole: seq<Bytes>, policy: Policy, r: Rotated)
    requires Sorted(b) && FrontIsFree(policy.scheme, b) && IsTail(OldestFirst(b), whole)
    ensures IsTail(OldestFirst(Round(b, policy, r)), whole + [r.data])
  {
    hide OldestFirst, IsTail, Push, Cleaned, Sorted, FrontIsFree;
    var c := Push(b, FreshSuffix(policy.scheme, b, r.now), false, r.data);
    PushAppends(b, policy.scheme, r.now, r.data);
    CleanedIsTail(c, policy, r.horizon);
    TailOfMore(OldestFirst(Round(b, policy, r)), OldestFirst(b), whole, r.data);
  }

  lemma {:induction false} RoundTidies(b: seq<Gen>, older: seq<Body>, policy: Policy, init: seq<Rotated>, r: Rotated)
    requires Sorted(b) && FrontIsFree(policy.scheme, b) && |b| <= |init| + |older|
    requires Fits(policy, |Round(b, policy, r)|)
    requires Bodies(b) == if init == [] then older else Tidy(NewestFirst(init) + older, |b|, policy.exclude)
    ensures var c := Round(b, policy, r);
            |c| <= |b| + 1 && Bodies(c) == Tidy(NewestFirst(init + [r]) + older, |c|, policy.exclude)
  {
    hide Round, Bodies, Sorted, FrontIsFree;
    RoundPutsInFront(b, policy, r);
    NewestFirstSnoc(init, r, older);
    if init == [] {
      assert NewestFirst(init) + older == older;
    } else {
      TidyAbsorbs(Body(false, r.data), NewestFirst(init) + older, |b|, |Round(b, policy, r)|, policy.exclude);
    }
  }

  lemma {:induction false} RoundAccounts(older: seq<Gen>, policy: Policy, init: seq<Rotated>, b: seq<Gen>, r: Rotated)
    requires Accounts(older, policy, init, b)
    ensures Accounts(older, policy, init + [r], Round(b, policy, r))
  {
    var whole := OldestFirst(older) + Datas(init);
    RoundIsTail(b, whole, policy, r);
    assert whole + [r.data] == OldestFirst(older) + Datas(init + [r]);
    RoundPutsInFront(b, policy, r);
    hide OldestFirst, Datas, Round, Tidy, Bodies, NewestFirst, IsTail, FrontIsFree, Sorted, CastIsHarmless;
    assert |b| <= |older| + |init| by {
      TailIsShorter(OldestFirst(b), whole);
    }
    if RunFits(policy, |older|, |init| + 1) {
      RoundTidies(b, Bodies(older), policy, init, r);
    }
  }

  lemma {:induction false} TailIsShorter<T>(part: seq<T>, whole: seq<T>)
    requires IsTail(part, whole)
    ensures |part| <= |whole|
  {
  }

  lemma {:induction false} NoRoundsYet(a: seq<Gen>, policy: Policy)
    requires Sorted(a) && FrontIsFree(policy.scheme, a)
    ensures Accounts(a, policy, [], Rounds(a, policy, []))
  {
    assert OldestFirst(a) + Datas([]) == OldestFirst(a);
  }

  // Refinement over whole runs, for both naming schemes, every limit and any archive to
  // start from: the files are the tidied list of all generations, newest first.
  lemma {:induction false} RunsRefineTheList(a: seq<Gen>, policy: Policy, rs: seq<Rotated>)
    requires Sorted(a) && FrontIsFree(policy.scheme, a)
    ensures Accounts(a, policy, rs, Rounds(a, policy, rs))
  {
    hide Accounts, Round, Rounds, Sorted, FrontIsFree;
    if rs == [] {
      NoRoundsYet(a, policy);
    } else {
      var init, r := rs[..|rs| - 1], rs[|rs| - 1];
      RunsRefineTheList(a, policy, init);
      RoundAccounts(a, policy, init, Rounds(a, policy, init), r);
      RoundsSnoc(a, policy, init, r);
      assert init + [r] == rs;
    }
  }

  // ------------------------------------------------------------- the age limit

  // All generations there ever were, newest first, under the suffixes they were given.
  datatype Dated = Dated(suffix: int, data: Bytes)

  function AllDated(older: seq<Gen>, policy: Policy, rs: seq<Rotated>): (all: seq<Dated>)
    ensures |all| == |older| + |rs|
  {
    if rs == [] then seq(|older|, i requires 0 <= i < |older| => Dated(older[i].suffix, older[i].data))
    else
      var init, r := rs[..|rs| - 1], rs[|rs| - 1];
      [Dated(FreshSuffix(policy.scheme, Rounds(older, policy, init), r.now), r.data)] + AllDated(older, policy, init)
  }

  // The suffix lies within the horizon of every cleanup since the generation of this rank
  // was archived.
  predicate WithinAll(rs: seq<Rotated>, rank: nat, suffix: int) {
    forall j :: 0 <= j < |rs| && |rs| - 1 - rank <= j ==> suffix <= rs[j].horizon
  }

  // A generation is in the archive exactly when that holds.
  predicate KeptByAge(older: seq<Gen>, policy: Policy, rs: seq<Rotated>, a: seq<Gen>) {
    var all := AllDated(older, policy, rs);
    && |a| <= |all|
    && (forall i :: 0 <= i < |a| ==> a[i].suffix == all[i].suffix && a[i].data == all[i].data)
    && (forall i :: 0 <= i < |all| ==> (i < |a| <==> WithinAll(rs, i, all[i].suffix)))
  }

  lemma {:induction false} WithinOneMore(init: seq<Rotated>, r: Rotated, rank: nat, suffix: int)
    ensures WithinAll(init + [r], 0, suffix) <==> suffix <= r.horizon
    ensures WithinAll(init + [r], rank + 1, suffix) <==> WithinAll(init, rank, suffix) && suffix <= r.horizon
  {
    var rs := init + [r];
    assert rs[|init|] == r && forall j :: 0 <= j < |init| ==> rs[j] == init[j];
  }

  lemma {:induction false} AllDatedSnoc(older: seq<Gen>, policy: Policy, init: seq<Rotated>, r: Rotated)
    ensures AllDated(older, policy, init + [r]) ==
            [Dated(FreshSuffix(policy.scheme, Rounds(older, policy, init), r.now), r.data)] +
              AllDated(older, policy, init)
  {
    assert (init + [r])[..|init|] == init;
  }

  // One round, entry by entry.
  lemma {:induction false} RoundKeepsByAge(b: seq<Gen>, policy: Policy, r: Rotated)
    requires Sorted(b) && policy.scheme == Stamped && policy.limit == MaxAge
    ensures var p, c := [Gen(FreshSuffix(Stamped, b, r.now), false, r.data)] + b, Round(b, policy, r);
            && |c| <= |p|
            && (forall i :: 0 <= i < |c| ==> c[i].suffix == p[i].suffix && c[i].data == p[i].data)
            && (forall i :: 0 <= i < |p| ==> (i < |c| <==> p[i].suffix <= r.horizon))
  {
    var k := FreshSuffix(Stamped, b, r.now);
    StampedNeverCascades(b, r.now, r.data);
    PushKeepsSorted(b, k, false, r.data);
    hide Push, FreshSuffix, Sorted, ZipFrom, Kept;
    var p := [Gen(k, false, r.data)] + b;
    KeptUnderAge(p, r.horizon);
    var n := Kept(p, MaxAge, r.horizon);
    assert Round(b, policy, r) == Zipped(p[..n], ZipFrom(n, policy.exclude));
    assert forall i :: 0 <= i < n ==> p[..n][i] == p[i];
  }

  lemma {:induction false} NothingCutYet(a: seq<Gen>, policy: Policy)
    ensures KeptByAge(a, policy, [], Rounds(a, policy, []))
  {
  }

  // The age limit over whole runs.
  lemma {:induction false} AgeKeepsExactly(a: seq<Gen>, policy: Policy, rs: seq<Rotated>)
    requires Sorted(a) && policy.scheme == Stamped && policy.limit == MaxAge
    ensures KeptByAge(a, policy, rs, Rounds(a, policy, rs))
  {
    hide KeptByAge, Rounds, Sorted;
    if rs == [] {
      NothingCutYet(a, policy);
    } else {
      var init, r := rs[..|rs| - 1], rs[|rs| - 1];
      AgeKeepsExactly(a, policy, init);
      RoundsKeepSorted(a, policy, init);
      assert init + [r] == rs;
      AgeStep(a, policy, init, r);
    }
  }

  lemma {:induction false} AgeStep(a: seq<Gen>, policy: Policy, init: seq<Rotated>, r: Rotated)
    requires Sorted(Rounds(a, policy, init)) && policy.scheme == Stamped && policy.limit == MaxAge
    requires KeptByAge(a, policy, init, Rounds(a, policy, init))
    ensures KeptByAge(a, policy, init + [r], Rounds(a, policy, init + [r]))
  {
    hide Rounds, Round, WithinAll, AllDated, FreshSuffix, Sorted;
    AllDatedSnoc(a, policy, init, r);
    RoundsSnoc(a, policy, init, r);
    var b, was := Rounds(a, policy, init), AllDated(a, policy, init);
    RoundKeepsByAge(b, policy, r);
    var c, all := Round(b, policy, r), AllDated(a, policy, init + [r]);
    var p := [Gen(FreshSuffix(Stamped, b, r.now), false, r.data)] + b;
    assert forall i :: 0 <= i < |p| ==> p[i].suffix == all[i].suffix && p[i].data == all[i].data;
    forall i | 0 <= i < |all|
      ensures i < |c| <==> WithinAll(init + [r], i, all[i].suffix)
    {
      WithinOneMore(init, r, if i == 0 then 0 else i - 1, all[i].suffix);
    }
  }

  // Under a clock that does not go back the horizon does not either (a smaller suffix is
  // a newer one); then what is within the last horizon is there, and nothing else.
  predicate HorizonsAdvance(rs: seq<Rotated>) {
    forall i, j :: 0 <= i < j < |rs| ==> rs[j].horizon <= rs[i].horizon
  }

  // A generation is in the archive exactly when it lies within the last horizon.
  predicate KeptByLastHorizon(older: seq<Gen>, policy: Policy, rs: seq<Rotated>, a: seq<Gen>)
    requires rs != []
  {
    var all := AllDated(older, policy, rs);
    forall i :: 0 <= i < |all| ==> (i < |a| <==> all[i].suffix <= rs[|rs| - 1].horizon)
  }

  lemma {:induction false} LastHorizonDecides(older: seq<Gen>, policy: Policy, rs: seq<Rotated>, a: seq<Gen>)
    requires KeptByAge(older, policy, rs, a) && rs != [] && HorizonsAdvance(rs)
    ensures KeptByLastHorizon(older, policy, rs, a)
  {
    hide AllDated;
  }

  // ------------------------------------------------------------ numbered form

  predicate ContiguousFrom(a: seq<Gen>, k: int) {
    forall i :: 0 <= i < |a| ==> a[i].suffix == k + i
  }

  lemma {:induction false} PushKeepsContiguous(a: seq<Gen>, k: int, compressed: bool, data: Bytes)
    requires ContiguousFrom(a, k)
    ensures ContiguousFrom(Push(a, k, compressed, data), k)
  {
    if a != [] {
      assert a[0].suffix == k + 0;
      assert forall i :: 0 <= i < |a[1..]| ==> a[1..][i] == a[i + 1];
      PushKeepsContiguous(a[1..], k + 1, a[0].compressed, a[0].data);
      var rest := Push(a[1..], k + 1, a[0].compressed, a[0].data);
      assert forall i :: 0 <= i < |rest| ==> rest[i].suffix == k + 1 + i;
    }
  }

  lemma {:induction false} RoundsKeepContiguous(a: seq<Gen>, policy: Policy, rs: seq<Rotated>)
    requires policy.scheme == Numbered && Sorted(a) && ContiguousFrom(a, 1)
    ensures ContiguousFrom(Rounds(a, policy, rs), 1)
  {
    if rs != [] {
      var b, r := Rounds(a, policy, rs[..|rs| - 1]), rs[|rs| - 1];
      RoundsKeepContiguous(a, policy, rs[..|rs| - 1]);
      PushKeepsContiguous(b, 1, false, r.data);
      var c := Push(b, 1, false, r.data);
      assert Sorted(c);
      CleanedKeepsOrder(c, policy, r.horizon);
    }
  }

  lemma {:induction false} NumberedList(policy: Policy, rs: seq<Rotated>, a: seq<Gen>)
    requires Accounts([], policy, rs, a) && ContiguousFrom(a, 1)
    requires !policy.limit.MaxAge? && RunFits(policy, 0, |rs|)
    ensures |a| == Keep(policy.limit, |rs|)
    ensures forall i :: 0 <= i < |a| ==>
              a[i] == Gen(i + 1, policy.exclude.Some? && i + 1 > policy.exclude.value, rs[|rs| - 1 - i].data)
  {
    hide IsTail, OldestFirst, Datas, RunFits, FrontIsFree, Sorted;
    if rs != [] {
      assert NewestFirst(rs) + Bodies([]) == NewestFirst(rs);
      hide Tidy, NewestFirst, Bodies;
      forall i | 0 <= i < |a|
        ensures a[i] == Gen(i + 1, policy.exclude.Some? && i + 1 > policy.exclude.value, rs[|rs| - 1 - i].data)
      {
        assert Bodies(a)[i] == Tidy(NewestFirst(rs), |a|, policy.exclude)[i];
      }
    }
  }

  // Numbered form from an empty archive: after k rounds, base.i is exactly the i-th
  // most recent generation for i up to min(k, m), in .gz form exactly when i > n, and
  // there is no other archive.
  lemma {:induction false} NumberedRuns(policy: Policy, rs: seq<Rotated>)
    requires policy.scheme == Numbered && !policy.limit.MaxAge? && RunFits(policy, 0, |rs|)
    ensures var a := Rounds([], policy, rs);
            && |a| == Keep(policy.limit, |rs|)
            && forall i :: 0 <= i < |a| ==>
                 a[i] == Gen(i + 1, policy.exclude.Some? && i + 1 > policy.exclude.value, rs[|rs| - 1 - i].data)
  {
    hide Accounts, Rounds, ContiguousFrom;
    RunsRefineTheList([], policy, rs);
    RoundsKeepContiguous([], policy, rs);
    NumberedList(policy, rs, Rounds([], policy, rs));
  }

  // "Compressed is monotone in age" survives every rotation and cleanup, for every
  // limit, age included.
  lemma {:induction false} RoundKeepsMonotone(a: seq<Gen>, policy: Policy, r: Rotated)
    requires Sorted(a) && FrontIsFree(policy.scheme, a) && CompressedIsMonotone(a)
    ensures CompressedIsMonotone(Round(a, policy, r))
  {
    PushPutsInFront(a, policy.scheme, r.now, r.data);
    var b := Push(a, FreshSuffix(policy.scheme, a, r.now), false, r.data);
    assert forall i :: 0 <= i < |b| ==> b[i].compressed == Bodies(b)[i].compressed;
    assert forall i :: 1 <= i < |b| ==> b[i].compressed == a[i - 1].compressed;
    CleanedKeepsMonotone(b, policy, r.horizon);
  }

  lemma {:induction false} CleanedKeepsMonotone(a: seq<Gen>, policy: Policy, horizon: int)
    requires CompressedIsMonotone(a)
    ensures CompressedIsMonotone(Cleaned(a, policy, horizon))
  {
    var n := Kept(a, policy.limit, horizon);
    assert forall i :: 0 <= i < n ==> a[..n][i] == a[i];
  }
}
