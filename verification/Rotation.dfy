// The rotation backend: an ordered index of archived files kept in step with the
// disk through the recursive rename cascade and the cleanup loops.
module Rotation {
  import opened Common
  import opened Archive
  import opened Files

  // --------------------------------------------------- the index as a BTreeSet

  // replace: the entry goes to its place, over one with the same suffix; insert is the
  // same when there is no such entry.
  function Put(s: seq<Info>, x: Info): seq<Info> {
    if s == [] || x.suffix < s[0].suffix then [x] + s
    else if x.suffix == s[0].suffix then [x] + s[1..]
    else [s[0]] + Put(s[1..], x)
  }

  // get: the entry with this suffix, whatever its flag.
  function Get(s: seq<Info>, suffix: int): (r: Option<Info>)
    ensures r.Some? ==> r.value in s && r.value.suffix == suffix
    ensures r.None? ==> forall x :: x in s ==> x.suffix != suffix
  {
    if s == [] then None
    else if s[0].suffix == suffix then Some(s[0])
    else Get(s[1..], suffix)
  }

  // split_off keeps what is strictly newer than the given entry.
  function NewerThan(s: seq<Info>, suffix: int): seq<Info> {
    if s == [] then []
    else if s[0].suffix < suffix then [s[0]] + NewerThan(s[1..], suffix)
    else NewerThan(s[1..], suffix)
  }

  lemma {:induction false} PutAfter(head: seq<Info>, tail: seq<Info>, x: Info)
    requires forall y :: y in head ==> y.suffix < x.suffix
    ensures Put(head + tail, x) == head + Put(tail, x)
  {
    if head == [] {
      assert head + tail == tail;
    } else {
      var y, rest := head[0], head[1..];
      assert head + tail == [y] + (rest + tail);
      PutAfter(rest, tail, x);
      assert head + Put(tail, x) == [y] + (rest + Put(tail, x));
    }
  }

  lemma {:induction false} PutHead(s: seq<Info>, x: Info)
    requires s != [] && s[0].suffix == x.suffix
    ensures Put(s, x) == [x] + s[1..]
  {
  }

  lemma {:induction false} PutReplaces(s: seq<Info>, i: nat, x: Info)
    requires Ascending(s) && i < |s| && s[i].suffix == x.suffix
    ensures Put(s, x) == s[i := x]
  {
    assert forall y :: y in s[..i] ==> y.suffix < x.suffix;
    hide Put, Ascending;
    PutAfter(s[..i], s[i..], x);
    PutHead(s[i..], x);
    assert s == s[..i] + s[i..];
    assert s[i := x] == s[..i] + ([x] + s[i..][1..]);
  }

  lemma {:induction false} SplitOffCuts(s: seq<Info>, i: nat)
    requires Ascending(s) && i < |s|
    ensures NewerThan(s, s[i].suffix) == s[..i]
  {
    if i == 0 {
      NothingNewer(s, s[0].suffix);
    } else {
      SplitOffCuts(s[1..], i - 1);
      assert s[1..][i - 1] == s[i];
      assert s[..i] == [s[0]] + s[1..][..i - 1];
    }
  }

  lemma {:induction false} NothingNewer(s: seq<Info>, suffix: int)
    requires forall x :: x in s ==> suffix <= x.suffix
    ensures NewerThan(s, suffix) == []
  {
    if s != [] {
      NothingNewer(s[1..], suffix);
    }
  }

  // What is not compressed yet among the entries of rank `from` and more, oldest first.
  function ToCompress(s: seq<Info>, from: nat): (r: seq<Info>)
    decreases |s|
  {
    if |s| <= from then []
    else (if s[|s| - 1].compressed then [] else [s[|s| - 1]]) + ToCompress(s[..|s| - 1], from)
  }

  // A point part way down the cascade: `pos` entries of the index and the files in
  // `base` are settled, `tail` is what lies ahead, in the index and on disk.
  datatype Frontier = Frontier(pos: nat, base: map<Path, Bytes>, tail: seq<Gen>)

  ghost predicate IndexAhead(s: seq<Info>, f: Frontier, k: int) {
    match f
    case Frontier(pos, _, tail) =>
      && pos <= |s| && Ascending(s)
      && s[pos..] == Infos(tail) && Sorted(tail)
      && (forall i :: 0 <= i < pos ==> s[i].suffix < k)
      && (forall g :: g in tail ==> k <= g.suffix)
  }

  ghost predicate DiskAhead(files: map<Path, Bytes>, f: Frontier, k: int) {
    match f
    case Frontier(_, base, tail) =>
      && files == base + FilesOf(tail)
      && (forall p :: p in base && p.Archived? ==> p.suffix < k)
  }

  // Back at the same point: with the created suffix added, the index shows `moved`
  // from `pos` on; so do the files, and the source has left its old place.
  ghost predicate IndexDone(s: seq<Info>, created: Info, f: Frontier, moved: seq<Gen>, k: int) {
    match f
    case Frontier(pos, _, _) =>
      pos <= |s| && k <= created.suffix && Put(s[pos..], created) == Infos(moved)
  }

  ghost predicate DiskDone(files: map<Path, Bytes>, f: Frontier, source: Path, moved: seq<Gen>) {
    match f
    case Frontier(_, base, _) => files == (base - {source}) + FilesOf(moved)
  }

  // One level down: the file found in the way joins the base.
  function Deeper(f: Frontier): Frontier
    requires f.tail != []
  {
    Frontier(f.pos + 1, f.base[PathOf(InfoOf(f.tail[0])) := f.tail[0].data], f.tail[1..])
  }

  // The set of indexed numbers is the same, and so is their order.
  predicate SameSuffixes(s: seq<Info>, t: seq<Info>) {
    |s| == |t| && forall i :: 0 <= i < |s| ==> s[i].suffix == t[i].suffix
  }

  lemma {:induction false} SuffixesStay(s: seq<Info>, t: seq<Info>, u: seq<Info>)
    requires SameSuffixes(s, t) && SameSuffixes(t, u)
    ensures SameSuffixes(s, u)
  {
  }

  // The run the cascade goes through, entry by entry.
  lemma {:induction false} RunGoesOn(tail: seq<Gen>, k: int)
    ensures tail != [] && tail[0].suffix == k ==> RunEnd(tail, k) == 1 + RunEnd(tail[1..], k + 1)
    ensures tail == [] || k < tail[0].suffix ==> RunEnd(tail, k) == 0
  {
  }

  // The index has an entry at k exactly when the tail begins with one.
  lemma {:induction false} ConflictIsHead(s: seq<Info>, f: Frontier, k: int)
    requires IndexAhead(s, f, k)
    ensures f.pos <= |s|
    ensures Get(s, k) == if f.tail != [] && f.tail[0].suffix == k then Some(InfoOf(f.tail[0])) else None
  {
    var pos, tail := f.pos, f.tail;
    forall x | x in s && x.suffix == k
      ensures tail != [] && x == InfoOf(tail[0])
    {
      var i :| 0 <= i < |s| && s[i] == x;
      assert s[i] == s[pos..][i - pos] == InfoOf(tail[i - pos]);
      assert tail[0] in tail;
    }
    if tail != [] && tail[0].suffix == k {
      assert s[pos] == s[pos..][0] && s[pos] in s;
    }
  }

  // On the way down the index gets the new flag ...
  lemma {:induction false} IndexDown(s: seq<Info>, f: Frontier, x: Info)
    requires IndexAhead(s, f, x.suffix)
    requires f.tail != [] && f.tail[0].suffix == x.suffix
    ensures f.pos < |s| && Put(s, x) == s[f.pos := x] && SameSuffixes(s, s[f.pos := x])
    ensures IndexAhead(s[f.pos := x], Deeper(f), x.suffix + 1)
  {
    var pos := f.pos;
    assert s[pos] == s[pos..][0];
    PutReplaces(s, pos, x);
    assert s[pos := x][pos + 1..] == s[pos..][1..] == Infos(f.tail[1..]);
    SortedTail(f.tail);
  }

  // ... while the files stay.
  lemma {:induction false} DiskDown(files: map<Path, Bytes>, f: Frontier, k: int)
    requires DiskAhead(files, f, k)
    requires f.tail != [] && f.tail[0].suffix == k
    ensures DiskAhead(files, Deeper(f), k + 1)
    ensures Deeper(f).base - {PathOf(InfoOf(f.tail[0]))} == f.base
  {
    var g := f.tail[0];
    var p := PathOf(InfoOf(g));
    assert f.tail == [g] + f.tail[1..];
    FilesOfCons(g, f.tail[1..]);
    UnionAssociates(f.base, map[p := g.data], FilesOf(f.tail[1..]));
    assert f.base[p := g.data] == f.base + map[p := g.data];
  }

  // On the way up one file moves to the place just vacated.
  lemma {:induction false} DiskUp(files: map<Path, Bytes>, base: map<Path, Bytes>, source: Path, g: Gen, rest: seq<Gen>)
    requires files == base + FilesOf(rest) && source in base
    requires forall p :: p in base && p.Archived? ==> p.suffix < g.suffix
    requires forall x :: x in rest ==> g.suffix < x.suffix
    ensures var p := PathOf(InfoOf(g));
            && source in files && files[source] == base[source] && p !in files && p != source
            && (files - {source})[p := g.data] == (base - {source}) + FilesOf([g] + rest)
  {
    FilesOfCons(g, rest);
    FilesOfBeyond(rest, g.suffix);
  }

  lemma {:induction false} IndexUp(s0: seq<Info>, s: seq<Info>, created: Info, f: Frontier, g: Gen, rest: seq<Gen>)
    requires f.pos < |s0| && |s| == |s0| && s[..f.pos + 1] == s0[f.pos := InfoOf(g)][..f.pos + 1]
    requires f.tail != [] && IndexDone(s, created, Deeper(f), rest, g.suffix + 1)
    ensures IndexDone(s, created, f, [g] + rest, g.suffix)
    ensures s[..f.pos] == s0[..f.pos]
  {
    var pos := f.pos;
    assert s[pos] == s[..pos + 1][pos] == InfoOf(g);
    assert s[..pos] == s[..pos + 1][..pos];
    assert s[pos..] == [InfoOf(g)] + s[pos + 1..];
    assert Put(s[pos..], created) == [InfoOf(g)] + Put(s[pos + 1..], created);
    assert Infos([g] + rest) == [InfoOf(g)] + Infos(rest);
  }

  lemma {:induction false} IndexHere(s: seq<Info>, f: Frontier, g: Gen)
    requires IndexAhead(s, f, g.suffix) && (f.tail == [] || f.tail[0].suffix != g.suffix)
    ensures IndexDone(s, InfoOf(g), f, [g] + f.tail, g.suffix)
    ensures Push(f.tail, g.suffix, g.compressed, g.data) == [g] + f.tail
    ensures forall x :: x in f.tail ==> g.suffix < x.suffix
  {
    assert f.tail != [] ==> f.tail[0] in f.tail;
    assert Infos([g] + f.tail) == [InfoOf(g)] + Infos(f.tail);
  }

  // The rename that ends one level can be done, and what it leaves behind.
  ghost predicate Renamable(files: map<Path, Bytes>, f: Frontier, source: Path, g: Gen, moved: seq<Gen>) {
    match f
    case Frontier(_, base, _) =>
      && source in base && source in files && files[source] == base[source]
      && PathOf(InfoOf(g)) !in files && PathOf(InfoOf(g)) != source
      && DiskDone((files - {source})[PathOf(InfoOf(g)) := g.data], f, source, moved)
  }

  lemma {:induction false} RenamableHere(files: map<Path, Bytes>, f: Frontier, source: Path, g: Gen)
    requires DiskAhead(files, f, g.suffix) && source in f.base
    requires forall x :: x in f.tail ==> g.suffix < x.suffix
    ensures Renamable(files, f, source, g, [g] + f.tail)
  {
    DiskUp(files, f.base, source, g, f.tail);
  }

  lemma {:induction false} PushOntoConflict(tail: seq<Gen>, g: Gen)
    requires tail != [] && tail[0].suffix == g.suffix
    ensures Push(tail, g.suffix, g.compressed, g.data) ==
        [g] + Push(tail[1..], g.suffix + 1, tail[0].compressed, tail[0].data)
  {
  }

  lemma {:induction false} RenamableAfter(files0: map<Path, Bytes>, files: map<Path, Bytes>, f: Frontier,
                                          source: Path, g: Gen, rest: seq<Gen>)
    requires DiskAhead(files0, f, g.suffix) && source in f.base
    requires f.tail != [] && f.tail[0].suffix == g.suffix
    requires forall x :: x in f.tail ==> g.suffix <= x.suffix
    requires Sorted(f.tail)
    requires rest == Push(f.tail[1..], g.suffix + 1, f.tail[0].compressed, f.tail[0].data)
    requires DiskDone(files, Deeper(f), PathOf(InfoOf(f.tail[0])), rest)
    ensures Renamable(files, f, source, g, [g] + rest)
    ensures [g] + rest == Push(f.tail, g.suffix, g.compressed, g.data)
  {
    PushOntoConflict(f.tail, g);
    hide Push, FilesOf, Sorted;
    DiskDown(files0, f, g.suffix);
    SortedTail(f.tail);
    PushStaysFrom(f.tail[1..], g.suffix + 1, f.tail[0].compressed, f.tail[0].data, g.suffix + 1);
    DiskUp(files, f.base, source, g, rest);
  }

  lemma {:induction false} TailIsSorted(s: seq<Info>, f: Frontier, k: int)
    requires IndexAhead(s, f, k)
    ensures Sorted(f.tail) && forall x :: x in f.tail ==> k <= x.suffix
  {
  }

  // ------------------------------------------------ the whole rename_files

  ghost function Start(a: seq<Gen>, files: map<Path, Bytes>, k: int): Frontier
    requires Log in files
  {
    var p := Below(a, k);
    Frontier(p, map[Log := files[Log]] + FilesOf(a[..p]), a[p..])
  }

  lemma {:induction false} StartIndex(a: seq<Gen>, files: map<Path, Bytes>, k: int)
    requires Sorted(a) && Log in files
    ensures IndexAhead(Infos(a), Start(a, files, k), k)
  {
    BelowSplits(a, k);
    assert Infos(a)[Below(a, k)..] == Infos(a[Below(a, k)..]);
  }

  lemma {:induction false} StartDisk(a: seq<Gen>, files: map<Path, Bytes>, k: int)
    requires Sorted(a) && Log in files && files - {Log} == FilesOf(a)
    ensures DiskAhead(files, Start(a, files, k), k)
    ensures Log in Start(a, files, k).base && Start(a, files, k).base[Log] == files[Log]
  {
    var p := Below(a, k);
    BelowSplits(a, k);
    assert a == a[..p] + a[p..];
    FilesOfConcat(a[..p], a[p..]);
    FilesOfOlder(a[..p], k);
    FilesAreArchived(a[..p]);
    hide Sorted, FilesOf, Below;
    WithLog(files, FilesOf(a[..p]), FilesOf(a[p..]));
  }

  lemma {:induction false} WithLog(files: map<Path, Bytes>, newer: map<Path, Bytes>, rest: map<Path, Bytes>)
    requires Log in files && files - {Log} == newer + rest
    ensures files == (map[Log := files[Log]] + newer) + rest
  {
    assert files == map[Log := files[Log]] + (files - {Log});
    UnionAssociates(map[Log := files[Log]], newer, rest);
  }

  lemma {:induction false} InfosConcat(a: seq<Gen>, b: seq<Gen>)
    ensures Infos(a + b) == Infos(a) + Infos(b)
  {
  }

  lemma {:induction false} EndIndex(newer: seq<Gen>, s: seq<Info>, created: Info, moved: seq<Gen>, k: int)
    requires forall i :: 0 <= i < |newer| ==> newer[i].suffix < k
    requires |newer| <= |s| && s[..|newer|] == Infos(newer)
    requires k <= created.suffix && Put(s[|newer|..], created) == Infos(moved)
    ensures Put(s, created) == Infos(newer + moved)
  {
    hide Put;
    assert s == s[..|newer|] + s[|newer|..];
    forall y | y in s[..|newer|]
      ensures y.suffix < created.suffix
    {
      var i :| 0 <= i < |newer| && Infos(newer)[i] == y;
    }
    PutAfter(s[..|newer|], s[|newer|..], created);
    InfosConcat(newer, moved);
  }

  // The cascade run on the part from k on is the cascade run on the whole.
  lemma {:induction false} PushWhole(a: seq<Gen>, g: Gen)
    requires Sorted(a)
    ensures var p := Below(a, g.suffix);
            && (forall i :: 0 <= i < p ==> a[..p][i].suffix < g.suffix)
            && Infos(a)[..p] == Infos(a[..p])
            && Push(a, g.suffix, g.compressed, g.data) == a[..p] + Push(a[p..], g.suffix, g.compressed, g.data)
    ensures Sorted(Push(a, g.suffix, g.compressed, g.data))
  {
    var p := Below(a, g.suffix);
    BelowSplits(a, g.suffix);
    assert a == a[..p] + a[p..];
    PushSkips(a[..p], a[p..], g.suffix, g.compressed, g.data);
    PushKeepsSorted(a, g.suffix, g.compressed, g.data);
  }

  lemma {:induction false} EndDisk(newer: seq<Gen>, files0: map<Path, Bytes>, files: map<Path, Bytes>, moved: seq<Gen>)
    requires Log in files0
    requires files == ((map[Log := files0[Log]] + FilesOf(newer)) - {Log}) + FilesOf(moved)
    ensures Log !in files && files - {Log} == FilesOf(newer + moved)
  {
    FilesAreArchived(newer);
    FilesAreArchived(moved);
    FilesOfConcat(newer, moved);
    hide FilesOf;
    assert (map[Log := files0[Log]] + FilesOf(newer)) - {Log} == FilesOf(newer);
  }

  // ------------------------------------------------------- cleanup, one file

  // Once index and disk are down to i + 1 files, removing the oldest leaves i.
  lemma {:induction false} LastFile(a: seq<Gen>, i: nat, files: map<Path, Bytes>)
    requires Sorted(a) && i < |a| && files - {Log} == FilesOf(a[..i + 1])
    ensures var p := PathOf(InfoOf(a[i]));
            p in files && (files - {p}) - {Log} == FilesOf(a[..i])
  {
    var p := PathOf(InfoOf(a[i]));
    assert forall g :: g in a[..i] ==> g.suffix < a[i].suffix;
    hide Sorted, FilesOf;
    FilesOfOlder(a[..i], a[i].suffix);
    FilesOfSnoc(a, i);
    RemoveFile(files, FilesOf(a[..i]), p, a[i].data);
  }

  lemma {:induction false} FilesOfSnoc(a: seq<Gen>, i: nat)
    requires i < |a|
    ensures FilesOf(a[..i + 1]) == FilesOf(a[..i]) + map[PathOf(InfoOf(a[i])) := a[i].data]
  {
    hide FilesOf;
    FilesOfCons(a[i], []);
    FilesOfNothing();
    FilesOfConcat(a[..i], [a[i]]);
    assert [a[i]] + [] == [a[i]];
    assert a[..i + 1] == a[..i] + [a[i]];
  }

  lemma {:induction false} FilesOfNothing()
    ensures FilesOf([]) == map[]
  {
  }

  lemma {:induction false} RemoveFile(files: map<Path, Bytes>, newer: map<Path, Bytes>, p: Path, d: Bytes)
    requires files - {Log} == newer + map[p := d] && p !in newer && p != Log
    ensures p in files && (files - {p}) - {Log} == newer
  {
    assert p in files - {Log};
    assert (files - {p}) - {Log} == (files - {Log}) - {p};
  }

  lemma {:induction false} KeptIsUnique(a: seq<Gen>, limit: Limit, horizon: int, n: nat)
    requires n <= |a| && forall i :: n <= i < |a| ==> TooOld(limit, horizon, a[i].suffix, i)
    requires n > 0 ==> !TooOld(limit, horizon, a[n - 1].suffix, n - 1)
    ensures Kept(a, limit, horizon) == n
  {
  }

  lemma {:induction false} CutIndex(a: seq<Gen>, i: nat)
    requires Sorted(a) && i < |a|
    ensures NewerThan(Infos(a), a[i].suffix) == Infos(a[..i]) && Sorted(a[..i])
  {
    SplitOffCuts(Infos(a), i);
    assert Infos(a)[..i] == Infos(a[..i]);
  }

  lemma {:induction false} CutNothing(a: seq<Gen>)
    ensures a[..|a|] == a
  {
  }

  lemma {:induction false} NothingIsTooOld(a: seq<Gen>, limit: Limit, horizon: int)
    requires limit == Unlimited
    ensures Kept(a, limit, horizon) == |a|
  {
  }

  lemma {:induction false} SwapFile(newer: map<Path, Bytes>, older: map<Path, Bytes>, files: map<Path, Bytes>,
                                    p: Path, q: Path, d: Bytes)
    requires files - {Log} == newer + (map[p := d] + older)
    requires p !in newer && p !in older && q !in newer && q !in older && p != q && p != Log && q != Log
    ensures p in files && files[p] == d && q !in files
    ensures ((files - {p})[q := d]) - {Log} == newer + (map[q := d] + older)
  {
    var rest := files - {Log};
    assert p in rest && rest[p] == d && q !in rest;
    assert ((files - {p})[q := d]) - {Log} == (rest - {p})[q := d];
    assert rest - {p} == newer + older;
    assert (newer + older)[q := d] == newer + (map[q := d] + older);
  }

  lemma {:induction false} FilesWithout(a: seq<Gen>, r: nat, g: Gen)
    requires r < |a|
    ensures FilesOf(a[r := g]) == FilesOf(a[..r]) + (map[PathOf(InfoOf(g)) := g.data] + FilesOf(a[r + 1..]))
  {
    assert a[r := g] == a[..r] + ([g] + a[r + 1..]);
    FilesOfConcat(a[..r], [g] + a[r + 1..]);
    FilesOfCons(g, a[r + 1..]);
  }

  lemma {:induction false} Neighbours(a: seq<Gen>, r: nat)
    requires Sorted(a) && r < |a|
    ensures forall p :: p in FilesOf(a[..r]) || p in FilesOf(a[r + 1..]) ==> p.Archived? && p.suffix != a[r].suffix
  {
    assert forall g :: g in a[..r] ==> g.suffix < a[r].suffix;
    assert forall g :: g in a[r + 1..] ==> a[r].suffix < g.suffix;
    FilesOfOlder(a[..r], a[r].suffix);
    FilesOfBeyond(a[r + 1..], a[r].suffix);
  }

  // Compressing the file of rank r changes that one entry, in the index and on disk.
  lemma {:induction false} OneFile(a: seq<Gen>, r: nat, files: map<Path, Bytes>)
    requires Sorted(a) && r < |a| && !a[r].compressed && files - {Log} == FilesOf(a)
    ensures var plain, gz := Archived(a[r].suffix, false), Archived(a[r].suffix, true);
            && plain in files && gz !in files
            && ((files - {plain})[gz := files[plain]]) - {Log} == FilesOf(a[r := a[r].(compressed := true)])
    ensures Sorted(a[r := a[r].(compressed := true)])
    ensures Put(Infos(a), Info(a[r].suffix, true)) == Infos(a[r := a[r].(compressed := true)])
  {
    var g := a[r];
    var z := g.(compressed := true);
    Neighbours(a, r);
    FilesWithout(a, r, g);
    FilesWithout(a, r, z);
    assert a[r := g] == a;
    PutReplaces(Infos(a), r, Info(g.suffix, true));
    hide FilesOf;
    SwapFile(FilesOf(a[..r]), FilesOf(a[r + 1..]), files, PathOf(InfoOf(g)), PathOf(InfoOf(z)), g.data);
  }

  // From rank n down, the first rank whose next older neighbour still is plain.
  function SkipCompressed(a: seq<Gen>, n: nat, from: nat): (r: nat)
    requires from <= n <= |a|
    ensures from <= r <= n
    ensures r > from ==> !a[r - 1].compressed
  {
    if n > from && a[n - 1].compressed then SkipCompressed(a, n - 1, from) else n
  }

  lemma {:induction false} SkippingZipsNothing(a: seq<Gen>, n: nat, from: nat)
    requires from <= n <= |a|
    ensures Zipped(a, n) == Zipped(a, SkipCompressed(a, n, from))
  {
    if n > from && a[n - 1].compressed {
      SkippingZipsNothing(a, n - 1, from);
      assert Zipped(a, n) == Zipped(a, n - 1);
    }
  }

  // The next entry to compress, if any, is the one just before rank n.
  predicate AtPlain(a: seq<Gen>, n: nat, from: nat) {
    from <= n <= |a| && (n > from ==> !a[n - 1].compressed)
  }

  // What is still to be compressed among the n newest entries.
  function PlainBelow(a: seq<Gen>, n: nat, from: nat): seq<Info>
    requires n <= |a|
  {
    ToCompress(Infos(a[..n]), from)
  }

  lemma {:induction false} NextToCompress(a: seq<Gen>, n: nat, from: nat)
    requires from <= n <= |a|
    ensures PlainBelow(a, n, from) == PlainBelow(a, SkipCompressed(a, n, from), from)
  {
    if n > from && a[n - 1].compressed {
      assert Infos(a[..n])[..n - 1] == Infos(a[..n - 1]);
      NextToCompress(a, n - 1, from);
    }
  }

  // With a plain entry next, the list to do begins with it.
  lemma {:induction false} HeadToCompress(a: seq<Gen>, n: nat, from: nat)
    requires AtPlain(a, n, from)
    requires PlainBelow(a, n, from) != []
    ensures n > from && !a[n - 1].compressed
    ensures PlainBelow(a, n, from)[0] == InfoOf(a[n - 1])
    ensures PlainBelow(a, n, from)[1..] == PlainBelow(a, SkipCompressed(a, n - 1, from), from)
  {
    assert n > from ==> Infos(a[..n])[..n - 1] == Infos(a[..n - 1]);
    NextToCompress(a, n - 1, from);
  }

  lemma {:induction false} NoneToCompress(a: seq<Gen>, n: nat, from: nat)
    requires AtPlain(a, n, from)
    requires PlainBelow(a, n, from) == []
    ensures n == from
  {
  }

  lemma {:induction false} AllToCompress(a: seq<Gen>, from: nat)
    requires from <= |a|
    ensures var n := SkipCompressed(a, |a|, from);
            ToCompress(Infos(a), from) == PlainBelow(a, n, from) && Zipped(a, n) == a
  {
    assert a[..|a|] == a;
    NextToCompress(a, |a|, from);
    SkippingZipsNothing(a, |a|, from);
    assert Zipped(a, |a|) == a;
  }

  lemma {:induction false} ZipOne(a: seq<Gen>, n: nat)
    requires 0 < n <= |a|
    ensures Zipped(a, n)[n - 1] == a[n - 1]
    ensures Zipped(a, n - 1) == Zipped(a, n)[n - 1 := a[n - 1].(compressed := true)]
  {
  }

  function AfterCompressing(a: seq<Gen>, n: nat, from: nat): (r: nat)
    requires from <= n <= |a|
    ensures AtPlain(a, r, from)
  {
    if n == from then from else SkipCompressed(a, n - 1, from)
  }

  // One turn of the compression loop: a stands as it was, b as it is now.
  lemma {:induction false} CompressStep(a: seq<Gen>, n: nat, from: nat, b: seq<Gen>, files: map<Path, Bytes>)
    requires AtPlain(a, n, from) && PlainBelow(a, n, from) != []
    requires b == Zipped(a, n) && Sorted(b) && files - {Log} == FilesOf(b)
    ensures var info, c := PlainBelow(a, n, from)[0], Zipped(a, AfterCompressing(a, n, from));
            var plain, gz := Archived(info.suffix, false), Archived(info.suffix, true);
            && plain in files && gz !in files
            && ((files - {plain})[gz := files[plain]]) - {Log} == FilesOf(c)
            && Put(Infos(b), Info(info.suffix, true)) == Infos(c)
            && Sorted(c)
    ensures PlainBelow(a, n, from)[1..] == PlainBelow(a, AfterCompressing(a, n, from), from)
  {
    hide Sorted, FilesOf, Infos, Put, PlainBelow;
    HeadToCompress(a, n, from);
    ZipOne(a, n);
    SkippingZipsNothing(a, n - 1, from);
    OneFile(b, n - 1, files);
  }

  // Cleanup leaves the descriptor alone, unless it is on an archived file: that file may
  // lose its name.
  predicate StillOpen(before: Handle, after: Handle) {
    after == before || (before.At? && before.path.Archived? && after == Orphan)
  }

  class Backend {
    const policy: Policy
    const disk: Disk
    var suffixes: seq<Info>
    // What index and files together stand for.
    ghost var gens: seq<Gen>

    ghost predicate Valid()
      reads this, disk
    {
      Sorted(gens) && suffixes == Infos(gens) && disk.files - {Log} == FilesOf(gens)
    }

    // The scan found this index; the disk agrees with it.
    constructor (policy: Policy, disk: Disk, scanned: seq<Info>)
      requires Ascending(scanned) && Agrees(scanned, disk.files)
      requires forall i :: 0 <= i < |scanned| ==> PathOf(scanned[i]) in disk.files
      ensures Valid() && this.policy == policy && this.disk == disk
      ensures gens == GensOf(scanned, disk.files)
    {
      this.policy := policy;
      this.disk := disk;
      suffixes := scanned;
      gens := GensOf(scanned, disk.files);
      new;
      AgreementIsEnough(scanned, disk.files);
    }

    function NextSuffix(from: Option<Info>, now: int): int
      reads this
    {
      RotateFile(policy.scheme, if suffixes == [] then None else Some(suffixes[0].suffix),
                 if from.Some? then Some(from.value.suffix) else None, now)
    }

    // _move_file_with_suffix. On the way down the index is rewritten while the files
    // stay; on the way up the files follow. `g` is the file on the move, as it will be.
    method MoveFile(from: Option<Info>, now: int, ghost f: Frontier, ghost source: Path, ghost g: Gen)
      returns (created: Info, ghost moved: seq<Gen>)
      requires source == (if from.Some? then PathOf(from.value) else Log) && source in f.base
      requires g == Gen(NextSuffix(from, now), from.Some? && from.value.compressed, f.base[source])
      requires IndexAhead(suffixes, f, g.suffix) && DiskAhead(disk.files, f, g.suffix)
      requires disk.fd == Closed || disk.fd == At(Log)
      modifies this`suffixes, disk
      ensures moved == Push(f.tail, g.suffix, g.compressed, g.data)
      ensures IndexDone(suffixes, created, f, moved, g.suffix) && DiskDone(disk.files, f, source, moved)
      ensures created.suffix == g.suffix + RunEnd(f.tail, g.suffix) && SameSuffixes(old(suffixes), suffixes)
      ensures forall x :: x in suffixes ==> x.suffix != created.suffix
      ensures disk.fd == if source == Log && old(disk.fd) == At(Log) then At(PathOf(InfoOf(g))) else old(disk.fd)
      ensures f.pos <= |suffixes| && suffixes[..f.pos] == old(suffixes)[..f.pos]
      decreases |f.tail|
    {
      hide IndexAhead, IndexDone, DiskAhead, Push, Put, Get, FilesOf, Infos, RunEnd;
      RunGoesOn(f.tail, g.suffix);
      var newest := if suffixes == [] then None else Some(suffixes[0].suffix);
      var newSuffix := RotateFile(policy.scheme, newest, if from.Some? then Some(from.value.suffix) else None, now);
      var newInfo := Info(newSuffix, if from.Some? then from.value.compressed else false);
      var existing := Get(suffixes, newInfo.suffix);
      ConflictIsHead(suffixes, f, newSuffix);

      if existing.Some? {
        IndexDown(suffixes, f, newInfo);
        DiskDown(disk.files, f, newSuffix);
        suffixes := Put(suffixes, newInfo);
        created, moved := MoveFile(existing, now, Deeper(f), PathOf(existing.value),
          f.tail[0].(suffix := newSuffix + 1));
        SuffixesStay(old(suffixes), old(suffixes)[f.pos := newInfo], suffixes);
        IndexUp(old(suffixes), suffixes, created, f, g, moved);
        TailIsSorted(old(suffixes), f, newSuffix);
        RenamableAfter(old(disk.files), disk.files, f, source, g, moved);
        moved := [g] + moved;
      } else {
        created := newInfo;
        IndexHere(suffixes, f, g);
        RenamableHere(disk.files, f, source, g);
        moved := [g] + f.tail;
      }
      assert moved == Push(f.tail, g.suffix, g.compressed, g.data) && IndexDone(suffixes, created, f, moved, g.suffix);

      var oldPath := if from.Some? then PathOf(from.value) else Log;
      var newPath := PathOf(newInfo);
      assert Renamable(disk.files, f, source, g, moved);
      assert oldPath in disk.files;
      assert newPath !in disk.files;
      disk.Rename(oldPath, newPath);
    }

    // rename_files: the live log becomes the newest archive.
    method RenameFiles(now: int)
      requires Valid() && Log in disk.files
      requires disk.fd == Closed || disk.fd == At(Log)
      modifies this, disk
      ensures Valid()
      ensures var k := FreshSuffix(policy.scheme, old(gens), now);
              && gens == Push(old(gens), k, false, old(disk.files)[Log])
              && disk.fd == if old(disk.fd) == At(Log) then At(Archived(k, false)) else old(disk.fd)
      ensures Log !in disk.files
    {
      ghost var k := FreshSuffix(policy.scheme, gens, now);
      ghost var f := Start(gens, disk.files, k);
      ghost var g := Gen(k, false, disk.files[Log]);
      StartIndex(gens, disk.files, k);
      StartDisk(gens, disk.files, k);
      PushWhole(gens, g);
      hide IndexAhead, DiskAhead, Push, Put, Get, FilesOf, Infos, Below, Sorted;
      assert NextSuffix(None, now) == k;
      var created: Info;
      ghost var moved: seq<Gen>;
      created, moved := MoveFile(None, now, f, Log, g);
      // insert would leave an equal entry alone; there is none.
      assert Get(suffixes, created.suffix) == None;
      EndIndex(old(gens)[..f.pos], suffixes, created, moved, k);
      EndDisk(old(gens)[..f.pos], old(disk.files), disk.files, moved);
      suffixes := Put(suffixes, created);
      gens := Push(gens, k, false, g.data);
    }

    // handle_old_files: delete the longest tail that is too old, then compress all but
    // the newest ones.
    method HandleOldFiles(horizon: int)
      requires Valid()
      modifies this, disk
      ensures Valid() && gens == Cleaned(old(gens), policy, horizon)
      ensures StillOpen(old(disk.fd), disk.fd)
      ensures Log in disk.files <==> Log in old(disk.files)
      ensures Log in disk.files ==> disk.files[Log] == old(disk.files)[Log]
    {
      DeleteOld(horizon);
      if policy.exclude.Some? {
        CompressOld(ZipFrom(|suffixes|, policy.exclude));
      } else {
        assert Zipped(gens, |gens|) == gens;
      }
    }

    // The reverse loop and the split_off after it.
    method DeleteOld(horizon: int)
      requires Valid()
      modifies this, disk
      ensures Valid() && gens == old(gens)[..Kept(old(gens), policy.limit, horizon)]
      ensures StillOpen(old(disk.fd), disk.fd)
      ensures Log in disk.files <==> Log in old(disk.files)
      ensures Log in disk.files ==> disk.files[Log] == old(disk.files)[Log]
    {
      hide Sorted, FilesOf, TooOld, NewerThan, Infos, Kept;
      if policy.limit != Unlimited {
        var youngestOld: Option<Info> := None;
        var i := |suffixes|;
        assert gens[..i] == gens;
        while i > 0 && TooOld(policy.limit, horizon, suffixes[i - 1].suffix, i - 1)
          invariant i <= |suffixes| == |gens| && suffixes == old(suffixes) && gens == old(gens)
          invariant disk.files - {Log} == FilesOf(gens[..i])
          invariant forall j :: i <= j < |gens| ==> TooOld(policy.limit, horizon, gens[j].suffix, j)
          invariant youngestOld == if i < |suffixes| then Some(suffixes[i]) else None
          invariant StillOpen(old(disk.fd), disk.fd)
          invariant Log in disk.files <==> Log in old(disk.files)
          invariant Log in disk.files ==> disk.files[Log] == old(disk.files)[Log]
        {
          LastFile(gens, i - 1, disk.files);
          disk.Remove(PathOf(suffixes[i - 1]));
          youngestOld := Some(suffixes[i - 1]);
          i := i - 1;
        }
        KeptIsUnique(gens, policy.limit, horizon, i);
        if youngestOld.Some? {
          CutIndex(gens, i);
          suffixes := NewerThan(suffixes, youngestOld.value.suffix);
        } else {
          CutNothing(gens);
        }
        gens := gens[..i];
      } else {
        NothingIsTooOld(gens, policy.limit, horizon);
        CutNothing(gens);
      }
    }

    // Compress every plain entry of rank `from` and more, the oldest first.
    method CompressOld(from: nat)
      requires Valid() && from <= |suffixes|
      modifies this, disk
      ensures Valid() && gens == Zipped(old(gens), from)
      ensures StillOpen(old(disk.fd), disk.fd)
      ensures Log in disk.files <==> Log in old(disk.files)
      ensures Log in disk.files ==> disk.files[Log] == old(disk.files)[Log]
    {
      hide Sorted, FilesOf, ToCompress, Infos, SkipCompressed, Zipped, Put, PlainBelow, AfterCompressing;
      var todo := ToCompress(suffixes, from);
      // Everything of rank `ahead` and more is compressed already.
      ghost var ahead := SkipCompressed(gens, |gens|, from);
      AllToCompress(gens, from);
      while todo != []
        invariant AtPlain(old(gens), ahead, from)
        invariant todo == PlainBelow(old(gens), ahead, from)
        invariant Valid() && gens == Zipped(old(gens), ahead)
        invariant StillOpen(old(disk.fd), disk.fd)
        invariant Log in disk.files <==> Log in old(disk.files)
        invariant Log in disk.files ==> disk.files[Log] == old(disk.files)[Log]
        decreases |todo|
      {
        var info := todo[0];
        ghost var next := AfterCompressing(old(gens), ahead, from);
        CompressStep(old(gens), ahead, from, gens, disk.files);
        disk.Compress(info.suffix);
        suffixes := Put(suffixes, Info(info.suffix, true));
        ahead, gens := next, Zipped(old(gens), next);
        todo := todo[1..];
      }
      NoneToCompress(old(gens), ahead, from);
    }
  }
}
