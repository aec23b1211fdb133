// The files a sink touches: the live log, and the archived files in plain or .gz
// form. One descriptor is open at most; it follows its file through renames.
module Files {
  import opened Common
  import opened Archive

  datatype Path = Log | Archived(suffix: int, gz: bool)
  datatype Handle = Closed | At(path: Path) | Orphan

  // SuffixInfo: the index compares the suffix only, the flag is carried along.
  datatype Info = Info(suffix: int, compressed: bool)

  function PathOf(info: Info): Path {
    Archived(info.suffix, info.compressed)
  }

  function InfoOf(g: Gen): Info {
    Info(g.suffix, g.compressed)
  }

  function Infos(a: seq<Gen>): (r: seq<Info>)
    ensures |r| == |a|
    ensures forall i :: 0 <= i < |a| ==> r[i] == InfoOf(a[i])
  {
    seq(|a|, i requires 0 <= i < |a| => InfoOf(a[i]))
  }

  function FilesOf(a: seq<Gen>): map<Path, Bytes> {
    if a == [] then map[] else map[PathOf(InfoOf(a[0])) := a[0].data] + FilesOf(a[1..])
  }

  lemma {:induction false} FilesOfCons(g: Gen, a: seq<Gen>)
    ensures FilesOf([g] + a) == map[PathOf(InfoOf(g)) := g.data] + FilesOf(a)
  {
    assert ([g] + a)[1..] == a;
  }

  lemma {:induction false} UnionAssociates(a: map<Path, Bytes>, b: map<Path, Bytes>, c: map<Path, Bytes>)
    ensures (a + b) + c == a + (b + c)
  {
  }

  lemma {:induction false} FilesOfConcat(a: seq<Gen>, b: seq<Gen>)
    ensures FilesOf(a + b) == FilesOf(a) + FilesOf(b)
  {
    if a == [] {
      assert a + b == b;
    } else {
      var g, rest := a[0], a[1..];
      FilesOfConcat(rest, b);
      assert a + b == [g] + (rest + b);
      FilesOfCons(g, rest + b);
      UnionAssociates(map[PathOf(InfoOf(g)) := g.data], FilesOf(rest), FilesOf(b));
    }
  }

  lemma {:induction false} FilesOfBeyond(a: seq<Gen>, low: int)
    requires forall g :: g in a ==> low < g.suffix
    ensures forall p :: p in FilesOf(a) ==> p.Archived? && low < p.suffix
  {
    if a != [] {
      FilesOfBeyond(a[1..], low);
      assert a[0] in a;
    }
  }

  lemma {:induction false} FilesOfOlder(a: seq<Gen>, high: int)
    requires forall g :: g in a ==> g.suffix < high
    ensures forall p :: p in FilesOf(a) ==> p.Archived? && p.suffix < high
  {
    if a != [] {
      FilesOfOlder(a[1..], high);
      assert a[0] in a;
    }
  }

  lemma {:induction false} FilesAreArchived(a: seq<Gen>)
    ensures Log !in FilesOf(a)
  {
    if a != [] {
      FilesAreArchived(a[1..]);
    }
  }

  lemma {:induction false} FilesOfDomain(a: seq<Gen>)
    ensures forall p :: p in FilesOf(a) <==> exists g :: g in a && PathOf(InfoOf(g)) == p
  {
    if a != [] {
      FilesOfDomain(a[1..]);
      assert a == [a[0]] + a[1..];
    }
  }

  lemma {:induction false} FilesOfContents(a: seq<Gen>)
    requires Sorted(a)
    ensures forall g :: g in a ==> PathOf(InfoOf(g)) in FilesOf(a) && FilesOf(a)[PathOf(InfoOf(g))] == g.data
  {
    if a != [] {
      SortedTail(a);
      FilesOfContents(a[1..]);
      FilesOfBeyond(a[1..], a[0].suffix);
      assert forall g :: g in a ==> g == a[0] || g in a[1..];
    }
  }

  // A file system in which an index and a list of generations say the same thing:
  // for each suffix at most one of the plain and .gz files exists, and it exists
  // exactly when the index lists the suffix with that flag.
  ghost predicate Agrees(index: seq<Info>, files: map<Path, Bytes>) {
    forall k, gz :: Archived(k, gz) in files <==> Info(k, gz) in index
  }

  predicate Ascending(index: seq<Info>) {
    forall i, j :: 0 <= i < j < |index| ==> index[i].suffix < index[j].suffix
  }

  // What the backend keeps at rest is exactly agreement, with every content in place.
  lemma {:induction false} IndexAndDiskAgree(a: seq<Gen>, index: seq<Info>, files: map<Path, Bytes>)
    requires Sorted(a) && index == Infos(a) && files - {Log} == FilesOf(a)
    ensures Agrees(index, files) && Ascending(index)
    ensures forall k :: !(Archived(k, false) in files && Archived(k, true) in files)
    ensures forall i :: 0 <= i < |a| ==> PathOf(index[i]) in files && files[PathOf(index[i])] == a[i].data
  {
    FilesOfDomain(a);
    FilesOfContents(a);
    forall k, gz
      ensures Archived(k, gz) in files <==> Info(k, gz) in index
    {
      assert Archived(k, gz) in files <==> Archived(k, gz) in FilesOf(a);
      if Info(k, gz) in index {
        var i :| 0 <= i < |a| && index[i] == Info(k, gz);
        assert a[i] in a;
      }
      if Archived(k, gz) in FilesOf(a) {
        var g :| g in a && PathOf(InfoOf(g)) == Archived(k, gz);
        var i :| 0 <= i < |a| && a[i] == g;
        assert index[i] == Info(k, gz);
      }
    }
    forall i | 0 <= i < |a|
      ensures PathOf(index[i]) in files && files[PathOf(index[i])] == a[i].data
    {
      assert a[i] in a;
      assert files[PathOf(index[i])] == (files - {Log})[PathOf(index[i])];
    }
  }

  // The contents behind an agreeing index.
  ghost function GensOf(index: seq<Info>, files: map<Path, Bytes>): (a: seq<Gen>)
    requires forall i :: 0 <= i < |index| ==> PathOf(index[i]) in files
    ensures |a| == |index|
    ensures forall i :: 0 <= i < |a| ==> a[i] == Gen(index[i].suffix, index[i].compressed, files[PathOf(index[i])])
  {
    seq(|index|, i requires 0 <= i < |index| =>
      Gen(index[i].suffix, index[i].compressed, files[PathOf(index[i])]))
  }

  lemma {:induction false} FileIsListed(a: seq<Gen>, index: seq<Info>, files: map<Path, Bytes>, p: Path)
    requires Agrees(index, files) && Sorted(a) && |a| == |index| && p in files && p != Log
    requires forall i :: 0 <= i < |a| ==> InfoOf(a[i]) == index[i] && PathOf(index[i]) in files
    requires forall i :: 0 <= i < |a| ==> a[i].data == files[PathOf(index[i])]
    ensures p in FilesOf(a) && FilesOf(a)[p] == files[p]
  {
    assert p == Archived(p.suffix, p.gz);
    assert Info(p.suffix, p.gz) in index;
    var i :| 0 <= i < |index| && index[i] == Info(p.suffix, p.gz);
    FilesOfContents(a);
    assert a[i] in a;
  }

  lemma {:induction false} ListedIsFile(a: seq<Gen>, p: Path)
    requires p in FilesOf(a)
    ensures exists i :: 0 <= i < |a| && PathOf(InfoOf(a[i])) == p
  {
    FilesOfDomain(a);
    var g :| g in a && PathOf(InfoOf(g)) == p;
    var i :| 0 <= i < |a| && a[i] == g;
    assert PathOf(InfoOf(a[i])) == p;
  }

  // And conversely: an index and a disk that agree stand for such a list.
  lemma {:induction false} AgreementIsEnough(index: seq<Info>, files: map<Path, Bytes>)
    requires Agrees(index, files) && Ascending(index)
    requires forall i :: 0 <= i < |index| ==> PathOf(index[i]) in files
    ensures var a := GensOf(index, files);
            Sorted(a) && Infos(a) == index && files - {Log} == FilesOf(a)
  {
    var a := GensOf(index, files);
    assert Infos(a) == index;
    forall p | p in files && p != Log
      ensures p in FilesOf(a) && FilesOf(a)[p] == files[p]
    {
      FileIsListed(a, index, files, p);
    }
    forall p | p in FilesOf(a)
      ensures p in files && p != Log
    {
      ListedIsFile(a, p);
    }
  }

  // A numbered archive path by path: base.1 up to base.n, each in the form its number
  // asks for, and nothing else.
  lemma {:induction false} NumberedPaths(a: seq<Gen>, zipAfter: Option<nat>, files: map<Path, Bytes>)
    requires files - {Log} == FilesOf(a)
    requires forall i :: 0 <= i < |a| ==> a[i].suffix == i + 1 && a[i].compressed == Zips(zipAfter, i + 1)
    ensures forall k, gz :: Archived(k, gz) in files <==> 1 <= k <= |a| && gz == Zips(zipAfter, k)
    ensures forall i :: 0 <= i < |a| ==> files[Archived(i + 1, Zips(zipAfter, i + 1))] == a[i].data
  {
    assert Sorted(a);
    hide Sorted, FilesOf, Zips;
    IndexAndDiskAgree(a, Infos(a), files);
    NumberedIndex(Infos(a), zipAfter, files);
    forall i | 0 <= i < |a|
      ensures files[Archived(i + 1, Zips(zipAfter, i + 1))] == a[i].data
    {
      assert PathOf(Infos(a)[i]) == Archived(i + 1, Zips(zipAfter, i + 1));
    }
  }

  lemma {:induction false} NumberedIndex(index: seq<Info>, zipAfter: Option<nat>, files: map<Path, Bytes>)
    requires Agrees(index, files)
    requires forall i :: 0 <= i < |index| ==> index[i] == Info(i + 1, Zips(zipAfter, i + 1))
    ensures forall k, gz :: Archived(k, gz) in files <==> 1 <= k <= |index| && gz == Zips(zipAfter, k)
  {
    hide Zips;
    forall k, gz
      ensures Info(k, gz) in index <==> 1 <= k <= |index| && gz == Zips(zipAfter, k)
    {
      if 1 <= k <= |index| {
        assert index[k - 1] == Info(k, Zips(zipAfter, k));
      }
    }
  }

  // compress_exclude leaves the first numbers plain.
  predicate Zips(exclude: Option<nat>, k: int) {
    exclude.Some? && k > exclude.value
  }

  class Disk {
    var files: map<Path, Bytes>
    var fd: Handle

    constructor (files: map<Path, Bytes>)
      ensures this.files == files && fd == Closed
    {
      this.files := files;
      this.fd := Closed;
    }

    method Rename(from: Path, to: Path)
      requires from in files && from != to
      modifies this
      ensures files == (old(files) - {from})[to := old(files)[from]]
      ensures fd == if old(fd) == At(from) then At(to) else if old(fd) == At(to) then Orphan else old(fd)
    {
      files := (files - {from})[to := files[from]];
      if fd == At(from) {
        fd := At(to);
      } else if fd == At(to) {
        fd := Orphan;
      }
    }

    method Remove(p: Path)
      requires p in files
      modifies this
      ensures files == old(files) - {p}
      ensures fd == if old(fd) == At(p) then Orphan else old(fd)
    {
      files := files - {p};
      if fd == At(p) {
        fd := Orphan;
      }
    }

    // compress: write the .gz file, then remove the plain one.
    method Compress(suffix: int)
      requires Archived(suffix, false) in files
      modifies this
      ensures var plain, gz := Archived(suffix, false), Archived(suffix, true);
              files == (old(files) - {plain})[gz := old(files)[plain]]
      ensures fd == if old(fd) == At(Archived(suffix, false)) then Orphan else old(fd)
    {
      var from := Archived(suffix, false);
      files := files[Archived(suffix, true) := files[from]];
      Remove(from);
    }

    // open_file: append mode, created when missing.
    method OpenLog()
      modifies this
      ensures fd == At(Log)
      ensures files == if Log in old(files) then old(files) else old(files)[Log := []]
    {
      if Log !in files {
        files := files[Log := []];
      }
      fd := At(Log);
    }

    // One write(2) when `room` more bytes fit before the next error: some prefix of the
    // bytes is appended, or the call fails (-1). A write that fits makes progress.
    method Write(rest: Bytes, room: nat) returns (r: int)
      requires fd.At? && fd.path in files
      modifies this`files
      ensures rest != [] && room == 0 ==> r == -1 && files == old(files)
      ensures rest == [] || room > 0 ==> 0 <= r <= |rest| && r <= room && (rest != [] ==> 0 < r)
      ensures r >= 0 ==> files == old(files)[fd.path := old(files)[fd.path] + rest[..r]]
    {
      if rest != [] && room == 0 {
        r := -1;
      } else {
        r :| 0 <= r <= |rest| && r <= room && (rest != [] ==> 0 < r);
        files := files[fd.path := files[fd.path] + rest[..r]];
      }
    }
  }
}
