/** The list of live versions: reference counts of versions and of the table files they list. */
module VersionLists {
  import Machine

  class FileMetaData {
    const number: nat
    var refs: nat

    constructor (number: nat)
      ensures this.number == number && refs == 0
    {
      this.number, refs := number, 0;
    }
  }

  class Version {
    const files: seq<FileMetaData>    // all levels
    var refs: nat

    constructor (files: seq<FileMetaData>)
      ensures this.files == files && refs == 0
    {
      this.files, refs := files, 0;
    }
  }

  /** How many of the versions list the file. */
  function Listings(versions: seq<Version>, f: FileMetaData): nat {
    if versions == [] then 0
    else Listings(versions[..|versions| - 1], f) + (if f in versions[|versions| - 1].files then 1 else 0)
  }

  lemma {:induction false} ListingsAppend(a: seq<Version>, b: seq<Version>, f: FileMetaData)
    ensures Listings(a + b, f) == Listings(a, f) + Listings(b, f)
  {
    if b == [] {
      assert a + b == a;
    } else {
      assert (a + b)[..|a| + |b| - 1] == a + b[..|b| - 1];
      ListingsAppend(a, b[..|b| - 1], f);
    }
  }

  lemma {:induction false} ListingsWithout(versions: seq<Version>, i: nat, f: FileMetaData)
    requires i < |versions|
    ensures Listings(versions, f) == Listings(versions[..i] + versions[i + 1..], f) + (if f in versions[i].files then 1 else 0)
  {
    var a, b, c := versions[..i], [versions[i]], versions[i + 1..];
    assert versions == a + b + c;
    ListingsAppend(a + b, c, f);
    ListingsAppend(a, b, f);
    ListingsAppend(a, c, f);
    assert b[..0] == [];
  }

  lemma {:induction false} ListedSomewhere(versions: seq<Version>, f: FileMetaData)
    ensures Listings(versions, f) > 0 <==> exists i :: 0 <= i < |versions| && f in versions[i].files
  {
    if versions != [] {
      var n := |versions| - 1;
      ListedSomewhere(versions[..n], f);
      if i :| 0 <= i < |versions| && f in versions[i].files {
        assert i < n ==> f in versions[..n][i].files;
      }
    }
  }

  ghost predicate Distinct<T>(s: seq<T>) {
    forall i, j | 0 <= i < j < |s| :: s[i] != s[j]
  }

  /** Every file counts the versions that list it, once each. */
  ghost predicate CountsListings(versions: seq<Version>, files: set<FileMetaData>)
    reads set f | f in files :: f`refs
  {
    forall f | f in files :: f.refs == Listings(versions, f)
  }

  function Numbers(versions: seq<Version>): set<nat> {
    set v, f | v in versions && f in v.files :: f.number
  }

  datatype FileName = LogFile(number: nat) | DescriptorFile(number: nat) | TableFile(number: nat) | TempFile(number: nat) | OtherFile

  predicate Keep(name: FileName, live: set<nat>, logNumber: nat, prevLogNumber: nat, manifestNumber: nat) {
    match name
    case LogFile(number) => number >= logNumber || number == prevLogNumber
    case DescriptorFile(number) => number >= manifestNumber
    case TableFile(number) => number in live
    case TempFile(number) => number in live
    case OtherFile => true
  }

  /** The tables on disk that must stay: those of a listed version, and those still being written. */
  ghost predicate InUse(number: nat, list: seq<Version>, pending: set<nat>) {
    number in pending || exists v, f :: v in list && f in v.files && f.number == number
  }

  ghost predicate LogsKept(names: seq<FileName>, kept: seq<FileName>, logNumber: nat, prevLogNumber: nat) {
    forall n: nat :: LogFile(n) in kept <==> LogFile(n) in names && (n >= logNumber || n == prevLogNumber)
  }

  /** Those of the logs that the directory has. */
  ghost function LogsAmong(logs: seq<Machine.LogFile>, names: seq<FileName>): seq<Machine.LogFile> {
    if logs == [] then []
    else
      var last := logs[|logs| - 1];
      LogsAmong(logs[..|logs| - 1], names) + (if LogFile(last.number) in names then [last] else [])
  }

  lemma {:induction false} LogsAmongAre(logs: seq<Machine.LogFile>, names: seq<FileName>)
    ensures forall l :: l in LogsAmong(logs, names) <==> l in logs && LogFile(l.number) in names
  {
    if logs != [] {
      LogsAmongAre(logs[..|logs| - 1], names);
      assert logs == logs[..|logs| - 1] + [logs[|logs| - 1]];
    }
  }

  /** A crash after the collection replays what a crash before it would have. */
  lemma {:induction false} CollectionKeepsReplay(logs: seq<Machine.LogFile>, names: seq<FileName>, kept: seq<FileName>, logNumber: nat, prevLogNumber: nat)
    requires LogsKept(names, kept, logNumber, prevLogNumber)
    ensures Machine.Replay(LogsAmong(logs, kept), logNumber) == Machine.Replay(LogsAmong(logs, names), logNumber)
  {
    if logs != [] {
      var last, front := logs[|logs| - 1], logs[..|logs| - 1];
      CollectionKeepsReplay(front, names, kept, logNumber, prevLogNumber);
      var a, b := LogsAmong(front, kept), LogsAmong(front, names);
      assert (a + [last])[..|a|] == a && (b + [last])[..|b|] == b;
      assert a + [] == a && b + [] == b;
    }
  }

  class VersionSet {
    var list: seq<Version>
    var current: Version?
    ghost var building: seq<Version>        // made by SaveTo, not yet on the list
    ghost var files: set<FileMetaData>      // every file ever listed
    var logNumber: nat
    var prevLogNumber: nat
    var manifestFileNumber: nat

    ghost function All(): seq<Version>
      reads this`list, this`building
    {
      list + building
    }

    ghost predicate Ok()
      reads this`list, this`current, this`building, this`files, list, building, files
    {
      && Distinct(All())
      && (forall v | v in All() :: Distinct(v.files) && (forall f | f in v.files :: f in files))
      && (forall v | v in list :: v.refs > 0) && (forall v | v in building :: v.refs == 0)
      && (current != null ==> current in list)
      && CountsListings(All(), files)
    }

    constructor ()
      ensures Ok() && list == [] && current == null && building == []
      ensures logNumber == 0 && prevLogNumber == 0 && manifestFileNumber == 0
    {
      list, current, building, files := [], null, [], {};
      logNumber, prevLogNumber, manifestFileNumber := 0, 0, 0;
    }

    /** A new version takes a reference on each of its files. */
    method Build(contents: seq<FileMetaData>) returns (v: Version)
      requires Ok() && Distinct(contents) && building == []
      requires forall f | f in contents && f !in files :: f.refs == 0
      modifies this`building, this`files, contents
      ensures Ok() && building == [v] && fresh(v) && v.files == contents
      ensures files == old(files) + set f | f in contents
    {
      hide Listings;
      v := new Version(contents);
      ghost var before := All();
      NotYetListed(before, files, contents);
      RefFiles(contents);
      building := [v];
      ghost var all := files + set f | f in contents;
      NewListing(before, v);
      files := all;
      assert All() == before + [v];
    }

    method Ref(v: Version)
      requires Ok() && v in list
      modifies v`refs
      ensures Ok() && v.refs == old(v.refs) + 1
    {
      hide CountsListings, Distinct;
      v.refs := v.refs + 1;
    }

    /** The last reference takes the version off the list; a file that no version lists any more goes with it. */
    method Unref(v: Version) returns (freed: set<FileMetaData>)
      requires Ok() && v in list && (v == current ==> v.refs > 1)
      modifies v`refs, this`list, v.files
      ensures Ok()
      ensures old(v.refs) > 1 ==> list == old(list) && v.refs == old(v.refs) - 1 && freed == {}
      ensures old(v.refs) == 1 ==>
        && v !in list && (forall i | 0 <= i < |old(list)| && old(list)[i] == v :: list == old(list)[..i] + old(list)[i + 1..])
        && forall f :: f in freed <==> f in v.files && Listings(All(), f) == 0
    {
      hide Listings;
      freed := {};
      if v.refs > 1 {
        v.refs := v.refs - 1;
      } else {
        var i :| 0 <= i < |list| && list[i] == v;
        freed := Unlist(v, i);
      }
    }

    /** Takes the version off the list and its references off its files. */
    method Unlist(v: Version, i: nat) returns (freed: set<FileMetaData>)
      requires Ok() && i < |list| && list[i] == v && v != current
      modifies v`refs, this`list, v.files
      ensures Ok() && list == old(list)[..i] + old(list)[i + 1..] && v !in list
      ensures forall j | 0 <= j < |old(list)| && old(list)[j] == v :: j == i
      ensures forall f :: f in freed <==> f in v.files && Listings(All(), f) == 0
    {
      hide Listings;
      ghost var before := All();
      assert before[..i] + before[i + 1..] == list[..i] + list[i + 1..] + building;
      assert before[i] == v;
      Unlisted(before, i);
      WithoutOne(before, i);
      v.refs := 0;
      list := list[..i] + list[i + 1..];
      assert All() == before[..i] + before[i + 1..];
      freed := UnrefFiles(v.files);
      assert forall x | x in list :: x in before[..i] + before[i + 1..];
      assert forall f | f in files :: f.refs == Listings(All(), f);
    }

    /** The version just made becomes the current one, in place of the old. */
    method AppendVersion(v: Version)
      requires Ok() && building == [v]
      modifies this`list, this`current, this`building, list, building, files
      ensures Ok() && current == v && building == [] && v.refs == 1 && list != [] && list[|list| - 1] == v
      ensures old(current) != null && old(current.refs) > 1 ==> list == old(list) + [v] && old(current).refs == old(current.refs) - 1
      ensures old(current) == null ==> list == old(list) + [v]
    {
      hide Listings, CountsListings;
      var was := current;
      current := null;
      if was != null {
        var _ := Unref(was);
      }
      assert list + [v] == All() && building[0] == v;
      current := v;
      v.refs := v.refs + 1;
      list := list + [v];
      building := [];
      assert All() == list;
    }

    /** The manifest could not be written: the version just made goes, with the files that only it lists. */
    method Discard(v: Version) returns (freed: set<FileMetaData>)
      requires Ok() && building == [v]
      modifies this`building, v.files
      ensures Ok() && building == [] && list == old(list)
      ensures forall f :: f in freed <==> f in v.files && Listings(list, f) == 0
    {
      hide Listings;
      assert building[0] == v && All() == list + [v];
      NewListing(list, v);
      assert forall i | 0 <= i < |list| :: list[i] == All()[i];
      building := [];
      freed := UnrefFiles(v.files);
      assert All() == list;
      assert forall f | f in files :: f.refs == Listings(list, f);
    }

    /** The numbers of every file of every listed version. */
    method AddLiveFiles(live: set<nat>) returns (r: set<nat>)
      ensures r == live + Numbers(list)
    {
      r := live;
      assert list[..0] == [];
      for i := 0 to |list|
        invariant r == live + Numbers(list[..i])
      {
        assert list[..i + 1] == list[..i] + [list[i]];
        var files := list[i].files;
        ghost var before := r;
        for j := 0 to |files|
          invariant r == before + set f | f in files[..j] :: f.number
        {
          assert files[..j + 1] == files[..j] + [files[j]];
          r := r + {files[j].number};
        }
        assert files[..|files|] == files;
      }
      assert list[..|list|] == list;
    }

    /** Goes through the directory. In doubt about the version list it deletes nothing. */
    method DeleteObsoleteFiles(names: seq<FileName>, pending: set<nat>, broken: bool) returns (kept: seq<FileName>)
      requires Ok()
      ensures broken ==> kept == names
      ensures forall name | name in kept :: name in names
      ensures !broken ==> LogsKept(names, kept, logNumber, prevLogNumber)
      ensures !broken ==> forall n: nat :: DescriptorFile(n) in kept <==> DescriptorFile(n) in names && n >= manifestFileNumber
      ensures !broken ==> forall n: nat :: TableFile(n) in kept <==> TableFile(n) in names && InUse(n, list, pending)
      ensures !broken ==> forall n: nat :: TempFile(n) in kept <==> TempFile(n) in names && InUse(n, list, pending)
      ensures OtherFile in names ==> OtherFile in kept
      ensures forall v, f | v in list && f in v.files && TableFile(f.number) in names :: TableFile(f.number) in kept
    {
      if broken {
        return names;
      }
      var live := AddLiveFiles(pending);
      assert forall n :: n in live <==> InUse(n, list, pending);
      kept := [];
      for i := 0 to |names|
        invariant forall name :: name in kept <==> name in names[..i] && Keep(name, live, logNumber, prevLogNumber, manifestFileNumber)
      {
        assert names[..i + 1] == names[..i] + [names[i]];
        if Keep(names[i], live, logNumber, prevLogNumber, manifestFileNumber) {
          kept := kept + [names[i]];
        }
      }
      assert names[..|names|] == names;
    }
  }

  method UnrefFiles(contents: seq<FileMetaData>) returns (freed: set<FileMetaData>)
    requires Distinct(contents) && forall f | f in contents :: f.refs > 0
    modifies contents
    ensures forall f | f in contents :: f.refs == old(f.refs) - 1
    ensures forall f :: f in freed <==> f in contents && f.refs == 0
  {
    freed := {};
    for i := 0 to |contents|
      invariant forall k | 0 <= k < |contents| :: contents[k].refs == old(contents[k].refs) - (if k < i then 1 else 0)
      invariant forall f :: f in freed <==> f in contents[..i] && f.refs == 0
    {
      assert contents[..i + 1] == contents[..i] + [contents[i]];
      contents[i].refs := contents[i].refs - 1;
      if contents[i].refs <= 0 {
        freed := freed + {contents[i]};
      }
    }
    assert contents[..|contents|] == contents;
  }

  lemma {:induction false} WithoutOne(versions: seq<Version>, i: nat)
    requires i < |versions| && Distinct(versions)
    ensures Distinct(versions[..i] + versions[i + 1..]) && versions[i] !in versions[..i] + versions[i + 1..]
    ensures forall v | v in versions[..i] + versions[i + 1..] :: v in versions
  {
  }

  lemma {:induction false} Unlisted(versions: seq<Version>, i: nat)
    requires i < |versions|
    ensures forall f ::
      Listings(versions, f) == Listings(versions[..i] + versions[i + 1..], f) + (if f in versions[i].files then 1 else 0)
  {
    forall f ensures
      Listings(versions, f) == Listings(versions[..i] + versions[i + 1..], f) + (if f in versions[i].files then 1 else 0) {
      ListingsWithout(versions, i, f);
    }
  }

  method RefFiles(contents: seq<FileMetaData>)
    requires Distinct(contents)
    modifies contents
    ensures forall f | f in contents :: f.refs == old(f.refs) + 1
  {
    for i := 0 to |contents|
      invariant forall k | 0 <= k < |contents| :: contents[k].refs == old(contents[k].refs) + (if k < i then 1 else 0)
    {
      contents[i].refs := contents[i].refs + 1;
    }
  }

  lemma {:induction false} NotYetListed(versions: seq<Version>, files: set<FileMetaData>, contents: seq<FileMetaData>)
    requires forall v | v in versions :: forall f | f in v.files :: f in files
    ensures forall f | f in contents && f !in files :: Listings(versions, f) == 0
  {
    forall f | f in contents && f !in files ensures Listings(versions, f) == 0 {
      ListedSomewhere(versions, f);
    }
  }

  lemma {:induction false} NewListing(versions: seq<Version>, v: Version)
    ensures forall f :: Listings(versions + [v], f) == Listings(versions, f) + (if f in v.files then 1 else 0)
  {
    assert (versions + [v])[..|versions|] == versions;
  }
}
