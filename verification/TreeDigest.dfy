/** Flattening a directory tree into records whose digest determines the tree. */
module TreeDigest {
  import opened Wrappers
  import opened Ordering

  const MAX_DEPTH: nat := 100
  const MAX_ENTRIES: nat := 50_000

  /** A directory is a map from names to nodes; scanning lists it in any order and the code sorts the names. */
  datatype Node =
    | File(mode: nat, content: string)
    | Symlink(mode: nat, target: string)
    | Directory(mode: nat, entries: map<string, Node>)
    | Special

  datatype Record =
    | SymlinkRecord(mode: nat, path: string, target: string)
    | DirectoryRecord(mode: nat, path: string)
    | FileRecord(digest: Digest, mode: nat, path: string, size: nat)

  /** The names of a directory in sorted order. */
  ghost predicate IsListing(names: seq<string>, entries: map<string, Node>) {
    Sorted(NameKeys(names)) && forall n :: n in names <==> n in entries
  }

  lemma ListingIsUnique(a: seq<string>, b: seq<string>, entries: map<string, Node>)
    requires IsListing(a, entries) && IsListing(b, entries)
    ensures a == b
  {
    forall k ensures k in NameKeys(a) <==> k in NameKeys(b) {
      if k in NameKeys(a) {
        var i :| 0 <= i < |a| && NameKeys(a)[i] == k;
        assert a[i] in b;
        var j :| 0 <= j < |b| && b[j] == a[i];
        assert NameKeys(b)[j] == k;
      }
      if k in NameKeys(b) {
        var i :| 0 <= i < |b| && NameKeys(b)[i] == k;
        assert b[i] in a;
        var j :| 0 <= j < |a| && a[j] == b[i];
        assert NameKeys(a)[j] == k;
      }
    }
    SortedIsUnique(NameKeys(a), NameKeys(b));
    forall i | 0 <= i < |a| ensures |a| == |b| && a[i] == b[i] {
      assert |NameKeys(a)| == |a| && |NameKeys(b)| == |b|;
      assert NameKeys(a)[i] == NameKeys(b)[i];
    }
  }

  /** The sorted names of a set, as keys. */
  ghost function SortedNameKeys(names: set<string>): (keys: seq<Key>)
    ensures Sorted(keys) && AllNameKeys(keys) && forall n :: [Text(n)] in keys <==> n in names
    decreases |names|
  {
    if names == {} then []
    else
      var name :| name in names;
      var keys := SortedNameKeys(names - {name});
      var more := InsertKey(keys, [Text(name)]);
      NameKeysGrow(keys, name, more);
      more
  }

  ghost function Listing(entries: map<string, Node>): (names: seq<string>)
    ensures IsListing(names, entries)
  {
    KeysAreListing(SortedNameKeys(entries.Keys), entries.Keys);
    NamesOf(SortedNameKeys(entries.Keys))
  }

  method SortNames(entries: map<string, Node>) returns (names: seq<string>)
    ensures names == Listing(entries)
  {
    names := SortSet(entries.Keys);
    ListingIsUnique(names, Listing(entries), entries);
  }

  // ----- Records -----

  /** The records of one node at `path`. */
  ghost function Block(digest: string -> Digest, node: Node, path: string): seq<Record>
    decreases node
  {
    match node
    case File(mode, content) => [FileRecord(digest(content), mode, path, |content|)]
    case Symlink(mode, target) => [SymlinkRecord(mode, path, target)]
    case Directory(mode, entries) => [DirectoryRecord(mode, path)] + Flatten(digest, node, Listing(entries), path + "/")
    case Special => []
  }

  /** The records of the entries `names` of a directory whose paths start with `base`. */
  ghost function Flatten(digest: string -> Digest, directory: Node, names: seq<string>, base: string): seq<Record>
    requires directory.Directory? && forall n | n in names :: n in directory.entries
    decreases directory, |names|
  {
    if names == [] then []
    else
      Block(digest, directory.entries[names[0]], base + names[0]) + Flatten(digest, directory, names[1..], base)
  }

  /** All the records of a tree; the mode of the root itself is not recorded. */
  ghost function TreeRecords(digest: string -> Digest, entries: map<string, Node>): seq<Record> {
    Flatten(digest, Directory(0, entries), Listing(entries), "")
  }

  // ----- The records determine the tree -----

  /** Names as a file system has them: not empty, no separator. Nothing special anywhere below. */
  ghost predicate WellNamed(node: Node)
    decreases node
  {
    match node
    case Directory(_, entries) => forall n | n in entries :: GoodName(n) && WellNamed(entries[n])
    case Special => false
    case _ => true
  }

  predicate GoodName(n: string) {
    n != "" && forall i | 0 <= i < |n| :: n[i] != '/'
  }

  /** A path is the node's own path or lies below it. */
  predicate Within(path: string, r: Record) {
    r.path == path || path + "/" <= r.path
  }

  ghost predicate AllWithin(path: string, records: seq<Record>) {
    forall i | 0 <= i < |records| :: Within(path, records[i])
  }

  ghost predicate NoneWithin(path: string, records: seq<Record>) {
    forall i | 0 <= i < |records| :: !Within(path, records[i])
  }

  /** Every record belongs to one of the named entries. */
  ghost predicate AllBelong(base: string, names: seq<string>, records: seq<Record>) {
    forall i | 0 <= i < |records| :: exists k :: 0 <= k < |names| && Within(base + names[k], records[i])
  }

  lemma {:induction false} BlockPaths(digest: string -> Digest, node: Node, path: string)
    requires WellNamed(node)
    ensures AllWithin(path, Block(digest, node, path))
    ensures Block(digest, node, path) != [] && Block(digest, node, path)[0].path == path
    decreases node
  {
    if node.Directory? {
      FlattenPaths(digest, node, Listing(node.entries), path + "/");
      BelongIsWithin(path, Listing(node.entries), Flatten(digest, node, Listing(node.entries), path + "/"));
    }
  }

  lemma BelongIsWithin(path: string, names: seq<string>, records: seq<Record>)
    requires AllBelong(path + "/", names, records)
    ensures AllWithin(path, records)
  {
    forall i | 0 <= i < |records| ensures Within(path, records[i]) {
      var k :| 0 <= k < |names| && Within(path + "/" + names[k], records[i]);
      assert path + "/" <= path + "/" + names[k] <= records[i].path;
    }
  }

  lemma {:induction false} FlattenPaths(digest: string -> Digest, directory: Node, names: seq<string>, base: string)
    requires directory.Directory? && WellNamed(directory) && forall n | n in names :: n in directory.entries
    ensures AllBelong(base, names, Flatten(digest, directory, names, base))
    decreases directory, |names|
  {
    hide Block, Within;
    if names != [] {
      var block := Block(digest, directory.entries[names[0]], base + names[0]);
      var rest := Flatten(digest, directory, names[1..], base);
      assert names[0] in names;
      BlockPaths(digest, directory.entries[names[0]], base + names[0]);
      FlattenPaths(digest, directory, names[1..], base);
      var all := block + rest;
      forall i | 0 <= i < |all| ensures exists k :: 0 <= k < |names| && Within(base + names[k], all[i]) {
        if i < |block| {
          assert Within(base + names[0], all[i]);
        } else {
          var k :| 0 <= k < |names[1..]| && Within(base + names[1..][k], rest[i - |block|]);
          assert Within(base + names[k + 1], all[i]);
        }
      }
    }
  }

  function FirstSegment(s: string): (r: string)
    ensures r <= s && (|r| < |s| ==> s[|r|] == '/') && forall i | 0 <= i < |r| :: r[i] != '/'
  {
    if s == "" || s[0] == '/' then "" else [s[0]] + FirstSegment(s[1..])
  }

  lemma {:induction false} FirstSegmentIs(name: string, rest: string)
    requires forall i | 0 <= i < |name| :: name[i] != '/'
    requires rest == "" || rest[0] == '/'
    ensures FirstSegment(name + rest) == name
  {
    if name == "" {
      assert name + rest == rest;
    } else {
      assert (name + rest)[1..] == name[1..] + rest;
      FirstSegmentIs(name[1..], rest);
    }
  }

  lemma SegmentOf(base: string, name: string, r: Record)
    requires GoodName(name) && Within(base + name, r)
    ensures |base| <= |r.path| && FirstSegment(r.path[|base|..]) == name
  {
    var s := r.path[|base|..];
    var rest := r.path[|base| + |name|..];
    assert s == name + rest by {
      assert s[..|name|] == (base + name)[|base|..] == name;
    }
    if r.path != base + name {
      assert rest[0] == (base + name + "/")[|base| + |name|];
    }
    FirstSegmentIs(name, rest);
  }

  /** Different names have disjoint subtrees. */
  lemma SiblingsAreApart(base: string, a: string, b: string, r: Record)
    requires GoodName(a) && GoodName(b) && a != b && Within(base + a, r)
    ensures !Within(base + b, r)
  {
    SegmentOf(base, a, r);
    if Within(base + b, r) {
      SegmentOf(base, b, r);
    }
  }

  lemma RestIsApart(digest: string -> Digest, directory: Node, names: seq<string>, base: string)
    requires directory.Directory? && WellNamed(directory) && forall n | n in names :: n in directory.entries
    requires names != [] && Distinct(names)
    ensures NoneWithin(base + names[0], Flatten(digest, directory, names[1..], base))
  {
    var rest := Flatten(digest, directory, names[1..], base);
    FlattenPaths(digest, directory, names[1..], base);
    forall i | 0 <= i < |rest| ensures !Within(base + names[0], rest[i]) {
      var k :| 0 <= k < |names[1..]| && Within(base + names[1..][k], rest[i]);
      assert names[0] in names && names[k + 1] in names;
      SiblingsAreApart(base, names[k + 1], names[0], rest[i]);
    }
  }

  lemma SplitIsUnique(path: string, a: seq<Record>, restA: seq<Record>, b: seq<Record>, restB: seq<Record>)
    requires AllWithin(path, a) && AllWithin(path, b) && NoneWithin(path, restA) && NoneWithin(path, restB)
    requires a + restA == b + restB
    ensures a == b && restA == restB
  {
    var all := a + restA;
    assert forall i | 0 <= i < |all| :: Within(path, all[i]) <==> i < |a|;
    assert forall i | 0 <= i < |all| :: all[i] == (b + restB)[i];
    assert forall i | 0 <= i < |all| :: Within(path, all[i]) <==> i < |b|;
    var shorter := if |a| <= |b| then |a| else |b|;
    var inside := shorter < |all| && Within(path, all[shorter]);
    assert |a| == |b|;
    assert a == all[..|a|] && b == all[..|b|];
    assert restA == all[|a|..] && restB == all[|b|..];
  }

  lemma {:induction false} BlockDetermines(digest: string -> Digest, a: Node, b: Node, path: string)
    requires Injective(digest) && WellNamed(a) && WellNamed(b)
    requires Block(digest, a, path) == Block(digest, b, path)
    ensures a == b
    decreases a
  {
    assert Block(digest, a, path)[0] == Block(digest, b, path)[0];
    if a.Directory? {
      hide Flatten, Listing, WellNamed;
      SameInnerRecords(digest, a, b, path);
      FlattenDetermines(digest, a, Listing(a.entries), b, Listing(b.entries), path + "/");
      SameListingSameEntries(a.entries, b.entries);
    }
  }

  lemma SameInnerRecords(digest: string -> Digest, a: Node, b: Node, path: string)
    requires a.Directory? && b.Directory? && Block(digest, a, path) == Block(digest, b, path)
    ensures Flatten(digest, a, Listing(a.entries), path + "/") == Flatten(digest, b, Listing(b.entries), path + "/")
    ensures Distinct(Listing(a.entries)) && Distinct(Listing(b.entries)) && a.mode == b.mode
  {
    hide Flatten;
    var records := Block(digest, a, path);
    assert records[0] == Block(digest, b, path)[0];
    assert records[1..] == Flatten(digest, a, Listing(a.entries), path + "/");
    assert Block(digest, b, path)[1..] == Flatten(digest, b, Listing(b.entries), path + "/");
    ListingIsDistinct(Listing(a.entries), a.entries);
    ListingIsDistinct(Listing(b.entries), b.entries);
  }

  lemma SameListingSameEntries(a: map<string, Node>, b: map<string, Node>)
    requires Listing(a) == Listing(b) && forall n | n in Listing(a) :: n in a && n in b && a[n] == b[n]
    ensures a == b
  {
    assert IsListing(Listing(a), a) && IsListing(Listing(b), b);
    assert a.Keys == b.Keys;
  }

  lemma ListingIsDistinct(names: seq<string>, entries: map<string, Node>)
    requires IsListing(names, entries)
    ensures Distinct(names)
  {
    SortedNamesDistinct(names);
  }

  lemma {:induction false} FlattenDetermines(digest: string -> Digest, a: Node, namesA: seq<string>,
                                             b: Node, namesB: seq<string>, base: string)
    requires Injective(digest) && a.Directory? && b.Directory? && WellNamed(a) && WellNamed(b)
    requires forall n | n in namesA :: n in a.entries
    requires forall n | n in namesB :: n in b.entries
    requires Distinct(namesA) && Distinct(namesB)
    requires Flatten(digest, a, namesA, base) == Flatten(digest, b, namesB, base)
    ensures namesA == namesB && forall n | n in namesA :: a.entries[n] == b.entries[n]
    decreases a, |namesA|
  {
    if namesA != [] {
      assert namesA[0] in namesA;
      BlockPaths(digest, a.entries[namesA[0]], base + namesA[0]);
    }
    if namesB != [] {
      assert namesB[0] in namesB;
      BlockPaths(digest, b.entries[namesB[0]], base + namesB[0]);
    }
    if namesA != [] && namesB != [] {
      var name := namesA[0];
      SameFirstName(digest, a, namesA, b, namesB, base);
      RestIsApart(digest, a, namesA, base);
      RestIsApart(digest, b, namesB, base);
      SplitIsUnique(base + name, Block(digest, a.entries[name], base + name), Flatten(digest, a, namesA[1..], base),
                    Block(digest, b.entries[name], base + name), Flatten(digest, b, namesB[1..], base));
      BlockDetermines(digest, a.entries[name], b.entries[name], base + name);
      FlattenDetermines(digest, a, namesA[1..], b, namesB[1..], base);
      assert namesA == [name] + namesA[1..] && namesB == [name] + namesB[1..];
    }
  }

  lemma SameFirstName(digest: string -> Digest, a: Node, namesA: seq<string>, b: Node, namesB: seq<string>,
                      base: string)
    requires a.Directory? && b.Directory? && WellNamed(a) && WellNamed(b)
    requires namesA != [] && namesB != []
    requires forall n | n in namesA :: n in a.entries
    requires forall n | n in namesB :: n in b.entries
    requires Flatten(digest, a, namesA, base) == Flatten(digest, b, namesB, base)
    ensures namesA[0] == namesB[0]
  {
    assert namesA[0] in namesA && namesB[0] in namesB;
    BlockPaths(digest, a.entries[namesA[0]], base + namesA[0]);
    BlockPaths(digest, b.entries[namesB[0]], base + namesB[0]);
    var blockA := Block(digest, a.entries[namesA[0]], base + namesA[0]);
    var blockB := Block(digest, b.entries[namesB[0]], base + namesB[0]);
    hide Block, WellNamed;
    assert blockA[0] == Flatten(digest, a, namesA, base)[0];
    assert blockB[0] == Flatten(digest, b, namesB, base)[0];
    assert base + namesA[0] == base + namesB[0];
    assert namesA[0] == (base + namesA[0])[|base|..] && namesB[0] == (base + namesB[0])[|base|..];
  }

  /** Main result: two trees with equal records are equal in names, nesting, types, modes, targets and contents. */
  lemma RecordsDetermineTree(digest: string -> Digest, a: map<string, Node>, b: map<string, Node>)
    requires Injective(digest) && WellNamed(Directory(0, a)) && WellNamed(Directory(0, b))
    requires TreeRecords(digest, a) == TreeRecords(digest, b)
    ensures a == b
  {
    ListingIsDistinct(Listing(a), a);
    ListingIsDistinct(Listing(b), b);
    hide Flatten, WellNamed, Listing;
    FlattenDetermines(digest, Directory(0, a), Listing(a), Directory(0, b), Listing(b), "");
    SameListingSameEntries(a, b);
  }
}
