/** Scanning an artifact tree for regular files, and finding a file by its path. */
module ArtifactScan {
  import opened Wrappers
  import opened TreeDigest

  /** The node at a relative path, following directories only. */
  function NodeAt(directory: Node, path: string): Option<Node>
    requires directory.Directory?
    decreases |path|
  {
    var segment := FirstSegment(path);
    var rest := path[|segment|..];
    if segment !in directory.entries then None
    else if rest == "" then Some(directory.entries[segment])
    else if directory.entries[segment].Directory? then NodeAt(directory.entries[segment], rest[1..])
    else None
  }

  /** A directory on the way to a path lacks the next name. */
  predicate IsMissing(directory: Node, path: string)
    requires directory.Directory?
    ensures IsMissing(directory, path) ==> NodeAt(directory, path).None?
    decreases |path|
  {
    var segment := FirstSegment(path);
    var rest := path[|segment|..];
    || segment !in directory.entries
    || (rest != "" && directory.entries[segment].Directory? && IsMissing(directory.entries[segment], rest[1..]))
  }

  predicate RegularAt(directory: Node, path: string)
    requires directory.Directory?
  {
    NodeAt(directory, path).Some? && NodeAt(directory, path).value.File?
  }

  /** The regular files a scan collects, leaving out excluded paths and what lies below them. */
  ghost function FilesIn(directory: Node, names: seq<string>, base: string, excluded: set<string>): set<string>
    requires directory.Directory? && forall n | n in names :: n in directory.entries
    decreases directory, |names|
  {
    if names == [] then {}
    else
      FilesOf(directory.entries[names[0]], base + names[0], excluded)
      + FilesIn(directory, names[1..], base, excluded)
  }

  ghost function FilesOf(node: Node, path: string, excluded: set<string>): set<string>
    decreases node
  {
    if path in excluded then {}
    else match node
      case File(_, _) => {path}
      case Directory(_, entries) => FilesIn(node, Listing(entries), path + "/", excluded)
      case _ => {}
  }

  /** Nothing below is unsafe to attest, entry limits aside. */
  ghost predicate CleanIn(safe: string -> bool, directory: Node, names: seq<string>, base: string,
                          excluded: set<string>, depth: nat)
    requires directory.Directory? && forall n | n in names :: n in directory.entries
    decreases directory, |names|
  {
    && depth <= MAX_DEPTH
    && (names != [] ==>
          && CleanNode(safe, directory.entries[names[0]], base + names[0], excluded, depth)
          && CleanIn(safe, directory, names[1..], base, excluded, depth))
  }

  ghost predicate CleanNode(safe: string -> bool, node: Node, path: string, excluded: set<string>, depth: nat)
    decreases node
  {
    && safe(path)
    && (path !in excluded ==>
          && !node.Special? && !node.Symlink?
          && (node.Directory? ==> CleanIn(safe, node, Listing(node.entries), path + "/", excluded, depth + 1)))
  }

  /** Entries that a scan visits below the named children. */
  ghost function VisitsIn(directory: Node, names: seq<string>, base: string, excluded: set<string>): nat
    requires directory.Directory? && forall n | n in names :: n in directory.entries
    decreases directory, |names|
  {
    if names == [] then 0
    else
      VisitsOf(directory.entries[names[0]], base + names[0], excluded)
      + VisitsIn(directory, names[1..], base, excluded)
  }

  ghost function VisitsOf(node: Node, path: string, excluded: set<string>): nat
    decreases node
  {
    if path !in excluded && node.Directory? then Visits(node, path + "/", excluded) else 0
  }

  ghost function Visits(directory: Node, base: string, excluded: set<string>): nat
    requires directory.Directory?
    decreases directory, |directory.entries| + 1
  {
    ListingLength(directory.entries);
    |directory.entries| + VisitsIn(directory, Listing(directory.entries), base, excluded)
  }

  lemma ListingLength(entries: map<string, Node>)
    ensures |Listing(entries)| == |entries|
  {
    var names := Listing(entries);
    ListingIsDistinct(names, entries);
    DistinctCount(names);
    assert (set n | n in names) == entries.Keys;
  }

  lemma {:induction false} DistinctCount(names: seq<string>)
    requires Distinct(names)
    ensures |set n | n in names| == |names|
  {
    if names != [] {
      var init, last := names[..|names| - 1], names[|names| - 1];
      DistinctCount(init);
      assert names == init + [last];
      assert last !in init;
      assert (set n | n in names) == (set n | n in init) + {last};
    }
  }

  /** A tree that a complete scan accepts. */
  ghost predicate Attestable(safe: string -> bool, root: Node, excluded: set<string>)
    requires root.Directory?
  {
    CleanIn(safe, root, Listing(root.entries), "", excluded, 0) && Visits(root, "", excluded) <= MAX_ENTRIES
  }

  ghost function Artifacts(root: Node, excluded: set<string>): set<string>
    requires root.Directory?
  {
    FilesIn(root, Listing(root.entries), "", excluded)
  }

  class ArtifactTreeScan {
    const safe: string -> bool
    const excluded: set<string>
    var files: set<string>
    var unsafe: seq<string>
    var visitedEntries: nat
    var stopped: bool

    ghost predicate Valid()
      reads this
    {
      (stopped ==> unsafe != []) && (unsafe == [] ==> visitedEntries <= MAX_ENTRIES)
    }

    constructor (safe: string -> bool, excluded: set<string>)
      ensures Valid() && files == {} && unsafe == [] && visitedEntries == 0 && !stopped
      ensures this.safe == safe && this.excluded == excluded
    {
      this.safe, this.excluded := safe, excluded;
      files, unsafe, visitedEntries, stopped := {}, [], 0, false;
    }

    /** Collect the files of a directory; something unsafe is noted exactly when there is something. */
    method Visit(directory: Node, base: string, depth: nat)
      requires Valid() && directory.Directory?
      modifies this
      decreases directory, 1
      ensures Valid() && old(unsafe) <= unsafe
      ensures old(unsafe) == [] ==> (unsafe == [] <==>
        CleanIn(safe, directory, Listing(directory.entries), base, excluded, depth)
        && old(visitedEntries) + Visits(directory, base, excluded) <= MAX_ENTRIES)
      ensures old(stopped) ==> unchanged(this)
      ensures var path := if base == "" then "." else base[..|base| - 1];
        !old(stopped) && depth > MAX_DEPTH ==>
          stopped && files == old(files) && unsafe == old(unsafe) + [path]
      ensures !old(stopped) && depth <= MAX_DEPTH && old(visitedEntries) + |directory.entries| > MAX_ENTRIES ==>
        stopped && files == old(files) && unsafe == old(unsafe) + ["."]
      ensures unsafe == [] ==>
        && files == old(files) + FilesIn(directory, Listing(directory.entries), base, excluded)
        && visitedEntries == old(visitedEntries) + Visits(directory, base, excluded)
    {
      if stopped {
        return;
      }
      if depth > MAX_DEPTH {
        unsafe := unsafe + [if base == "" then "." else base[..|base| - 1]];
        stopped := true;
        return;
      }
      visitedEntries := visitedEntries + |directory.entries|;
      if visitedEntries > MAX_ENTRIES {
        unsafe := unsafe + ["."];
        stopped := true;
        return;
      }
      var names := SortNames(directory.entries);
      VisitNames(directory, names, base, depth);
    }

    method VisitNames(directory: Node, names: seq<string>, base: string, depth: nat)
      requires Valid() && directory.Directory? && forall n | n in names :: n in directory.entries
      requires depth <= MAX_DEPTH
      modifies this
      decreases directory, 0
      ensures Valid() && old(unsafe) <= unsafe
      ensures old(unsafe) == [] ==> (unsafe == [] <==>
        CleanIn(safe, directory, names, base, excluded, depth)
        && old(visitedEntries) + VisitsIn(directory, names, base, excluded) <= MAX_ENTRIES)
      ensures unsafe == [] ==>
        && files == old(files) + FilesIn(directory, names, base, excluded)
        && visitedEntries == old(visitedEntries) + VisitsIn(directory, names, base, excluded)
    {
      hide Listing, Visits, VisitsOf, CleanNode, FilesOf;
      for i := 0 to |names|
        invariant Valid() && old(unsafe) <= unsafe
        invariant unsafe == [] ==>
          && visitedEntries + VisitsIn(directory, names[i..], base, excluded)
            == old(visitedEntries) + VisitsIn(directory, names, base, excluded)
          && files + FilesIn(directory, names[i..], base, excluded)
               == old(files) + FilesIn(directory, names, base, excluded)
          && (CleanIn(safe, directory, names, base, excluded, depth) <==>
               CleanIn(safe, directory, names[i..], base, excluded, depth))
        invariant unsafe != [] && old(unsafe) == [] ==>
          !(CleanIn(safe, directory, names, base, excluded, depth)
            && old(visitedEntries) + VisitsIn(directory, names, base, excluded) <= MAX_ENTRIES)
      {
        assert names[i] in names && names[i..][0] == names[i] && names[i..][1..] == names[i + 1..];
        VisitChild(directory.entries[names[i]], base + names[i], depth);
      }
      assert names[|names|..] == [];
    }

    method VisitChild(node: Node, path: string, depth: nat)
      requires Valid() && depth <= MAX_DEPTH
      modifies this
      decreases node, 2
      ensures Valid() && old(unsafe) <= unsafe
      ensures old(unsafe) == [] ==> (unsafe == [] <==>
        CleanNode(safe, node, path, excluded, depth)
          && old(visitedEntries) + VisitsOf(node, path, excluded) <= MAX_ENTRIES)
      ensures unsafe == [] ==>
        && files == old(files) + FilesOf(node, path, excluded)
        && visitedEntries == old(visitedEntries) + VisitsOf(node, path, excluded)
      ensures !safe(path) || (path !in excluded && !node.Directory? && !node.File?) ==>
        unsafe == old(unsafe) + [path] && files == old(files)
    {
      hide Listing, Visits, CleanIn, FilesIn;
      if !safe(path) {
        unsafe := unsafe + [path];
        return;
      }
      if path in excluded {
        return;
      }
      match node {
        case Directory(_, _) => Visit(node, path + "/", depth + 1);
        case File(_, _) => files := files + {path};
        case _ => unsafe := unsafe + [path];
      }
    }
  }
}
