/** A tree that is attested, although its bundle cannot verify: the bundle itself is one entry too many. */
module BundleLimits {
  import opened TreeDigest
  import opened ArtifactScan
  import opened ArtifactBundle
  import DiffText

  /** Directories are named by their numbers. */
  function DirectoryName(i: nat): (name: string)
    ensures GoodName(name)
  {
    assert forall c | DiffText.IsDigit(c) :: c != '/';
    DiffText.Decimal(i)
  }

  function EmptyDirectory(): Node {
    Directory(0x1C0, map[])
  }

  /** A tree of `n` empty directories. */
  function EmptyDirectories(n: nat): map<string, Node> {
    if n == 0 then map[] else EmptyDirectories(n - 1)[DirectoryName(n - 1) := EmptyDirectory()]
  }

  lemma {:induction false} EmptyDirectoriesAt(n: nat, name: string)
    ensures name in EmptyDirectories(n) <==> exists i: nat | i < n :: name == DirectoryName(i)
    ensures name in EmptyDirectories(n) ==> EmptyDirectories(n)[name] == EmptyDirectory() && GoodName(name)
  {
    if n > 0 {
      EmptyDirectoriesAt(n - 1, name);
      assert name in EmptyDirectories(n) <==> name in EmptyDirectories(n - 1) || name == DirectoryName(n - 1);
    }
  }

  lemma {:induction false} EmptyDirectoriesCount(n: nat)
    ensures |EmptyDirectories(n)| == n
  {
    if n > 0 {
      EmptyDirectoriesCount(n - 1);
      var before, last := EmptyDirectories(n - 1), DirectoryName(n - 1);
      EmptyDirectoriesAt(n - 1, last);
      forall i: nat | i < n - 1 ensures DirectoryName(i) != last {
        DiffText.ValueOfDecimal(i);
        DiffText.ValueOfDecimal(n - 1);
      }
      assert EmptyDirectories(n).Keys == before.Keys + {last};
      assert |EmptyDirectories(n).Keys| == |before.Keys| + 1;
      assert |before.Keys| == |before|;
    }
  }

  lemma NothingInEmptyDirectory(safe: string -> bool, path: string, excluded: set<string>)
    requires safe(path) && path !in excluded
    ensures FilesOf(EmptyDirectory(), path, excluded) == {} && VisitsOf(EmptyDirectory(), path, excluded) == 0
    ensures CleanNode(safe, EmptyDirectory(), path, excluded, 0)
  {
    ListingLength(map[]);
  }

  lemma {:induction false} OverEmptyDirectories(safe: string -> bool, directory: Node, names: seq<string>,
                                                excluded: set<string>)
    requires directory.Directory? && forall n | n in names ::
      n in directory.entries && directory.entries[n] == EmptyDirectory() && safe(n) && n !in excluded
    ensures FilesIn(directory, names, "", excluded) == {} && VisitsIn(directory, names, "", excluded) == 0
    ensures CleanIn(safe, directory, names, "", excluded, 0)
    decreases |names|
  {
    hide FilesOf, VisitsOf, CleanNode;
    if names != [] {
      assert "" + names[0] == names[0] && names[0] in names;
      NothingInEmptyDirectory(safe, names[0], excluded);
      OverEmptyDirectories(safe, directory, names[1..], excluded);
    }
  }

  lemma FullTreeIsScanned(t: Tools, root: Node, own: set<string>)
    requires root == Directory(0x1C0, EmptyDirectories(MAX_ENTRIES))
    requires forall i: nat :: t.safe(DirectoryName(i)) && DirectoryName(i) !in own
    ensures WellNamed(root) && Attestable(t.safe, root, own)
    ensures Artifacts(root, own) == {} && Visits(root, "", own) == MAX_ENTRIES
    ensures forall n | n in own :: n !in root.entries
  {
    hide FilesIn, VisitsIn, CleanIn, EmptyDirectories, DirectoryName;
    EmptyDirectoriesCount(MAX_ENTRIES);
    forall n
      ensures n in root.entries ==> root.entries[n] == EmptyDirectory() && GoodName(n) && t.safe(n) && n !in own
    {
      EmptyDirectoriesAt(MAX_ENTRIES, n);
    }
    OverEmptyDirectories(t.safe, root, Listing(root.entries), own);
  }

  /** 50,000 empty directories are scanned and attested without a subject, and then the bundle itself is too much. */
  lemma FullTreeDoesNotVerify(t: Tools, statementName: string, sidecarName: string, s: Statement)
    requires GoodTools(t) && GoodName(statementName) && GoodName(sidecarName) && statementName != sidecarName
    requires forall i: nat ::
      t.safe(DirectoryName(i)) && DirectoryName(i) != statementName && DirectoryName(i) != sidecarName
    requires s.kind == STATEMENT_TYPE && s.subjects == []
    ensures var root := Directory(0x1C0, EmptyDirectories(MAX_ENTRIES));
      && Creatable(t, root, statementName, sidecarName) && Describes(t, root, {statementName, sidecarName}, s)
      && !Verified(t, WithBundle(t, root, statementName, sidecarName, s), statementName, sidecarName, s)
  {
    hide WellNamed, Attestable, Artifacts, Visits, EmptyDirectories, DirectoryName, WithBundle, Verified, GoodName;
    hide GoodTools;
    var root := Directory(0x1C0, EmptyDirectories(MAX_ENTRIES));
    var own := {statementName, sidecarName};
    FullTreeIsScanned(t, root, own);
    assert statementName in own && sidecarName in own;
    assert own - root.entries.Keys == own && |own| == 2;
    CreatedBundleVerifies(t, root, statementName, sidecarName, s);
  }
}
