/** Scanning a tree into records, hashing the records, and framing worktree evidence. */
module TreeScan {
  import opened Wrappers
  import opened TreeDigest

  datatype ScanError = TooDeep | TooManyEntries | UnsafeName(path: string) | SpecialFile(path: string)

  /** Entries of the named children and everything below them. */
  ghost function CountBelow(directory: Node, names: seq<string>): nat
    requires directory.Directory? && forall n | n in names :: n in directory.entries
    decreases directory, |names|
  {
    if names == [] then 0
    else CountEntries(directory.entries[names[0]]) + CountBelow(directory, names[1..])
  }

  /** How many entries a scan of this node visits. */
  ghost function CountEntries(node: Node): nat
    decreases node
  {
    if node.Directory? then |node.entries| + CountBelow(node, Listing(node.entries)) else 0
  }

  ghost predicate ScannableChild(safe: string -> bool, node: Node, path: string, depth: nat)
    decreases node
  {
    && safe(path)
    && !node.Special?
    && (node.Directory? ==> Scannable(safe, node, Listing(node.entries), path + "/", depth + 1))
  }

  /** Nothing among the named entries stops a scan, entry limits aside. */
  ghost predicate Scannable(safe: string -> bool, directory: Node, names: seq<string>, base: string, depth: nat)
    requires directory.Directory? && forall n | n in names :: n in directory.entries
    decreases directory, |names|
  {
    && depth <= MAX_DEPTH
    && (names != [] ==>
          && ScannableChild(safe, directory.entries[names[0]], base + names[0], depth)
          && Scannable(safe, directory, names[1..], base, depth))
  }

  class Scan {
    const safe: string -> bool
    const digest: string -> Digest
    var records: seq<Record>
    var visitedEntries: nat

    constructor (safe: string -> bool, digest: string -> Digest)
      ensures records == [] && visitedEntries == 0 && this.safe == safe && this.digest == digest
    {
      this.safe, this.digest := safe, digest;
      records, visitedEntries := [], 0;
    }

    /** Append the records of a directory; fails exactly when an entry is unsafe or special, or a limit is passed. */
    method Visit(directory: Node, base: string, depth: nat) returns (error: Option<ScanError>)
      requires directory.Directory? && visitedEntries <= MAX_ENTRIES
      modifies this
      decreases directory, 1
      ensures error.None? <==>
        Scannable(safe, directory, Listing(directory.entries), base, depth)
        && old(visitedEntries) + CountEntries(directory) <= MAX_ENTRIES
      ensures error.None? ==> records == old(records) + Flatten(digest, directory, Listing(directory.entries), base)
      ensures error.None? ==> visitedEntries == old(visitedEntries) + CountEntries(directory)
      ensures depth > MAX_DEPTH ==> error == Some(TooDeep)
      ensures depth <= MAX_DEPTH && old(visitedEntries) + |directory.entries| > MAX_ENTRIES ==>
        error == Some(TooManyEntries)
    {
      if depth > MAX_DEPTH {
        return Some(TooDeep);
      }
      visitedEntries := visitedEntries + |directory.entries|;
      if visitedEntries > MAX_ENTRIES {
        return Some(TooManyEntries);
      }
      var names := SortNames(directory.entries);
      error := VisitNames(directory, names, base, depth);
    }

    method VisitNames(directory: Node, names: seq<string>, base: string, depth: nat) returns (error: Option<ScanError>)
      requires directory.Directory? && forall n | n in names :: n in directory.entries
      requires visitedEntries <= MAX_ENTRIES && depth <= MAX_DEPTH
      modifies this
      decreases directory, 0
      ensures error.None? <==>
        Scannable(safe, directory, names, base, depth)
          && old(visitedEntries) + CountBelow(directory, names) <= MAX_ENTRIES
      ensures error.None? ==> records == old(records) + Flatten(digest, directory, names, base)
      ensures error.None? ==> visitedEntries == old(visitedEntries) + CountBelow(directory, names)
    {
      hide Listing, CountEntries, Block, ScannableChild;
      for i := 0 to |names|
        invariant visitedEntries <= MAX_ENTRIES
        invariant visitedEntries + CountBelow(directory, names[i..])
          == old(visitedEntries) + CountBelow(directory, names)
        invariant records + Flatten(digest, directory, names[i..], base)
          == old(records) + Flatten(digest, directory, names, base)
        invariant Scannable(safe, directory, names, base, depth) <==>
          Scannable(safe, directory, names[i..], base, depth)
      {
        assert names[i] in names && names[i..][0] == names[i] && names[i..][1..] == names[i + 1..];
        ghost var rest := Flatten(digest, directory, names[i + 1..], base);
        ghost var was := records;
        error := VisitChild(directory.entries[names[i]], base + names[i], depth);
        if error.Some? {
          return;
        }
        assert records + rest == was + (Block(digest, directory.entries[names[i]], base + names[i]) + rest);
      }
      assert names[|names|..] == [];
      error := None;
    }

    method VisitChild(node: Node, path: string, depth: nat) returns (error: Option<ScanError>)
      requires visitedEntries <= MAX_ENTRIES && depth <= MAX_DEPTH
      modifies this
      decreases node, 2
      ensures error.None? <==>
        ScannableChild(safe, node, path, depth) && old(visitedEntries) + CountEntries(node) <= MAX_ENTRIES
      ensures error.None? ==> records == old(records) + Block(digest, node, path)
      ensures error.None? ==> visitedEntries == old(visitedEntries) + CountEntries(node)
      ensures !safe(path) ==> error == Some(UnsafeName(path))
      ensures safe(path) && node.Special? ==> error == Some(SpecialFile(path))
    {
      hide Listing, Flatten, Scannable;
      if !safe(path) {
        return Some(UnsafeName(path));
      }
      match node {
        case Symlink(mode, target) =>
          records := records + [SymlinkRecord(mode, path, target)];
          return None;
        case Directory(mode, entries) =>
          ghost var was := records;
          records := records + [DirectoryRecord(mode, path)];
          error := Visit(node, path + "/", depth + 1);
        case File(mode, content) =>
          records := records + [FileRecord(digest(content), mode, path, |content|)];
          return None;
        case Special =>
          return Some(SpecialFile(path));
      }
    }
  }

  // ----- Hashing the records -----

  const TREE_ALGORITHM := "agent-eval-tree-sha256-v1"

  /** Canonical JSON of each record, a line each. */
  function RecordLines(encode: Record -> string, records: seq<Record>): string {
    if records == [] then "" else encode(records[0]) + "\n" + RecordLines(encode, records[1..])
  }

  ghost predicate WritesOneLine(encode: Record -> string) {
    forall r :: '\n' !in encode(r)
  }

  function FirstLine(s: string): string {
    if s == "" || s[0] == '\n' then "" else [s[0]] + FirstLine(s[1..])
  }

  lemma {:induction false} FirstLineIs(line: string, rest: string)
    requires '\n' !in line
    ensures FirstLine(line + "\n" + rest) == line
  {
    if line == "" {
      assert line + "\n" + rest == "\n" + rest;
    } else {
      assert line[0] in line;
      assert (line + "\n" + rest)[1..] == line[1..] + "\n" + rest;
      assert forall i | 0 <= i < |line[1..]| :: line[1..][i] in line;
      FirstLineIs(line[1..], rest);
    }
  }

  /** The joined lines determine the records. */
  lemma {:induction false} LinesDetermineRecords(encode: Record -> string, a: seq<Record>, b: seq<Record>)
    requires Injective(encode) && WritesOneLine(encode) && RecordLines(encode, a) == RecordLines(encode, b)
    ensures a == b
  {
    if a != [] && b != [] {
      var restA, restB := RecordLines(encode, a[1..]), RecordLines(encode, b[1..]);
      FirstLineIs(encode(a[0]), restA);
      FirstLineIs(encode(b[0]), restB);
      assert a[0] == b[0];
      var n := |encode(a[0])| + 1;
      assert restA == RecordLines(encode, a)[n..] && restB == RecordLines(encode, b)[n..];
      LinesDetermineRecords(encode, a[1..], b[1..]);
      assert a == [a[0]] + a[1..] && b == [b[0]] + b[1..];
    }
  }

  function TreeBytes(encode: Record -> string, records: seq<Record>): string {
    TREE_ALGORITHM + "\0" + RecordLines(encode, records)
  }

  datatype Hashing = Hashing(safe: string -> bool, sha256: string -> Digest, encode: Record -> string)

  ghost predicate GoodHashing(h: Hashing) {
    Injective(h.sha256) && Injective(h.encode) && WritesOneLine(h.encode)
  }

  method HashRecords(h: Hashing, records: seq<Record>) returns (digest: Digest)
    ensures digest == h.sha256(TreeBytes(h.encode, records))
  {
    var digestInput := TREE_ALGORITHM + "\0";
    assert records[0..] == records;
    for i := 0 to |records|
      invariant digestInput + RecordLines(h.encode, records[i..]) == TreeBytes(h.encode, records)
    {
      assert records[i..][0] == records[i] && records[i..][1..] == records[i + 1..];
      digestInput := digestInput + (h.encode(records[i]) + "\n");
    }
    assert records[|records|..] == [];
    assert digestInput + "" == digestInput;
    digest := h.sha256(digestInput);
  }

  /** The digest of a directory tree, or nothing when the scan is stopped. */
  method HashTree(h: Hashing, entries: map<string, Node>) returns (r: Option<Digest>)
    ensures r.Some? <==>
      Scannable(h.safe, Directory(0, entries), Listing(entries), "", 0)
        && CountEntries(Directory(0, entries)) <= MAX_ENTRIES
    ensures r.Some? ==> r.value == h.sha256(TreeBytes(h.encode, TreeRecords(h.sha256, entries)))
  {
    hide Scannable, CountEntries, Flatten, Listing, RecordLines;
    var scan := new Scan(h.safe, h.sha256);
    var error := scan.Visit(Directory(0, entries), "", 0);
    if error.Some? {
      return None;
    }
    assert scan.records == TreeRecords(h.sha256, entries);
    var digest := HashRecords(h, scan.records);
    return Some(digest);
  }

  /** Main result: trees with one digest are the same tree. */
  lemma DigestDeterminesTree(h: Hashing, a: map<string, Node>, b: map<string, Node>)
    requires GoodHashing(h) && WellNamed(Directory(0, a)) && WellNamed(Directory(0, b))
    requires h.sha256(TreeBytes(h.encode, TreeRecords(h.sha256, a)))
      == h.sha256(TreeBytes(h.encode, TreeRecords(h.sha256, b)))
    ensures a == b
  {
    hide TreeRecords, RecordLines, WellNamed;
    var recordsA, recordsB := TreeRecords(h.sha256, a), TreeRecords(h.sha256, b);
    var header := TREE_ALGORITHM + "\0";
    assert TreeBytes(h.encode, recordsA)[|header|..] == RecordLines(h.encode, recordsA);
    assert TreeBytes(h.encode, recordsB)[|header|..] == RecordLines(h.encode, recordsB);
    LinesDetermineRecords(h.encode, recordsA, recordsB);
    RecordsDetermineTree(h.sha256, a, b);
  }

  // ----- Worktree evidence -----

  const WORKTREE_ALGORITHM := "agent-eval-git-worktree-sha256-v1"

  function Power256(k: nat): nat {
    if k == 0 then 1 else 256 * Power256(k - 1)
  }

  /** `n.to_bytes(k, "big")`. */
  function BigEndian(n: nat, k: nat): (s: string)
    ensures |s| == k
  {
    if k == 0 then "" else BigEndian(n / 256, k - 1) + [(n % 256) as char]
  }

  lemma {:induction false} BigEndianIsInjective(m: nat, n: nat, k: nat)
    requires m < Power256(k) && n < Power256(k) && BigEndian(m, k) == BigEndian(n, k)
    ensures m == n
  {
    if k > 0 {
      var s := BigEndian(m, k);
      assert s[..k - 1] == BigEndian(m / 256, k - 1) && s[..k - 1] == BigEndian(n / 256, k - 1);
      assert s[k - 1] == (m % 256) as char && s[k - 1] == (n % 256) as char;
      BigEndianIsInjective(m / 256, n / 256, k - 1);
    }
  }

  /** The number that bytes stand for, with the first of them counting most. */
  ghost function Weight(bytes: string): nat {
    if bytes == "" then 0 else bytes[0] as int * Power256(|bytes| - 1) + Weight(bytes[1..])
  }

  lemma {:induction false} WeightOfLast(bytes: string, last: char)
    ensures Weight(bytes + [last]) == 256 * Weight(bytes) + last as int
  {
    var all := bytes + [last];
    if bytes != "" {
      assert all[1..] == bytes[1..] + [last];
      WeightOfLast(bytes[1..], last);
      var first, power := bytes[0] as int, Power256(|bytes| - 1);
      assert first * (256 * power) == 256 * (first * power);
    } else {
      assert all == [last] && all[1..] == "";
    }
  }

  /** The bytes of a number that fits them stand for it, the most significant byte first. */
  lemma {:induction false} BigEndianMeans(n: nat, k: nat)
    requires n < Power256(k)
    ensures Weight(BigEndian(n, k)) == n && forall c | c in BigEndian(n, k) :: c as int < 256
  {
    if k > 0 {
      BigEndianMeans(n / 256, k - 1);
      WeightOfLast(BigEndian(n / 256, k - 1), (n % 256) as char);
    }
  }

  predicate Measurable(data: string) {
    |data| < Power256(8)
  }

  /** A labelled, length-prefixed piece of evidence. */
  function Frame(tag: string, data: string): string {
    tag + "\0" + BigEndian(|data|, 8) + data
  }

  /** A frame is its tag, a zero byte, eight bytes that stand for the length of the data, and the data. */
  lemma FrameMeans(tag: string, data: string)
    requires Measurable(data)
    ensures exists length ::
      |length| == 8 && Weight(length) == |data| && Frame(tag, data) == tag + "\0" + length + data
  {
    BigEndianMeans(|data|, 8);
    assert Frame(tag, data) == tag + "\0" + BigEndian(|data|, 8) + data;
  }

  /** Where one frame ends is determined by its own bytes. */
  lemma FrameIsSelfDelimiting(tag: string, a: string, restA: string, b: string, restB: string)
    requires Measurable(a) && Measurable(b)
    requires Frame(tag, a) + restA == Frame(tag, b) + restB
    ensures a == b && restA == restB
  {
    var all := Frame(tag, a) + restA;
    var n := |tag| + 1;
    assert all == Frame(tag, b) + restB;
    assert all[n..n + 8] == BigEndian(|a|, 8);
    assert all[n..n + 8] == BigEndian(|b|, 8);
    BigEndianIsInjective(|a|, |b|, 8);
    assert all[n + 8..n + 8 + |a|] == a;
    assert all[n + 8..n + 8 + |a|] == b;
    assert all[n + 8 + |a|..] == restA;
    assert all[n + 8 + |a|..] == restB;
  }

  function UntrackedFrames(records: seq<string>): string {
    if records == [] then "" else Frame("untracked", records[0]) + UntrackedFrames(records[1..])
  }

  ghost predicate AllMeasurable(records: seq<string>) {
    forall i | 0 <= i < |records| :: Measurable(records[i])
  }

  lemma {:induction false} FramesDetermineRecords(a: seq<string>, b: seq<string>)
    requires AllMeasurable(a) && AllMeasurable(b) && UntrackedFrames(a) == UntrackedFrames(b)
    ensures a == b
  {
    hide Frame;
    if a == [] || b == [] {
      EmptyOnlyWithoutFrames(a);
      EmptyOnlyWithoutFrames(b);
    } else {
      FrameIsSelfDelimiting("untracked", a[0], UntrackedFrames(a[1..]), b[0], UntrackedFrames(b[1..]));
      FramesDetermineRecords(a[1..], b[1..]);
      assert a == [a[0]] + a[1..] && b == [b[0]] + b[1..];
    }
  }

  lemma EmptyOnlyWithoutFrames(a: seq<string>)
    ensures UntrackedFrames(a) == "" <==> a == []
  {
  }

  function WorktreeBytes(staged: string, unstaged: string, untracked: seq<string>): string {
    WORKTREE_ALGORITHM + "\0"
      + (Frame("staged-diff", staged) + (Frame("unstaged-diff", unstaged) + UntrackedFrames(untracked)))
  }

  /** Hash the evidence piece by piece; a piece too long for its length field is refused. */
  method WorktreeDigest(sha256: string -> Digest, staged: string, unstaged: string, untracked: seq<string>)
    returns (r: Option<Digest>)
    ensures r.Some? <==> Measurable(staged) && Measurable(unstaged) && AllMeasurable(untracked)
    ensures r.Some? ==> r.value == sha256(WorktreeBytes(staged, unstaged, untracked))
  {
    hide Frame;
    if !Measurable(staged) || !Measurable(unstaged) {
      return None;
    }
    var digestInput := WORKTREE_ALGORITHM + "\0";
    digestInput := digestInput + (Frame("staged-diff", staged) + Frame("unstaged-diff", unstaged));
    for i := 0 to |untracked|
      invariant AllMeasurable(untracked[..i])
      invariant digestInput + UntrackedFrames(untracked[i..]) == WorktreeBytes(staged, unstaged, untracked)
    {
      assert untracked[i..][0] == untracked[i] && untracked[i..][1..] == untracked[i + 1..];
      if !Measurable(untracked[i]) {
        return None;
      }
      assert untracked[..i + 1] == untracked[..i] + [untracked[i]];
      digestInput := digestInput + Frame("untracked", untracked[i]);
    }
    assert untracked[..|untracked|] == untracked && untracked[|untracked|..] == [];
    assert digestInput + "" == digestInput;
    return Some(sha256(digestInput));
  }

  /** Main result: one worktree digest means the same staged diff, unstaged diff and untracked records, in order. */
  lemma DigestDeterminesWorktree(sha256: string -> Digest, stagedA: string, unstagedA: string, untrackedA: seq<string>,
                                 stagedB: string, unstagedB: string, untrackedB: seq<string>)
    requires Injective(sha256)
    requires Measurable(stagedA) && Measurable(unstagedA) && AllMeasurable(untrackedA)
    requires Measurable(stagedB) && Measurable(unstagedB) && AllMeasurable(untrackedB)
    requires sha256(WorktreeBytes(stagedA, unstagedA, untrackedA))
      == sha256(WorktreeBytes(stagedB, unstagedB, untrackedB))
    ensures stagedA == stagedB && unstagedA == unstagedB && untrackedA == untrackedB
  {
    hide Frame, UntrackedFrames, Measurable;
    var header := WORKTREE_ALGORITHM + "\0";
    var restA := Frame("unstaged-diff", unstagedA) + UntrackedFrames(untrackedA);
    var restB := Frame("unstaged-diff", unstagedB) + UntrackedFrames(untrackedB);
    assert WorktreeBytes(stagedA, unstagedA, untrackedA)[|header|..] == Frame("staged-diff", stagedA) + restA;
    assert WorktreeBytes(stagedB, unstagedB, untrackedB)[|header|..] == Frame("staged-diff", stagedB) + restB;
    FrameIsSelfDelimiting("staged-diff", stagedA, restA, stagedB, restB);
    FrameIsSelfDelimiting("unstaged-diff", unstagedA, UntrackedFrames(untrackedA), unstagedB,
      UntrackedFrames(untrackedB));
    FramesDetermineRecords(untrackedA, untrackedB);
  }
}
