/** Creating an attestation bundle over an artifact tree, and verifying one. */
module ArtifactBundle {
  import opened Wrappers
  import opened Ordering
  import opened TreeDigest
  import opened ArtifactScan
  import opened ItemLists
  import DiffText
  import DiffGrammar

  const MAX_SUBJECTS: nat := 10_000
  const MAX_STATEMENT_BYTES: nat := 16 * 1024 * 1024
  const MAX_SIDECAR_BYTES: nat := 1024
  const STATEMENT_TYPE := "https://in-toto.io/Statement/v1"

  datatype Subject = Subject(name: string, digest: string)

  /** A statement; `evidence` stands for its predicate: task, harness, image, models, tools and outcome. */
  datatype Statement = Statement(kind: string, subjects: seq<Subject>, evidence: string)

  /**
   * Hashing, canonical serialization and the checks that other parts of the program decide. The content of a file, and
   * with it what `encode` gives, is its bytes, one character each.
   */
  datatype Tools = Tools(
    sha256: string -> Digest, encode: Statement -> string, parse: string -> Option<Statement>,
    safe: string -> bool, evidenceHolds: string -> bool)

  const HEX_DIGITS: string := "0123456789abcdef"

  lemma HexDigitMeans(c: char)
    ensures '0' <= c <= '9' || 'a' <= c <= 'f' <==> c in HEX_DIGITS
  {
    var k := if c <= '9' then c as int - '0' as int else c as int - 'a' as int + 10;
    if '0' <= c <= '9' || 'a' <= c <= 'f' {
      assert HEX_DIGITS[k] == c;
    }
  }

  /** 64 lowercase hexadecimal digits. */
  predicate IsDigest(text: string)
    ensures IsDigest(text) <==> |text| == 64 && forall c | c in text :: c in HEX_DIGITS
  {
    assert forall c | c in text :: '0' <= c <= '9' || 'a' <= c <= 'f' <==> c in HEX_DIGITS by {
      forall c { HexDigitMeans(c); }
    }
    assert forall i | 0 <= i < |text| :: text[i] in text;
    |text| == 64 && forall i | 0 <= i < 64 :: '0' <= text[i] <= '9' || 'a' <= text[i] <= 'f'
  }

  ghost predicate GoodTools(t: Tools) {
    && (forall s :: t.parse(t.encode(s)) == Some(s))
    && (forall x :: IsDigest(t.sha256(x)))
  }

  // ----- Files by path -----

  lemma ChildAt(directory: Node, name: string)
    requires directory.Directory? && name in directory.entries && forall i | 0 <= i < |name| :: name[i] != '/'
    ensures NodeAt(directory, name) == Some(directory.entries[name])
  {
    FirstSegmentIs(name, "");
    assert name + "" == name;
  }

  lemma BelowChild(directory: Node, name: string, rest: string)
    requires directory.Directory? && name in directory.entries && forall i | 0 <= i < |name| :: name[i] != '/'
    ensures NodeAt(directory, name + "/" + rest)
      == (if directory.entries[name].Directory? then NodeAt(directory.entries[name], rest) else None)
  {
    FirstSegmentIs(name, "/" + rest);
    assert name + ("/" + rest) == name + "/" + rest;
    assert (name + "/" + rest)[|name|..] == "/" + rest;
  }

  /** The directory that the first `k` characters of a path lead to lacks the next name of the path. */
  ghost predicate LacksAt(root: Node, path: string, k: int)
    requires root.Directory?
  {
    && 0 <= k <= |path| && (k == 0 || path[k - 1] == '/')
    && var here := if k == 0 then Some(root) else NodeAt(root, path[..k - 1]);
       here.Some? && here.value.Directory? && FirstSegment(path[k..]) !in here.value.entries
  }

  /** Where the front of a path leads that goes past its first segment. */
  lemma FrontLeads(root: Node, path: string, k: nat)
    requires root.Directory? && |FirstSegment(path)| < k <= |path|
    ensures var segment := FirstSegment(path);
      var n := |segment| + 1;
      NodeAt(root, path[..k - 1]) ==
        if segment !in root.entries then None
        else if k == n then Some(root.entries[segment])
        else if root.entries[segment].Directory? then NodeAt(root.entries[segment], path[n..][..k - n - 1])
        else None
  {
    var segment, front := FirstSegment(path), path[..k - 1];
    var n := |segment| + 1;
    var rest := front[|segment|..];
    assert front == segment + rest;
    FirstSegmentIs(segment, rest);
    hide FirstSegment;
    if k > n {
      assert rest[1..] == path[n..][..k - n - 1];
    }
  }

  lemma LacksBelow(root: Node, path: string, k: int)
    requires root.Directory? && k > 0
    ensures var segment := FirstSegment(path);
      var n := |segment| + 1;
      LacksAt(root, path, k) <==>
        && n <= |path| && segment in root.entries && root.entries[segment].Directory?
        && LacksAt(root.entries[segment], path[n..], k - n)
  {
    hide NodeAt;
    var segment := FirstSegment(path);
    var n := |segment| + 1;
    if n <= k <= |path| {
      FrontLeads(root, path, k);
      assert path[k..] == path[n..][k - n..];
    }
  }

  /** A path is missing exactly when a directory on its way lacks its next name. */
  lemma {:induction false} MissingMeans(root: Node, path: string)
    requires root.Directory?
    ensures IsMissing(root, path) <==> exists k :: LacksAt(root, path, k)
    decreases |path|
  {
    hide NodeAt, LacksAt;
    var segment := FirstSegment(path);
    var n := |segment| + 1;
    assert LacksAt(root, path, 0) <==> segment !in root.entries by { LacksHere(root, path); }
    if n <= |path| && segment in root.entries && root.entries[segment].Directory? {
      var child := root.entries[segment];
      MissingMeans(child, path[n..]);
      if k :| LacksAt(child, path[n..], k) {
        assert k >= 0 by { LacksInside(child, path[n..], k); }
        LacksBelow(root, path, k + n);
      }
    }
    if k :| LacksAt(root, path, k) {
      LacksInside(root, path, k);
      if k > 0 {
        LacksBelow(root, path, k);
      }
    }
  }

  lemma LacksHere(root: Node, path: string)
    requires root.Directory?
    ensures LacksAt(root, path, 0) <==> FirstSegment(path) !in root.entries
  {
    assert path[0..] == path;
  }

  lemma LacksInside(root: Node, path: string, k: int)
    requires root.Directory? && LacksAt(root, path, k)
    ensures 0 <= k <= |path|
  {
  }

  lemma {:induction false} CollectedAreRegular(directory: Node, names: seq<string>, base: string, excluded: set<string>,
                                               p: string)
    requires directory.Directory? && WellNamed(directory) && forall n | n in names :: n in directory.entries
    requires p in FilesIn(directory, names, base, excluded)
    ensures base <= p && p !in excluded && RegularAt(directory, p[|base|..])
    decreases directory, |names|
  {
    hide NodeAt, Listing, WellNamed;
    var name := names[0];
    assert name in names;
    ChildIsWellNamed(directory, name);
    var node, path := directory.entries[name], base + name;
    if p in FilesOf(node, path, excluded) {
      if node.File? {
        ChildAt(directory, name);
        assert p[|base|..] == name;
      } else {
        CollectedAreRegular(node, Listing(node.entries), path + "/", excluded, p);
        var rest := p[|path + "/"|..];
        BelowChild(directory, name, rest);
        InnerPath(base, name, p);
      }
    } else {
      CollectedAreRegular(directory, names[1..], base, excluded, p);
    }
  }

  lemma ChildIsWellNamed(directory: Node, name: string)
    requires directory.Directory? && WellNamed(directory) && name in directory.entries
    ensures WellNamed(directory.entries[name]) && forall i | 0 <= i < |name| :: name[i] != '/'
  {
    assert GoodName(name);
  }

  lemma InnerPath(base: string, name: string, p: string)
    requires base + name + "/" <= p
    ensures base <= p && p[|base|..] == name + "/" + p[|base + name + "/"|..]
  {
    assert p == base + name + "/" + p[|base + name + "/"|..];
  }

  /** No excluded path is a directory above `p`. */
  ghost predicate NotBelow(excluded: set<string>, p: string) {
    forall e | e in excluded :: !(e + "/" <= p)
  }

  lemma {:induction false} FilesOfNamed(directory: Node, names: seq<string>, base: string, excluded: set<string>,
                                        n: string)
    requires directory.Directory? && forall m | m in names :: m in directory.entries
    requires n in names
    ensures FilesOf(directory.entries[n], base + n, excluded) <= FilesIn(directory, names, base, excluded)
    decreases |names|
  {
    if n != names[0] {
      assert n in names[1..];
      FilesOfNamed(directory, names[1..], base, excluded, n);
    }
  }

  lemma AboveIsNotExcluded(excluded: set<string>, path: string, inner: string)
    requires NotBelow(excluded, path + "/" + inner)
    ensures path !in excluded
  {
    assert path + "/" <= path + "/" + inner;
  }

  lemma {:induction false} RegularAreCollected(directory: Node, base: string, path: string, excluded: set<string>)
    requires directory.Directory? && RegularAt(directory, path)
    requires base + path !in excluded && NotBelow(excluded, base + path)
    ensures base + path in FilesIn(directory, Listing(directory.entries), base, excluded)
    decreases |path|
  {
    hide Listing, FilesIn, FilesOf, FirstSegment, NotBelow;
    var name := FirstSegment(path);
    var rest := path[|name|..];
    var node := directory.entries[name];
    FilesOfNamed(directory, Listing(directory.entries), base, excluded, name);
    assert path == name + rest;
    if rest == "" {
      assert base + path == base + name;
      FileIsItself(node, base + name, excluded);
    } else {
      var inner := rest[1..];
      assert rest == "/" + inner;
      assert base + path == base + name + "/" + inner;
      AboveIsNotExcluded(excluded, base + name, inner);
      RegularAreCollected(node, base + name + "/", inner, excluded);
      DirectoryHolds(node, base + name, excluded);
    }
  }

  lemma FileIsItself(node: Node, path: string, excluded: set<string>)
    requires node.File? && path !in excluded
    ensures path in FilesOf(node, path, excluded)
  {
  }

  lemma DirectoryHolds(node: Node, path: string, excluded: set<string>)
    requires node.Directory? && path !in excluded
    ensures FilesOf(node, path, excluded) == FilesIn(node, Listing(node.entries), path + "/", excluded)
  {
  }

  lemma TailOfPrefix(e: string, p: string)
    requires e != "" && e + "/" <= p
    ensures p != "" && p[0] == e[0] && e[1..] + "/" <= p[1..]
  {
    assert (e + "/")[1..] == e[1..] + "/";
    assert p[..|e| + 1] == e + "/";
    assert p[1..][..|e|] == p[..|e| + 1][1..];
  }

  /** A path below another one starts with the same segment. */
  lemma {:induction false} SegmentOfPrefix(e: string, p: string)
    requires e + "/" <= p
    ensures var n := |FirstSegment(e)|;
      FirstSegment(p) == FirstSegment(e) && n < |p| && (n < |e| ==> e[n + 1..] + "/" <= p[n + 1..])
  {
    if e == "" {
      assert p[0] == '/';
    } else {
      TailOfPrefix(e, p);
      if e[0] != '/' {
        SegmentOfPrefix(e[1..], p[1..]);
      }
    }
  }

  lemma {:induction false} AboveIsDirectory(directory: Node, e: string, p: string)
    requires directory.Directory? && NodeAt(directory, p).Some? && e + "/" <= p
    ensures NodeAt(directory, e).Some? && NodeAt(directory, e).value.Directory?
    decreases |e|
  {
    var name := FirstSegment(e);
    var rest := e[|name|..];
    var tail := p[|name|..];
    SegmentOfPrefix(e, p);
    if rest != "" {
      AboveIsDirectory(directory.entries[name], rest[1..], tail[1..]);
    }
  }

  /** The collected files are the regular files that are not excluded, when no excluded path is a directory. */
  lemma CollectedExactly(root: Node, excluded: set<string>, p: string)
    requires root.Directory? && WellNamed(root)
    requires forall e | e in excluded :: !(NodeAt(root, e).Some? && NodeAt(root, e).value.Directory?)
    ensures p in Artifacts(root, excluded) <==> RegularAt(root, p) && p !in excluded
  {
    if p in Artifacts(root, excluded) {
      CollectedAreRegular(root, Listing(root.entries), "", excluded, p);
      assert p[|""|..] == p;
    }
    if RegularAt(root, p) && p !in excluded {
      forall e | e in excluded ensures !(e + "/" <= p) {
        if e + "/" <= p {
          AboveIsDirectory(root, e, p);
        }
      }
      assert "" + p == p;
      RegularAreCollected(root, "", p, excluded);
    }
  }

  function ContentAt(root: Node, p: string): string
    requires root.Directory? && RegularAt(root, p)
  {
    NodeAt(root, p).value.content
  }

  // ----- Verifying -----

  /** A subject whose file is there with the attested digest. */
  ghost predicate SubjectHolds(t: Tools, root: Node, s: Subject)
    requires root.Directory?
  {
    && t.safe(s.name) && IsDigest(s.digest)
    && RegularAt(root, s.name) && t.sha256(ContentAt(root, s.name)) == s.digest
  }

  ghost function Names(subjects: seq<Subject>): set<string> {
    set i | 0 <= i < |subjects| :: subjects[i].name
  }

  ghost predicate DistinctNames(subjects: seq<Subject>) {
    forall i, j | 0 <= i < j < |subjects| :: subjects[i].name != subjects[j].name
  }

  ghost predicate SubjectsHold(t: Tools, root: Node, subjects: seq<Subject>)
    requires root.Directory?
  {
    && |subjects| <= MAX_SUBJECTS && DistinctNames(subjects)
    && forall i | 0 <= i < |subjects| :: SubjectHolds(t, root, subjects[i])
  }

  datatype Failure = Failure(code: string, path: Option<string>)

  /** What subject `i` is reported for: the first thing that is wrong with it, if anything is. */
  ghost function SubjectFault(t: Tools, root: Node, subjects: seq<Subject>, i: nat): Option<string>
    requires root.Directory? && i < |subjects|
  {
    var Subject(name, digest) := subjects[i];
    if !t.safe(name) then Some("unsafe_subject_path")
    else if exists j | 0 <= j < i :: subjects[j].name == name then Some("duplicate_subject")
    else if !IsDigest(digest) then Some("subject_digest_invalid")
    else if IsMissing(root, name) then Some("artifact_missing")
    else if !RegularAt(root, name) then Some("unsafe_artifact_path")
    else if t.sha256(ContentAt(root, name)) != digest then Some("artifact_digest_mismatch")
    else None
  }

  /** What the first `n` subjects are reported for. */
  ghost function SubjectReport(t: Tools, root: Node, subjects: seq<Subject>, n: nat): seq<Failure>
    requires root.Directory? && n <= |subjects|
  {
    if n == 0 then []
    else
      var fault := SubjectFault(t, root, subjects, n - 1);
      SubjectReport(t, root, subjects, n - 1)
      + if fault.Some? then [Failure(fault.value, Some(subjects[n - 1].name))] else []
  }

  lemma NoFaultHolds(t: Tools, root: Node, subjects: seq<Subject>, i: nat)
    requires root.Directory? && i < |subjects|
    ensures SubjectFault(t, root, subjects, i) == None
      <==> SubjectHolds(t, root, subjects[i]) && subjects[i].name !in Names(subjects[..i])
  {
    hide NodeAt, IsMissing, IsDigest;
    assert forall j | 0 <= j < i :: subjects[..i][j] == subjects[j];
  }

  lemma {:induction false} NothingReported(t: Tools, root: Node, subjects: seq<Subject>, n: nat)
    requires root.Directory? && n <= |subjects|
    ensures SubjectReport(t, root, subjects, n) == [] <==>
      DistinctNames(subjects[..n]) && forall i | 0 <= i < n :: SubjectHolds(t, root, subjects[i])
  {
    hide SubjectFault, SubjectHolds, Names;
    if n > 0 {
      NothingReported(t, root, subjects, n - 1);
      OneMoreName(subjects, n - 1);
      NoFaultHolds(t, root, subjects, n - 1);
    }
  }

  /** The safe ones of the first `n` names. */
  ghost function SafeNames(t: Tools, subjects: seq<Subject>, n: nat): set<string>
    requires n <= |subjects|
  {
    set i | 0 <= i < n && t.safe(subjects[i].name) :: subjects[i].name
  }

  /** Check each subject in turn, noting what is wrong with it. */
  method VerifySubjects(t: Tools, root: Node, subjects: seq<Subject>)
    returns (failures: seq<Failure>, names: set<string>)
    requires root.Directory?
    ensures failures == [] <==> SubjectsHold(t, root, subjects)
    ensures if |subjects| > MAX_SUBJECTS then failures == [Failure("subjects_too_many", None)] && names == {}
      else failures == SubjectReport(t, root, subjects, |subjects|) && names == SafeNames(t, subjects, |subjects|)
  {
    hide NodeAt, IsMissing, SubjectHolds;
    failures, names := [], {};
    if |subjects| > MAX_SUBJECTS {
      return [Failure("subjects_too_many", None)], {};
    }
    for i := 0 to |subjects|
      invariant failures == SubjectReport(t, root, subjects, i)
      invariant names == SafeNames(t, subjects, i)
    {
      var s := subjects[i];
      if !t.safe(s.name) {
        failures := failures + [Failure("unsafe_subject_path", Some(s.name))];
        continue;
      }
      if s.name in names {
        failures := failures + [Failure("duplicate_subject", Some(s.name))];
        continue;
      }
      names := names + {s.name};
      if !IsDigest(s.digest) {
        failures := failures + [Failure("subject_digest_invalid", Some(s.name))];
        continue;
      }
      if IsMissing(root, s.name) {
        failures := failures + [Failure("artifact_missing", Some(s.name))];
        continue;
      }
      if !RegularAt(root, s.name) {
        failures := failures + [Failure("unsafe_artifact_path", Some(s.name))];
        continue;
      }
      if t.sha256(ContentAt(root, s.name)) != s.digest {
        failures := failures + [Failure("artifact_digest_mismatch", Some(s.name))];
      }
    }
    NothingReported(t, root, subjects, |subjects|);
    assert subjects[..|subjects|] == subjects;
  }

  lemma SafeNamesAreNames(t: Tools, root: Node, subjects: seq<Subject>)
    requires root.Directory? && SubjectsHold(t, root, subjects)
    ensures SafeNames(t, subjects, |subjects|) == Names(subjects)
  {
    hide NodeAt;
    forall i | 0 <= i < |subjects| ensures t.safe(subjects[i].name) {
      assert SubjectHolds(t, root, subjects[i]);
    }
  }

  lemma OneMoreName(subjects: seq<Subject>, i: nat)
    requires i < |subjects|
    ensures Names(subjects[..i + 1]) == Names(subjects[..i]) + {subjects[i].name}
    ensures DistinctNames(subjects[..i + 1]) <==>
      DistinctNames(subjects[..i]) && subjects[i].name !in Names(subjects[..i])
  {
    var more, fewer := subjects[..i + 1], subjects[..i];
    assert more == fewer + [subjects[i]];
    forall n ensures n in Names(more) <==> n in Names(fewer) || n == subjects[i].name {
      if n in Names(fewer) {
        var j :| 0 <= j < i && fewer[j].name == n;
        assert more[j].name == n;
      }
      if n == subjects[i].name {
        assert more[i].name == n;
      }
    }
    if DistinctNames(fewer) && subjects[i].name !in Names(fewer) {
      forall j, k | 0 <= j < k < |more| ensures more[j].name != more[k].name {
        assert fewer[j].name in Names(fewer);
      }
    }
    if DistinctNames(more) {
      forall j | 0 <= j < i ensures fewer[j].name != subjects[i].name {
        assert more[j].name != more[i].name;
      }
      assert forall j, k | 0 <= j < k < i :: fewer[j] == more[j] && fewer[k] == more[k];
    }
  }

  /** A sidecar of bounded ASCII text that names a digest, give or take white space around it. */
  ghost predicate NamesDigest(content: string, digest: Digest) {
    && |content| <= MAX_SIDECAR_BYTES && IsAscii(content)
    && IsDigest(digest) && DiffGrammar.IsCore(content, digest)
  }

  ghost predicate IsAscii(content: string) {
    forall c | c in content :: c as int <= 127
  }

  /** What a sidecar is reported for. */
  ghost function SidecarFault(t: Tools, root: Node, sidecarName: string, data: string): Option<string>
    requires root.Directory?
  {
    if IsMissing(root, sidecarName) then Some("sidecar_missing")
    else if !RegularAt(root, sidecarName) || |ContentAt(root, sidecarName)| > MAX_SIDECAR_BYTES then
      Some("sidecar_unsafe")
    else if !exists digest :: NamesDigest(ContentAt(root, sidecarName), digest) then Some("sidecar_invalid")
    else if !NamesDigest(ContentAt(root, sidecarName), t.sha256(data)) then Some("sidecar_digest_mismatch")
    else None
  }

  lemma OneDigest(content: string, digest: Digest)
    requires NamesDigest(content, digest)
    ensures DiffText.Strip(content) == digest
  {
    DiffGrammar.StripMeans(content, digest);
  }

  /** Check a statement's bytes against the digest in its sidecar. */
  method VerifySidecar(t: Tools, root: Node, sidecarName: string, data: string) returns (failures: seq<Failure>)
    requires root.Directory?
    ensures var fault := SidecarFault(t, root, sidecarName, data);
      failures == if fault.Some? then [Failure(fault.value, Some(sidecarName))] else []
  {
    hide NodeAt, IsMissing, IsDigest, DiffGrammar.IsCore;
    if IsMissing(root, sidecarName) {
      return [Failure("sidecar_missing", Some(sidecarName))];
    }
    if !RegularAt(root, sidecarName) || |ContentAt(root, sidecarName)| > MAX_SIDECAR_BYTES {
      return [Failure("sidecar_unsafe", Some(sidecarName))];
    }
    var content := ContentAt(root, sidecarName);
    var expected := "";
    assert forall i | 0 <= i < |content| :: content[i] in content;
    assert IsAscii(content) <==> forall i | 0 <= i < |content| :: content[i] < 128 as char;
    if forall i | 0 <= i < |content| :: content[i] < 128 as char {
      expected := DiffText.Strip(content);
    }
    DiffGrammar.StripMeans(content, DiffText.Strip(content));
    forall digest | NamesDigest(content, digest) ensures digest == expected {
      OneDigest(content, digest);
    }
    if !IsDigest(expected) {
      return [Failure("sidecar_invalid", Some(sidecarName))];
    }
    assert NamesDigest(content, expected);
    if expected != t.sha256(data) {
      return [Failure("sidecar_digest_mismatch", Some(sidecarName))];
    }
    return [];
  }

  /** What a successful verification of the complete artifact set means. */
  ghost predicate Verified(t: Tools, root: Node, statementName: string, sidecarName: string, s: Statement)
    requires root.Directory?
  {
    && RegularAt(root, statementName) && ContentAt(root, statementName) == t.encode(s)
    && |t.encode(s)| <= MAX_STATEMENT_BYTES && t.parse(t.encode(s)) == Some(s)
    && RegularAt(root, sidecarName) && NamesDigest(ContentAt(root, sidecarName), t.sha256(t.encode(s)))
    && s.kind == STATEMENT_TYPE && t.evidenceHolds(s.evidence)
    && SubjectsHold(t, root, s.subjects)
    && Attestable(t.safe, root, {statementName, sidecarName})
    && Artifacts(root, {statementName, sidecarName}) <= Names(s.subjects)
  }

  ghost function FailuresAt(code: string, paths: seq<string>): seq<Failure> {
    seq(|paths|, i requires 0 <= i < |paths| => Failure(code, Some(paths[i])))
  }

  /** The sorted paths of the files that are not among some names. */
  ghost predicate ListsUnattested(unattested: seq<string>, files: set<string>, names: set<string>) {
    Sorted(NameKeys(unattested)) && forall p :: p in unattested <==> p in files && p !in names
  }

  /** What the contents of a statement are reported for, when a scan found these unsafe paths and these files. */
  ghost predicate StatementReported(t: Tools, root: Node, s: Statement, data: string, unsafe: seq<string>,
                                    files: set<string>, failures: seq<Failure>)
    requires root.Directory?
  {
    var tooMany := |s.subjects| > MAX_SUBJECTS;
    var names := if tooMany then {} else SafeNames(t, s.subjects, |s.subjects|);
    exists unattested ::
      && ListsUnattested(unattested, files, names)
      && failures == ItemIf(t.encode(s) != data, Failure("statement_not_canonical", None))
         + ItemIf(s.kind != STATEMENT_TYPE, Failure("statement_type_invalid", None))
         + (if tooMany then [Failure("subjects_too_many", None)]
            else SubjectReport(t, root, s.subjects, |s.subjects|))
         + (FailuresAt("unsafe_artifact_tree", unsafe) + FailuresAt("unattested_artifact", unattested))
         + ItemIf(!t.evidenceHolds(s.evidence), Failure("predicate_invalid", None))
  }

  /** What a bundle is reported for, when a scan found these unsafe paths and these files. */
  ghost predicate Reported(t: Tools, root: Node, statementName: string, sidecarName: string, unsafe: seq<string>,
                           files: set<string>, failures: seq<Failure>)
    requires root.Directory?
  {
    if NodeAt(root, statementName).None? then failures == [Failure("statement_unreadable", Some(statementName))]
    else if !RegularAt(root, statementName) || |ContentAt(root, statementName)| > MAX_STATEMENT_BYTES then
      failures == [Failure("statement_unsafe", Some(statementName))]
    else
      var data := ContentAt(root, statementName);
      var fault := SidecarFault(t, root, sidecarName, data);
      var sidecar := if fault.Some? then [Failure(fault.value, Some(sidecarName))] else [];
      match t.parse(data)
      case None => failures == sidecar + [Failure("statement_json_invalid", Some(statementName))]
      case Some(s) =>
        && sidecar <= failures
        && StatementReported(t, root, s, data, unsafe, files, failures[|sidecar|..])
  }

  /** A failure of each path. */
  method FailEach(code: string, paths: seq<string>) returns (failures: seq<Failure>)
    ensures failures == FailuresAt(code, paths)
  {
    failures := [];
    for i := 0 to |paths|
      invariant failures == FailuresAt(code, paths[..i])
    {
      failures := failures + [Failure(code, Some(paths[i]))];
    }
    assert paths[..|paths|] == paths;
  }

  /** Scan the artifact tree for what is unsafe, and for files that are not among the subjects. */
  method VerifyTree(t: Tools, root: Node, excluded: set<string>, names: set<string>)
    returns (failures: seq<Failure>, ghost unsafe: seq<string>, ghost files: set<string>, ghost unattested: seq<string>)
    requires root.Directory?
    ensures failures == FailuresAt("unsafe_artifact_tree", unsafe) + FailuresAt("unattested_artifact", unattested)
    ensures ListsUnattested(unattested, files, names)
    ensures unsafe == [] <==> Attestable(t.safe, root, excluded)
    ensures unsafe == [] ==> files == Artifacts(root, excluded)
  {
    hide Attestable, Artifacts, Sorted, FailuresAt;
    var scan := new ArtifactTreeScan(t.safe, excluded);
    scan.Visit(root, "", 0);
    ScanMeansAttestable(t.safe, root, excluded);
    unsafe, files := scan.unsafe, scan.files;
    var treeFailures := FailEach("unsafe_artifact_tree", scan.unsafe);
    var sorted := SortSet(scan.files - names);
    unattested := sorted;
    var fileFailures := FailEach("unattested_artifact", sorted);
    failures := treeFailures + fileFailures;
  }

  /** Check the parts of a statement, and the artifact tree against its subjects. */
  method VerifyStatement(t: Tools, root: Node, excluded: set<string>, s: Statement, data: string)
    returns (failures: seq<Failure>, ghost unsafe: seq<string>, ghost files: set<string>)
    requires root.Directory?
    ensures StatementReported(t, root, s, data, unsafe, files, failures)
    ensures unsafe == [] <==> Attestable(t.safe, root, excluded)
    ensures unsafe == [] ==> files == Artifacts(root, excluded)
  {
    hide NodeAt, Attestable, Artifacts, SubjectsHold, SubjectReport, Sorted, SafeNames, FailuresAt, ListsUnattested;
    failures := [];
    if t.encode(s) != data {
      failures := failures + [Failure("statement_not_canonical", None)];
    }
    assert failures == ItemIf(t.encode(s) != data, Failure("statement_not_canonical", None));
    ghost var before := failures;
    if s.kind != STATEMENT_TYPE {
      failures := failures + [Failure("statement_type_invalid", None)];
    }
    assert failures == before + ItemIf(s.kind != STATEMENT_TYPE, Failure("statement_type_invalid", None));
    var subjectFailures, names := VerifySubjects(t, root, s.subjects);
    failures := failures + subjectFailures;
    var treeFailures;
    ghost var unattested;
    treeFailures, unsafe, files, unattested := VerifyTree(t, root, excluded, names);
    failures := failures + treeFailures;
    before := failures;
    if !t.evidenceHolds(s.evidence) {
      failures := failures + [Failure("predicate_invalid", None)];
    }
    assert failures == before + ItemIf(!t.evidenceHolds(s.evidence), Failure("predicate_invalid", None));
  }

  /** A statement is reported for nothing exactly when it is canonical, of its type, and all it says holds. */
  lemma SoundIsNotReported(t: Tools, root: Node, excluded: set<string>, s: Statement, data: string,
                           unsafe: seq<string>, files: set<string>, failures: seq<Failure>)
    requires root.Directory? && StatementReported(t, root, s, data, unsafe, files, failures)
    requires unsafe == [] <==> Attestable(t.safe, root, excluded)
    requires unsafe == [] ==> files == Artifacts(root, excluded)
    ensures failures == [] <==>
      && t.encode(s) == data && s.kind == STATEMENT_TYPE && t.evidenceHolds(s.evidence)
      && SubjectsHold(t, root, s.subjects)
      && Attestable(t.safe, root, excluded) && Artifacts(root, excluded) <= Names(s.subjects)
  {
    hide NodeAt, Attestable, Artifacts, SubjectHolds, SubjectReport, Sorted, SafeNames, Names, DistinctNames;
    NothingReported(t, root, s.subjects, |s.subjects|);
    assert s.subjects[..|s.subjects|] == s.subjects;
    if SubjectsHold(t, root, s.subjects) {
      SafeNamesAreNames(t, root, s.subjects);
    }
    var tooMany := |s.subjects| > MAX_SUBJECTS;
    var names := if tooMany then {} else SafeNames(t, s.subjects, |s.subjects|);
    forall unattested | ListsUnattested(unattested, files, names)
      ensures unattested == [] <==> files <= names
    {
      NothingIsListed(unattested);
    }
  }

  lemma NothingIsListed(names: seq<string>)
    ensures names == [] <==> forall p :: p !in names
  {
    if names != [] {
      assert names[0] in names;
    }
  }

  /** Verify a bundle: it passes exactly when everything holds, and otherwise every fault is reported in its order. */
  method VerifyAttestation(t: Tools, root: Node, statementName: string, sidecarName: string)
    returns (failures: seq<Failure>, statement: Option<Statement>, ghost unsafe: seq<string>, ghost files: set<string>)
    requires root.Directory?
    ensures failures == [] <==> statement.Some? && Verified(t, root, statementName, sidecarName, statement.value)
    ensures failures == [] ==> forall s | Verified(t, root, statementName, sidecarName, s) :: statement == Some(s)
    ensures failures != [] ==> !exists s :: Verified(t, root, statementName, sidecarName, s)
    ensures Reported(t, root, statementName, sidecarName, unsafe, files, failures)
    ensures var own := {statementName, sidecarName};
      (unsafe == [] <==> Attestable(t.safe, root, own)) && (unsafe == [] ==> files == Artifacts(root, own))
  {
    hide NodeAt, Attestable, Artifacts, IsMissing, NamesDigest, SubjectsHold, StatementReported, Names;
    failures, statement := [], None;
    unsafe, files := if Attestable(t.safe, root, {statementName, sidecarName}) then [] else [""],
      Artifacts(root, {statementName, sidecarName});
    if NodeAt(root, statementName).None? {
      return [Failure("statement_unreadable", Some(statementName))], None, unsafe, files;
    }
    if !RegularAt(root, statementName) || |ContentAt(root, statementName)| > MAX_STATEMENT_BYTES {
      return [Failure("statement_unsafe", Some(statementName))], None, unsafe, files;
    }
    var data := ContentAt(root, statementName);
    failures := VerifySidecar(t, root, sidecarName, data);
    ghost var sidecar := failures;
    MissingIsNotRegular(root, sidecarName);
    statement := t.parse(data);
    if statement.None? {
      failures := failures + [Failure("statement_json_invalid", Some(statementName))];
      return;
    }
    var statementFailures;
    statementFailures, unsafe, files := VerifyStatement(t, root, {statementName, sidecarName}, statement.value, data);
    SoundIsNotReported(t, root, {statementName, sidecarName}, statement.value, data, unsafe, files, statementFailures);
    failures := failures + statementFailures;
    assert failures[|sidecar|..] == statementFailures;
  }

  lemma MissingIsNotRegular(root: Node, path: string)
    requires root.Directory?
    ensures IsMissing(root, path) ==> !RegularAt(root, path)
    ensures forall content, digest | NamesDigest(content, digest) :: |content| <= MAX_SIDECAR_BYTES
  {
  }

  lemma ScanMeansAttestable(safe: string -> bool, root: Node, excluded: set<string>)
    requires root.Directory?
    ensures Attestable(safe, root, excluded) <==>
      CleanIn(safe, root, Listing(root.entries), "", excluded, 0) && 0 + Visits(root, "", excluded) <= MAX_ENTRIES
    ensures Artifacts(root, excluded) == {} + FilesIn(root, Listing(root.entries), "", excluded)
  {
  }

  // ----- Creating -----

  /** The statement a bundle over `root` carries: one true subject for each artifact. */
  ghost predicate Describes(t: Tools, root: Node, excluded: set<string>, s: Statement)
    requires root.Directory?
  {
    && s.kind == STATEMENT_TYPE && SortedByName(s.subjects)
    && Names(s.subjects) == Artifacts(root, excluded)
    && forall i | 0 <= i < |s.subjects| :: SubjectHolds(t, root, s.subjects[i])
  }

  /** Subjects come in the order of their names, no name twice. */
  ghost predicate SortedByName(subjects: seq<Subject>) {
    forall i, j | 0 <= i < j < |subjects| :: TextBefore(subjects[i].name, subjects[j].name)
  }

  lemma SortedAreDistinct(subjects: seq<Subject>)
    requires SortedByName(subjects)
    ensures DistinctNames(subjects)
  {
    hide TextBefore;
    forall i, j | 0 <= i < j < |subjects| ensures subjects[i].name != subjects[j].name {
      TextBeforeIsStrict(subjects[i].name);
    }
  }

  /** The tree after the statement and its sidecar are written at the root. */
  ghost function WithBundle(t: Tools, root: Node, statementName: string, sidecarName: string, s: Statement): Node
    requires root.Directory?
  {
    root.(entries := root.entries[statementName := File(0x180, t.encode(s))]
                                 [sidecarName := File(0x180, t.sha256(t.encode(s)) + "\n")])
  }

  predicate IsDirectoryEntry(root: Node, name: string)
    requires root.Directory?
  {
    name in root.entries && root.entries[name].Directory?
  }

  lemma {:induction false} CollectedAreSafe(safe: string -> bool, directory: Node, names: seq<string>, base: string,
                                            excluded: set<string>, depth: nat, p: string)
    requires directory.Directory? && forall n | n in names :: n in directory.entries
    requires CleanIn(safe, directory, names, base, excluded, depth) && p in FilesIn(directory, names, base, excluded)
    ensures safe(p)
    decreases directory, |names|
  {
    hide Listing;
    var node, path := directory.entries[names[0]], base + names[0];
    if p in FilesOf(node, path, excluded) {
      if node.Directory? {
        CollectedAreSafe(safe, node, Listing(node.entries), path + "/", excluded, depth + 1, p);
      }
    } else {
      CollectedAreSafe(safe, directory, names[1..], base, excluded, depth, p);
    }
  }

  method SubjectEntries(t: Tools, root: Node, files: set<string>) returns (subjects: seq<Subject>)
    requires root.Directory? && GoodTools(t)
    requires forall p | p in files :: RegularAt(root, p) && t.safe(p)
    ensures SortedByName(subjects) && Names(subjects) == files
    ensures forall i | 0 <= i < |subjects| :: SubjectHolds(t, root, subjects[i])
  {
    hide NodeAt, TextBefore, KeyBefore;
    var names := SortSet(files);
    subjects := [];
    for i := 0 to |names|
      invariant |subjects| == i && forall j | 0 <= j < i ::
        subjects[j].name == names[j] && SubjectHolds(t, root, subjects[j])
    {
      assert names[i] in names;
      subjects := subjects + [Subject(names[i], t.sha256(ContentAt(root, names[i])))];
    }
    forall i, j | 0 <= i < j < |subjects| ensures TextBefore(subjects[i].name, subjects[j].name) {
      NamesInOrder(names, i, j);
    }
    forall n ensures n in Names(subjects) <==> n in files {
      if n in files {
        var i :| 0 <= i < |names| && names[i] == n;
        assert subjects[i].name == n;
      }
      if n in Names(subjects) {
        var i :| 0 <= i < |subjects| && subjects[i].name == n;
        assert names[i] in names;
      }
    }
  }

  lemma NamesInOrder(names: seq<string>, i: nat, j: nat)
    requires Sorted(NameKeys(names)) && i < j < |names|
    ensures TextBefore(names[i], names[j])
  {
    hide TextBefore;
    var a, b := NameKeys(names)[i], NameKeys(names)[j];
    assert KeyBefore(a, b) && a[1..] == [] && b[1..] == [];
  }

  /** What creating a bundle asks for: an attestable tree and two names that regular files can be written to. */
  ghost predicate Creatable(t: Tools, root: Node, statementName: string, sidecarName: string)
    requires root.Directory?
  {
    && Attestable(t.safe, root, {statementName, sidecarName}) && statementName != sidecarName
    && !IsDirectoryEntry(root, statementName) && !IsDirectoryEntry(root, sidecarName)
  }

  method CreateAttestation(t: Tools, root: Node, statementName: string, sidecarName: string, evidence: string)
    returns (r: Option<Node>, ghost s: Statement)
    requires root.Directory? && WellNamed(root) && GoodTools(t)
    ensures r.Some? <==> Creatable(t, root, statementName, sidecarName)
    ensures r.Some? ==>
      && Describes(t, root, {statementName, sidecarName}, s) && s.evidence == evidence
      && r.value == WithBundle(t, root, statementName, sidecarName, s)
  {
    hide WellNamed, Attestable, Artifacts;
    s := Statement("", [], "");
    var excluded := {statementName, sidecarName};
    var scan := new ArtifactTreeScan(t.safe, excluded);
    scan.Visit(root, "", 0);
    ScanMeansAttestable(t.safe, root, excluded);
    if scan.unsafe != [] {
      return None, s;
    }
    forall p | p in scan.files ensures RegularAt(root, p) && t.safe(p) {
      CollectedAreRegular(root, Listing(root.entries), "", excluded, p);
      CollectedAreSafe(t.safe, root, Listing(root.entries), "", excluded, 0, p);
      assert p[|""|..] == p;
    }
    var subjects := SubjectEntries(t, root, scan.files);
    var statement := Statement(STATEMENT_TYPE, subjects, evidence);
    s := statement;
    if statementName == sidecarName || IsDirectoryEntry(root, statementName) || IsDirectoryEntry(root, sidecarName) {
      return None, s;
    }
    var data := t.encode(statement);
    var entries := root.entries[statementName := File(0x180, data)];
    entries := entries[sidecarName := File(0x180, t.sha256(data) + "\n")];
    r := Some(root.(entries := entries));
  }

  // ----- A created bundle verifies -----

  lemma {:induction false} CleanInAll(safe: string -> bool, directory: Node, names: seq<string>, base: string,
                                      excluded: set<string>, depth: nat)
    requires directory.Directory? && forall n | n in names :: n in directory.entries
    ensures CleanIn(safe, directory, names, base, excluded, depth) <==>
      depth <= MAX_DEPTH && forall n | n in names :: CleanNode(safe, directory.entries[n], base + n, excluded, depth)
    decreases |names|
  {
    hide CleanNode;
    if names != [] {
      CleanInAll(safe, directory, names[1..], base, excluded, depth);
      forall n ensures n in names <==> n == names[0] || n in names[1..] {
        assert names == [names[0]] + names[1..];
      }
    }
  }

  /** Writing at the root keeps a clean tree clean exactly when the written names are safe. */
  lemma WrittenIsClean(safe: string -> bool, before: Node, after: Node, excluded: set<string>)
    requires Overwrites(before, after, excluded)
    requires CleanIn(safe, before, Listing(before.entries), "", excluded, 0)
    ensures CleanIn(safe, after, Listing(after.entries), "", excluded, 0) <==> forall n | n in excluded :: safe(n)
  {
    CleanInAll(safe, before, Listing(before.entries), "", excluded, 0);
    CleanInAll(safe, after, Listing(after.entries), "", excluded, 0);
    forall n | n in Listing(after.entries)
      ensures CleanNode(safe, after.entries[n], "" + n, excluded, 0) <==> (n in excluded ==> safe(n))
    {
      hide CleanIn, Listing;
      assert "" + n == n;
      if n in excluded {
        assert CleanNode(safe, after.entries[n], n, excluded, 0) <==> safe(n);
      } else {
        assert n in Listing(before.entries);
        assert CleanNode(safe, before.entries[n], "" + n, excluded, 0);
      }
    }
    hide CleanIn, CleanNode, Listing;
    forall n | n in excluded ensures n in Listing(after.entries) {
      assert n in after.entries;
    }
  }

  // ----- How many entries a scan visits -----

  lemma {:induction false} VisitsWithout(directory: Node, names: seq<string>, excluded: set<string>, j: nat)
    requires directory.Directory? && j < |names| && forall n | n in names :: n in directory.entries
    ensures var others := names[..j] + names[j + 1..];
      && (forall n | n in others :: n in directory.entries)
      && VisitsIn(directory, names, "", excluded)
         == VisitsOf(directory.entries[names[j]], "" + names[j], excluded) + VisitsIn(directory, others, "", excluded)
    decreases |names|
  {
    hide VisitsOf;
    var others := names[..j] + names[j + 1..];
    forall n | n in others ensures n in directory.entries {
      assert n in names;
    }
    if j == 0 {
      assert others == names[1..];
    } else {
      VisitsWithout(directory, names[1..], excluded, j - 1);
      assert others[0] == names[0] && others[1..] == names[1..][..j - 1] + names[1..][j..];
    }
  }

  lemma {:induction false} NoVisitsInExcluded(directory: Node, names: seq<string>, excluded: set<string>)
    requires directory.Directory? && forall n | n in names :: n in directory.entries && n in excluded
    ensures VisitsIn(directory, names, "", excluded) == 0
    decreases |names|
  {
    if names != [] {
      assert "" + names[0] == names[0] && names[0] in names;
      NoVisitsInExcluded(directory, names[1..], excluded);
    }
  }

  lemma DistinctWithout(names: seq<string>, j: nat)
    requires Distinct(names) && j < |names|
    ensures var others := names[..j] + names[j + 1..];
      Distinct(others) && forall n :: n in others <==> n in names && n != names[j]
  {
    var others := names[..j] + names[j + 1..];
    assert names == names[..j] + [names[j]] + names[j + 1..];
    assert forall i | 0 <= i < |others| :: others[i] == names[if i < j then i else i + 1];
  }

  /** Two directories that agree outside the excluded names have as much to visit below them. */
  lemma {:induction false} SameVisitsBelow(a: Node, namesA: seq<string>, b: Node, namesB: seq<string>,
                                           excluded: set<string>)
    requires a.Directory? && Distinct(namesA) && forall n | n in namesA :: n in a.entries
    requires b.Directory? && Distinct(namesB) && forall n | n in namesB :: n in b.entries
    requires forall n | n !in excluded :: n in namesA <==> n in namesB
    requires forall n | n in namesA && n !in excluded :: n in b.entries && a.entries[n] == b.entries[n]
    ensures VisitsIn(a, namesA, "", excluded) == VisitsIn(b, namesB, "", excluded)
    decreases |namesA|
  {
    hide VisitsOf, Distinct;
    if namesA == [] {
      NoVisitsInExcluded(b, namesB, excluded);
    } else {
      var name, rest := namesA[0], namesA[1..];
      DistinctWithout(namesA, 0);
      assert namesA[..0] + rest == rest && "" + name == name;
      if name in excluded {
        assert VisitsOf(a.entries[name], "" + name, excluded) == 0
          by { NoVisitsOfExcluded(a.entries[name], name, excluded); }
        SameVisitsBelow(a, rest, b, namesB, excluded);
      } else {
        var j :| 0 <= j < |namesB| && namesB[j] == name;
        var others := namesB[..j] + namesB[j + 1..];
        VisitsWithout(b, namesB, excluded, j);
        DistinctWithout(namesB, j);
        SameVisitsBelow(a, rest, b, others, excluded);
      }
    }
  }

  lemma NoVisitsOfExcluded(node: Node, path: string, excluded: set<string>)
    requires path in excluded
    ensures VisitsOf(node, path, excluded) == 0
  {
  }

  lemma AddedKeys(before: map<string, Node>, after: map<string, Node>, added: set<string>)
    requires after.Keys == before.Keys + added
    ensures |after| == |before| + |added - before.Keys|
  {
    assert after.Keys == before.Keys + (added - before.Keys);
    assert |after.Keys| == |after| && |before.Keys| == |before|;
  }

  /** Writing the bundle adds the entries that were not there before. */
  lemma VisitsAfterWriting(before: Node, after: Node, excluded: set<string>)
    requires Overwrites(before, after, excluded)
    ensures Visits(after, "", excluded) == Visits(before, "", excluded) + |excluded - before.entries.Keys|
  {
    hide VisitsIn, IsDirectoryEntry, Distinct;
    var namesBefore, namesAfter := Listing(before.entries), Listing(after.entries);
    ListingIsDistinct(namesBefore, before.entries);
    ListingIsDistinct(namesAfter, after.entries);
    forall n | n !in excluded ensures n in namesBefore <==> n in namesAfter {
      assert n in before.entries <==> n in after.entries;
    }
    SameVisitsBelow(before, namesBefore, after, namesAfter, excluded);
    AddedKeys(before.entries, after.entries, excluded);
  }

  /** Writing root-level files changes no other regular file. */
  lemma OtherFilesStay(before: Node, after: Node, excluded: set<string>, p: string)
    requires Overwrites(before, after, excluded) && p !in excluded
    ensures RegularAt(after, p) <==> RegularAt(before, p)
    ensures RegularAt(after, p) ==> NodeAt(after, p) == NodeAt(before, p)
  {
    var name := FirstSegment(p);
    assert p == name + p[|name|..];
    if p[|name|..] == "" {
      assert p == name;
    }
  }

  lemma NodeAtName(root: Node, name: string)
    requires root.Directory? && GoodName(name)
    ensures NodeAt(root, name) == if name in root.entries then Some(root.entries[name]) else None
  {
    FirstSegmentIs(name, "");
    assert name + "" == name;
  }

  /** `after` is `before` with regular files written over the excluded root-level names. */
  ghost predicate Overwrites(before: Node, after: Node, excluded: set<string>) {
    && before.Directory? && after.Directory? && before.entries.Keys + excluded == after.entries.Keys
    && (forall n | n in after.entries && n !in excluded :: after.entries[n] == before.entries[n])
    && (forall n | n in excluded :: GoodName(n) && after.entries[n].File? && !IsDirectoryEntry(before, n))
  }

  lemma BundleOverwrites(t: Tools, root: Node, statementName: string, sidecarName: string, s: Statement)
    requires root.Directory? && GoodTools(t) && GoodName(statementName) && GoodName(sidecarName)
      && statementName != sidecarName
    requires !IsDirectoryEntry(root, statementName) && !IsDirectoryEntry(root, sidecarName)
    ensures var after := WithBundle(t, root, statementName, sidecarName, s);
      && Overwrites(root, after, {statementName, sidecarName})
      && RegularAt(after, statementName) && ContentAt(after, statementName) == t.encode(s)
      && RegularAt(after, sidecarName) && NamesDigest(ContentAt(after, sidecarName), t.sha256(t.encode(s)))
  {
    var after := WithBundle(t, root, statementName, sidecarName, s);
    NodeAtName(after, statementName);
    NodeAtName(after, sidecarName);
    WrittenNamesDigest(t.sha256(t.encode(s)));
  }

  lemma WrittenNamesDigest(digest: Digest)
    requires IsDigest(digest)
    ensures NamesDigest(digest + "\n", digest)
  {
    var content := digest + "\n";
    forall c | c in content ensures c as int <= 127 {
      assert c in digest || c == '\n';
      if c in digest {
        HexDigitMeans(c);
      }
    }
    assert content == "" + digest + "\n";
    assert digest[0] in digest && digest[63] in digest;
    NoDigitIsSpace(digest[0]);
    NoDigitIsSpace(digest[63]);
    assert DiffGrammar.AllSpace("") && DiffGrammar.AllSpace("\n") by { assert DiffGrammar.SPACES[1] == 10; }
  }

  lemma NoDigitIsSpace(c: char)
    requires c in HEX_DIGITS
    ensures !DiffGrammar.IsWhite(c)
  {
    HexDigitMeans(c);
    DiffGrammar.SpaceMeans(c);
  }

  lemma OverwritesKeepsNames(before: Node, after: Node, excluded: set<string>)
    requires Overwrites(before, after, excluded) && WellNamed(before)
    ensures WellNamed(after)
    ensures forall e | e in excluded :: !(NodeAt(before, e).Some? && NodeAt(before, e).value.Directory?)
    ensures forall e | e in excluded :: !(NodeAt(after, e).Some? && NodeAt(after, e).value.Directory?)
  {
    forall e | e in excluded
      ensures !(NodeAt(before, e).Some? && NodeAt(before, e).value.Directory?)
      ensures !(NodeAt(after, e).Some? && NodeAt(after, e).value.Directory?)
    {
      NodeAtName(before, e);
      NodeAtName(after, e);
    }
    hide NodeAt;
  }

  lemma SameArtifacts(before: Node, after: Node, excluded: set<string>)
    requires Overwrites(before, after, excluded) && WellNamed(before)
    ensures Artifacts(after, excluded) == Artifacts(before, excluded)
    ensures forall p | p in Artifacts(before, excluded) ::
      RegularAt(before, p) && RegularAt(after, p) && ContentAt(after, p) == ContentAt(before, p)
  {
    OverwritesKeepsNames(before, after, excluded);
    forall p
      ensures p in Artifacts(after, excluded) <==> p in Artifacts(before, excluded)
      ensures p in Artifacts(before, excluded) ==>
        RegularAt(before, p) && RegularAt(after, p) && ContentAt(after, p) == ContentAt(before, p)
    {
      hide NodeAt, Artifacts, WellNamed;
      CollectedExactly(before, excluded, p);
      CollectedExactly(after, excluded, p);
      if p !in excluded {
        OtherFilesStay(before, after, excluded, p);
      }
    }
  }

  lemma SubjectsStillHold(t: Tools, before: Node, after: Node, excluded: set<string>, s: Statement)
    requires Overwrites(before, after, excluded) && WellNamed(before) && Describes(t, before, excluded, s)
    ensures SubjectsHold(t, after, s.subjects) <==> |Artifacts(before, excluded)| <= MAX_SUBJECTS
    ensures Artifacts(after, excluded) <= Names(s.subjects)
  {
    hide NodeAt, Artifacts, WellNamed;
    SameArtifacts(before, after, excluded);
    forall i | 0 <= i < |s.subjects| ensures SubjectHolds(t, after, s.subjects[i]) {
      assert SubjectHolds(t, before, s.subjects[i]);
      assert s.subjects[i].name in Names(s.subjects);
    }
    SortedAreDistinct(s.subjects);
    NamesCount(s.subjects);
  }

  /**
   * Main result: with nothing changed since, a created bundle verifies exactly when it has at most 10,000 subjects,
   * there was room for its own entries, their names are safe, the statement is at most 16 MiB, and its evidence holds.
   */
  lemma CreatedBundleVerifies(t: Tools, root: Node, statementName: string, sidecarName: string, s: Statement)
    requires root.Directory? && WellNamed(root) && GoodTools(t) && GoodName(statementName) && GoodName(sidecarName)
    requires Creatable(t, root, statementName, sidecarName) && Describes(t, root, {statementName, sidecarName}, s)
    ensures var own := {statementName, sidecarName};
      Verified(t, WithBundle(t, root, statementName, sidecarName, s), statementName, sidecarName, s) <==>
        && |Artifacts(root, own)| <= MAX_SUBJECTS
        && Visits(root, "", own) + |own - root.entries.Keys| <= MAX_ENTRIES
        && t.safe(statementName) && t.safe(sidecarName)
        && |t.encode(s)| <= MAX_STATEMENT_BYTES
        && t.evidenceHolds(s.evidence)
  {
    hide Artifacts, WellNamed, NodeAt, Visits, CleanIn, Listing, SubjectsHold, WithBundle, Names, NamesDigest;
    hide IsDirectoryEntry;
    var after, own := WithBundle(t, root, statementName, sidecarName, s), {statementName, sidecarName};
    BundleOverwrites(t, root, statementName, sidecarName, s);
    WrittenIsClean(t.safe, root, after, own);
    VisitsAfterWriting(root, after, own);
    SubjectsStillHold(t, root, after, own, s);
    assert (forall n | n in own :: t.safe(n)) <==> t.safe(statementName) && t.safe(sidecarName);
  }

  lemma {:induction false} NamesCount(subjects: seq<Subject>)
    requires DistinctNames(subjects)
    ensures |Names(subjects)| == |subjects|
  {
    if subjects == [] {
      assert Names(subjects) == {};
    } else {
      var n := |subjects| - 1;
      OneMoreName(subjects, n);
      assert subjects[..n + 1] == subjects;
      NamesCount(subjects[..n]);
    }
  }

  lemma ReadNamesAreFiles(root: Node, statementName: string, sidecarName: string)
    requires root.Directory? && RegularAt(root, statementName) && RegularAt(root, sidecarName)
    ensures forall e | e in {statementName, sidecarName} :: !(NodeAt(root, e).Some? && NodeAt(root, e).value.Directory?)
  {
  }

  /** Main result: after a successful verification the other regular files are exactly the subjects, as attested. */
  lemma VerifiedMeansExact(t: Tools, root: Node, statementName: string, sidecarName: string, s: Statement, p: string)
    requires root.Directory? && WellNamed(root)
    requires Verified(t, root, statementName, sidecarName, s) && p != statementName && p != sidecarName
    ensures RegularAt(root, p) <==> p in Names(s.subjects)
    ensures forall i | 0 <= i < |s.subjects| && s.subjects[i].name == p ::
      RegularAt(root, p) && t.sha256(ContentAt(root, p)) == s.subjects[i].digest
  {
    hide NodeAt, Artifacts, WellNamed, Attestable, RegularAt, ContentAt;
    ReadNamesAreFiles(root, statementName, sidecarName);
    CollectedExactly(root, {statementName, sidecarName}, p);
    SubjectsAreThere(t, root, s.subjects, p);
  }

  lemma SubjectsAreThere(t: Tools, root: Node, subjects: seq<Subject>, p: string)
    requires root.Directory? && SubjectsHold(t, root, subjects)
    ensures p in Names(subjects) ==> RegularAt(root, p)
    ensures forall i | 0 <= i < |subjects| && subjects[i].name == p ::
      RegularAt(root, p) && t.sha256(ContentAt(root, p)) == subjects[i].digest
  {
    hide NodeAt;
    forall i | 0 <= i < |subjects| && subjects[i].name == p
      ensures RegularAt(root, p) && t.sha256(ContentAt(root, p)) == subjects[i].digest
    {
      assert SubjectHolds(t, root, subjects[i]);
    }
  }
}
