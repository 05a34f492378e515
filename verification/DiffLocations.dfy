/** Head-side locations of the lines that a unified diff adds, checked against a printer of structured diffs. */
module DiffLocations {
  import opened Wrappers
  import opened DiffText

  type Location = (string, nat)

  // ----- The parser -----

  /** The variables of the location parser. */
  datatype State = State(path: Option<string>, headLine: Option<nat>, inHunk: bool, locations: set<Location>)

  const START: State := State(None, None, false, {})

  /** The path that a `+++` line names. */
  function HeadPath(line: string): Option<string>
    requires "+++ " <= line
  {
    var raw := Strip(line[4..]);
    if raw == "/dev/null" then None else Some(if "b/" <= raw then raw[2..] else raw)
  }

  function Step(s: State, line: string): State {
    if "diff --git " <= line then State(None, None, false, s.locations)
    else if !s.inHunk && "+++ " <= line then s.(path := HeadPath(line))
    else if HunkStart(line).Some? then
      s.(headLine := if s.path.Some? && s.path.value != "" then HunkStart(line) else None, inHunk := true)
    else if s.path.Some? && s.headLine.Some? then
      if "+" <= line then
        s.(locations := s.locations + {(s.path.value, s.headLine.value)}, headLine := Some(s.headLine.value + 1))
      else if "-" <= line || "\\ No newline" <= line then s
      else s.(headLine := Some(s.headLine.value + 1))
    else s
  }

  /** The state after some lines. */
  function Run(s: State, lines: seq<string>): State {
    if lines == [] then s else Step(Run(s, lines[..|lines| - 1]), lines[|lines| - 1])
  }

  lemma RunNext(s: State, lines: seq<string>, i: nat)
    requires i < |lines|
    ensures Run(s, lines[..i + 1]) == Step(Run(s, lines[..i]), lines[i])
  {
    hide Step;
    assert lines[..i + 1][..i] == lines[..i];
  }

  method AddedLines(diff: string) returns (locations: set<Location>)
    ensures locations == Run(START, SplitLines(diff)).locations
  {
    locations := {};
    var currentPath: Option<string> := None;
    var headLine: Option<nat> := None;
    var inHunk := false;
    var lines := SplitLines(diff);
    hide HunkStart, Strip, SplitLines;
    for i := 0 to |lines|
      invariant State(currentPath, headLine, inHunk, locations) == Run(START, lines[..i])
    {
      hide Run;
      var line := lines[i];
      RunNext(START, lines, i);
      if "diff --git " <= line {
        currentPath, headLine, inHunk := None, None, false;
      } else if !inHunk && "+++ " <= line {
        var raw := Strip(line[4..]);
        currentPath := Some(if "b/" <= raw then raw[2..] else raw);
        if raw == "/dev/null" {
          currentPath := None;
        }
      } else if HunkStart(line).Some? {
        headLine := if currentPath.Some? && currentPath.value != "" then HunkStart(line) else None;
        inHunk := true;
      } else if currentPath.Some? && headLine.Some? {
        if "+" <= line {
          locations := locations + {(currentPath.value, headLine.value)};
          headLine := Some(headLine.value + 1);
        } else if "-" <= line {
          continue;
        } else if !("\\ No newline" <= line) {
          headLine := Some(headLine.value + 1);
        }
      }
    }
    assert lines[..|lines|] == lines;
  }

  /** The state of the nonblank counter. */
  datatype Tally = Tally(inHunk: bool, count: nat)

  function CountStep(t: Tally, line: string): Tally {
    if "diff --git " <= line then t.(inHunk := false)
    else if HunkStart(line).Some? then t.(inHunk := true)
    else if t.inHunk && "+" <= line && Strip(line[1..]) != "" then t.(count := t.count + 1)
    else t
  }

  function CountRun(t: Tally, lines: seq<string>): Tally {
    if lines == [] then t else CountStep(CountRun(t, lines[..|lines| - 1]), lines[|lines| - 1])
  }

  lemma CountNext(t: Tally, lines: seq<string>, i: nat)
    requires i < |lines|
    ensures CountRun(t, lines[..i + 1]) == CountStep(CountRun(t, lines[..i]), lines[i])
  {
    hide CountStep;
    assert lines[..i + 1][..i] == lines[..i];
  }

  method ChangedNonblankLines(diff: string) returns (count: nat)
    ensures count == CountRun(Tally(false, 0), SplitLines(diff)).count
  {
    count := 0;
    var inHunk := false;
    var lines := SplitLines(diff);
    hide HunkStart, Strip, SplitLines;
    for i := 0 to |lines|
      invariant Tally(inHunk, count) == CountRun(Tally(false, 0), lines[..i])
    {
      hide CountRun;
      var line := lines[i];
      CountNext(Tally(false, 0), lines, i);
      if "diff --git " <= line {
        inHunk := false;
      } else if HunkStart(line).Some? {
        inHunk := true;
      } else if inHunk && "+" <= line && Strip(line[1..]) != "" {
        count := count + 1;
      }
    }
    assert lines[..|lines|] == lines;
  }

  // ----- Structured diffs and their printer -----

  /** A line of a hunk; a bare one is a context line printed without its leading space. */
  datatype DiffLine =
    | Context(text: string) | Bare(text: string) | Added(text: string) | Removed(text: string) | NoNewline(note: string)

  datatype Hunk = Hunk(
    oldStart: nat, oldCount: Option<nat>, start: nat, count: Option<nat>, section: string, lines: seq<DiffLine>)

  /** What a file's header says of its head side: nothing, that it is gone, or its path. */
  datatype Target = Unnamed | Deleted | Named(path: string, tab: bool)

  datatype FileDiff = FileDiff(names: string, headers: seq<string>, target: Target, hunks: seq<Hunk>)

  function PrintLine(line: DiffLine): string {
    match line
    case Context(text) => " " + text
    case Bare(text) => text
    case Added(text) => "+" + text
    case Removed(text) => "-" + text
    case NoNewline(note) => "\\ No newline" + note
  }

  function PrintLines(lines: seq<DiffLine>): seq<string> {
    seq(|lines|, i requires 0 <= i < |lines| => PrintLine(lines[i]))
  }

  function PrintHunk(h: Hunk): seq<string> {
    [HunkHeader(Range(h.oldStart, h.oldCount), Range(h.start, h.count), h.section)] + PrintLines(h.lines)
  }

  function PrintHunks(hunks: seq<Hunk>): seq<string> {
    if hunks == [] then [] else PrintHunks(hunks[..|hunks| - 1]) + PrintHunk(hunks[|hunks| - 1])
  }

  function PrintTarget(t: Target): seq<string> {
    match t
    case Unnamed => []
    case Deleted => ["+++ /dev/null"]
    case Named(path, tab) => ["+++ b/" + path + if tab then "\t" else ""]
  }

  function PrintFile(f: FileDiff): seq<string> {
    ["diff --git " + f.names] + f.headers + PrintTarget(f.target) + PrintHunks(f.hunks)
  }

  function PrintDiff(files: seq<FileDiff>): seq<string> {
    if files == [] then [] else PrintDiff(files[..|files| - 1]) + PrintFile(files[|files| - 1])
  }

  /** A line before the head path that neither opens a file or a hunk nor names a head path. */
  predicate IsHeader(line: string) {
    !("diff --git " <= line) && !("+++ " <= line) && HunkStart(line).None?
  }

  /** The line of a hunk that a printed line is taken for. */
  function ReadLine(text: string): DiffLine {
    if "+" <= text then Added(text[1..])
    else if "-" <= text then Removed(text[1..])
    else if "\\ No newline" <= text then NoNewline(text[12..])
    else if " " <= text then Context(text[1..])
    else Bare(text)
  }

  /** A line that ends the hunk it stands in, by opening a file or another hunk. */
  predicate Opens(text: string) {
    "diff --git " <= text || HunkStart(text).Some?
  }

  /** A line with the mark of its kind, which only a bare one might not have. */
  predicate Marked(line: DiffLine) {
    ReadLine(PrintLine(line)) == line
  }

  /** A line that is taken for what it is. */
  predicate Plain(line: DiffLine) {
    Marked(line) && !Opens(PrintLine(line))
  }

  predicate PlainHunk(h: Hunk) {
    forall i | 0 <= i < |h.lines| :: Plain(h.lines[i])
  }

  lemma MarkedIsPlain(line: DiffLine)
    requires !line.Bare?
    ensures Plain(line)
  {
    var text := PrintLine(line);
    assert text[0] == ' ' || text[0] == '+' || text[0] == '-' || text[0] == '\\';
    assert "diff --git "[0] == 'd' && "@@ -"[0] == '@' && "\\ No newline"[0] == '\\';
    assert HunkStart(text).None?;
    match line
    case NoNewline(note) => assert text[12..] == note;
    case _ => assert text[1..] == line.text;
  }

  /** Headers are plain, an unquoted path has no white space at its end, and only a named or deleted file has hunks. */
  ghost predicate WellHeaded(f: FileDiff) {
    && (forall i | 0 <= i < |f.headers| :: IsHeader(f.headers[i]))
    && (f.target.Named? ==> f.target.path != "" && !IsSpace(f.target.path[|f.target.path| - 1]))
    && (f.target.Unnamed? ==> f.hunks == [])
  }

  ghost predicate WellFormed(f: FileDiff) {
    WellHeaded(f) && forall j | 0 <= j < |f.hunks| :: PlainHunk(f.hunks[j])
  }

  // ----- What the parser should find -----

  /** The lines of the head file that a hunk shows. */
  function HeadText(lines: seq<DiffLine>): seq<string> {
    if lines == [] then []
    else
      var last := lines[|lines| - 1];
      HeadText(lines[..|lines| - 1]) +
      match last
      case Context(text) => [text]
      case Bare(text) => [text]
      case Added(text) => [text]
      case Removed(_) => []
      case NoNewline(_) => []
  }

  /** The head-side number of line `i` of a hunk. */
  function HeadNumber(h: Hunk, i: nat): nat
    requires i <= |h.lines|
  {
    h.start + |HeadText(h.lines[..i])|
  }

  /** Line `i` of the hunk is added, at this head-side number. */
  ghost predicate AddsAt(h: Hunk, i: int, n: nat) {
    0 <= i < |h.lines| && h.lines[i].Added? && HeadNumber(h, i) == n
  }

  ghost predicate HunkAdds(h: Hunk, n: nat) {
    exists i :: AddsAt(h, i, n)
  }

  ghost predicate FileAdds(f: FileDiff, at: Location) {
    f.target.Named? && f.target.path == at.0 && exists j | 0 <= j < |f.hunks| :: HunkAdds(f.hunks[j], at.1)
  }

  /** Some file of the diff adds a line at this location. */
  ghost predicate DiffAdds(files: seq<FileDiff>, at: Location) {
    exists k | 0 <= k < |files| :: FileAdds(files[k], at)
  }

  // ----- Lines that open a file or a hunk inside a hunk -----

  predicate OpensFile(line: DiffLine) {
    "diff --git " <= PrintLine(line)
  }

  ghost predicate OpenedIn(lines: seq<DiffLine>, m: nat)
    requires m <= |lines|
  {
    exists i | 0 <= i < m :: Opens(PrintLine(lines[i]))
  }

  ghost predicate ClosedIn(lines: seq<DiffLine>, m: nat)
    requires m <= |lines|
  {
    exists i | 0 <= i < m :: OpensFile(lines[i])
  }

  /** No line is added after one that opens a file or a hunk. */
  ghost predicate Calm(lines: seq<DiffLine>) {
    forall i, k | 0 <= i < k < |lines| && Opens(PrintLine(lines[i])) :: !lines[k].Added?
  }

  /** No line is added after one that opens a file. */
  ghost predicate CalmWhenClosed(lines: seq<DiffLine>) {
    forall i, k | 0 <= i < k < |lines| && OpensFile(lines[i]) :: !lines[k].Added?
  }

  ghost predicate ClosedInHunks(hunks: seq<Hunk>, m: nat)
    requires m <= |hunks|
  {
    exists j | 0 <= j < m :: ClosedIn(hunks[j].lines, |hunks[j].lines|)
  }

  ghost predicate NoneAdded(lines: seq<DiffLine>) {
    forall k | 0 <= k < |lines| :: !lines[k].Added?
  }

  /** Once a line of these hunks has opened a file, they add no more lines. */
  ghost predicate StaysClosed(hunks: seq<Hunk>) {
    && (forall j | 0 <= j < |hunks| :: CalmWhenClosed(hunks[j].lines))
    && (forall l | 0 <= l < |hunks| && ClosedInHunks(hunks, l) :: NoneAdded(hunks[l].lines))
  }

  ghost predicate MarkedHunk(h: Hunk) {
    forall i | 0 <= i < |h.lines| :: Marked(h.lines[i])
  }

  ghost predicate MarkedFile(f: FileDiff) {
    WellHeaded(f) && forall j | 0 <= j < |f.hunks| :: MarkedHunk(f.hunks[j])
  }

  /** What lines open inside hunks comes after what the hunks add. */
  ghost predicate Readable(f: FileDiff) {
    && MarkedFile(f) && (f.target.Named? ==> forall j | 0 <= j < |f.hunks| :: Calm(f.hunks[j].lines))
    && StaysClosed(f.hunks)
  }

  lemma PlainOpensNothing(h: Hunk)
    requires PlainHunk(h)
    ensures MarkedHunk(h) && Calm(h.lines) && CalmWhenClosed(h.lines) && !ClosedIn(h.lines, |h.lines|)
  {
    hide HunkStart;
    forall i | 0 <= i < |h.lines|
      ensures Marked(h.lines[i]) && !Opens(PrintLine(h.lines[i])) && !OpensFile(h.lines[i])
    {
      assert Plain(h.lines[i]);
    }
  }

  lemma WellFormedIsReadable(f: FileDiff)
    requires WellFormed(f)
    ensures Readable(f)
  {
    hide PlainHunk, MarkedHunk, Calm, CalmWhenClosed, ClosedIn, IsHeader;
    forall j | 0 <= j < |f.hunks|
      ensures MarkedHunk(f.hunks[j]) && Calm(f.hunks[j].lines) && CalmWhenClosed(f.hunks[j].lines)
        && !ClosedIn(f.hunks[j].lines, |f.hunks[j].lines|)
    {
      PlainOpensNothing(f.hunks[j]);
    }
  }

  // ----- Running the parser over what was printed -----

  lemma {:induction false} RunAppend(s: State, a: seq<string>, b: seq<string>)
    ensures Run(s, a + b) == Run(Run(s, a), b)
  {
    hide Step;
    if b == [] {
      assert a + b == a;
    } else {
      assert (a + b)[..|a + b| - 1] == a + b[..|b| - 1];
      RunAppend(s, a, b[..|b| - 1]);
    }
  }

  lemma RunOne(s: State, line: string)
    ensures Run(s, [line]) == Step(s, line)
  {
    hide Step;
    assert [line][..0] == [];
    assert Run(s, []) == s;
  }

  /** The states that only differ in what follows from one more printed line of a hunk. */
  function AfterLine(s: State, line: DiffLine): State
    requires s.path.Some? && s.headLine.Some?
  {
    var next := s.(headLine := Some(s.headLine.value + 1));
    match line
    case Added(_) => next.(locations := s.locations + {(s.path.value, s.headLine.value)})
    case Removed(_) => s
    case NoNewline(_) => s
    case Context(_) => next
    case Bare(_) => next
  }

  lemma StepLine(s: State, line: DiffLine)
    requires s.inHunk && Plain(line) && s.path.Some? && s.headLine.Some?
    ensures Step(s, PrintLine(line)) == AfterLine(s, line)
  {
    hide HunkStart;
  }

  /** What is not marked as added adds no location, and unsets the path only where it opens a file. */
  lemma StepQuiet(s: State, line: DiffLine)
    requires Marked(line) && !line.Added?
    ensures Step(s, PrintLine(line)).locations == s.locations
    ensures Step(s, PrintLine(line)).path == if OpensFile(line) then None else s.path
  {
    hide HunkStart, HeadPath;
    var text := PrintLine(line);
    assert "+" <= text <==> text != "" && text[0] == '+';
    assert "+++ "[0] == '+';
  }

  /** A line that opens something is not added. */
  lemma OpeningIsQuiet(line: DiffLine)
    requires Marked(line) && Opens(PrintLine(line))
    ensures !line.Added?
  {
    assert "diff --git "[0] == 'd' && "@@ -"[0] == '@';
  }

  /** The state inside a named file after the first `m` lines of a hunk. */
  ghost predicate InHunk(s: State, before: set<Location>, path: string, h: Hunk, m: nat)
    requires m <= |h.lines|
  {
    && s.path == (if ClosedIn(h.lines, m) then None else Some(path))
    && (!OpenedIn(h.lines, m) ==> s.headLine == Some(HeadNumber(h, m)) && s.inHunk)
    && forall at :: at in s.locations <==> at in before || (at.0 == path && exists i :: i < m && AddsAt(h, i, at.1))
  }

  lemma HeadNumberNext(h: Hunk, m: nat)
    requires m < |h.lines|
    ensures HeadNumber(h, m + 1) == HeadNumber(h, m) + (if h.lines[m].Removed? || h.lines[m].NoNewline? then 0 else 1)
  {
    assert h.lines[..m + 1][..m] == h.lines[..m];
  }

  lemma {:induction false} RunLines(s: State, path: string, h: Hunk, m: nat)
    requires m <= |h.lines| && s.path == Some(path) && s.headLine == Some(h.start) && s.inHunk
    requires MarkedHunk(h) && Calm(h.lines)
    ensures InHunk(Run(s, PrintLines(h.lines)[..m]), s.locations, path, h, m)
  {
    hide Step, HeadText, HeadNumber, Marked, Opens, PrintLine;
    var printed := PrintLines(h.lines);
    if m == 0 {
      NoHeadText(h);
      assert printed[..0] == [];
    } else {
      RunLines(s, path, h, m - 1);
      assert printed[..m][..m - 1] == printed[..m - 1];
      RunOneLine(Run(s, printed[..m - 1]), s.locations, path, h, m - 1);
    }
  }

  lemma OpenedNext(lines: seq<DiffLine>, m: nat)
    requires m < |lines|
    ensures OpenedIn(lines, m + 1) <==> OpenedIn(lines, m) || Opens(PrintLine(lines[m]))
    ensures ClosedIn(lines, m + 1) <==> ClosedIn(lines, m) || OpensFile(lines[m])
    ensures ClosedIn(lines, m) ==> OpenedIn(lines, m)
  {
    hide HunkStart, PrintLine;
  }

  lemma RunOneLine(t: State, before: set<Location>, path: string, h: Hunk, m: nat)
    requires m < |h.lines| && MarkedHunk(h) && Calm(h.lines) && InHunk(t, before, path, h, m)
    ensures InHunk(Step(t, PrintLine(h.lines[m])), before, path, h, m + 1)
  {
    hide Step, HeadText, HeadNumber, Marked, PrintLine, HunkStart, AddsAt;
    var line := h.lines[m];
    OpenedNext(h.lines, m);
    HeadNumberNext(h, m);
    if OpenedIn(h.lines, m) || Opens(PrintLine(line)) {
      assert !line.Added? by {
        if Opens(PrintLine(line)) {
          OpeningIsQuiet(line);
        }
      }
      StepQuiet(t, line);
      NotAddedThere(h, m);
    } else {
      StepLine(t, line);
      hide OpenedIn, ClosedIn;
      OneMoreLine(t, before, path, h, m);
    }
  }

  lemma NotAddedThere(h: Hunk, m: nat)
    requires m < |h.lines| && !h.lines[m].Added?
    ensures forall i, n | AddsAt(h, i, n) :: i != m
  {
  }

  lemma NoHeadText(h: Hunk)
    ensures HeadNumber(h, 0) == h.start
  {
  }

  lemma OneMoreLine(t: State, before: set<Location>, path: string, h: Hunk, m: nat)
    requires m < |h.lines| && t.path == Some(path) && t.headLine == Some(HeadNumber(h, m)) && t.inHunk
    requires forall at :: at in t.locations <==>
      at in before || (at.0 == path && exists i :: i < m && AddsAt(h, i, at.1))
    requires HeadNumber(h, m + 1) == HeadNumber(h, m) + (if h.lines[m].Removed? || h.lines[m].NoNewline? then 0 else 1)
    ensures var u := AfterLine(t, h.lines[m]);
      && u.path == Some(path) && u.headLine == Some(HeadNumber(h, m + 1)) && u.inHunk
      && forall at :: at in u.locations <==>
           at in before || (at.0 == path && exists i :: i < m + 1 && AddsAt(h, i, at.1))
  {
    hide HeadText, HeadNumber;
    var u := AfterLine(t, h.lines[m]);
    forall at
      ensures at in u.locations <==> at in before || (at.0 == path && exists i :: i < m + 1 && AddsAt(h, i, at.1))
    {
      assert AddsAt(h, m, at.1) <==> h.lines[m].Added? && HeadNumber(h, m) == at.1;
      if at in before || (at.0 == path && exists i :: i < m + 1 && AddsAt(h, i, at.1)) {
        if at !in before {
          var i :| i < m + 1 && AddsAt(h, i, at.1);
          assert i < m || i == m;
        }
      }
    }
  }

  /** The header of a hunk, wherever it is reached inside a file. */
  lemma StepHunkHeader(s: State, h: Hunk)
    requires s.path.Some? ==> s.path.value != ""
    ensures Step(s, PrintHunk(h)[0]) == s.(headLine := if s.path.Some? then Some(h.start) else None, inHunk := true)
  {
    hide HunkStart, Range;
    HunkStartOf(h.oldStart, h.oldCount, h.start, h.count, h.section);
    var line := PrintHunk(h)[0];
    assert line[0] == '@' && "diff --git "[0] == 'd' && "+++ "[0] == '+';
  }

  /** The state inside a named file after the first hunks of it. */
  ghost predicate InFile(s: State, before: set<Location>, path: string, hunks: seq<Hunk>, m: nat)
    requires m <= |hunks|
  {
    && s.path == (if ClosedInHunks(hunks, m) then None else Some(path))
    && forall at ::
         at in s.locations <==> at in before || (at.0 == path && exists j :: 0 <= j < m && HunkAdds(hunks[j], at.1))
  }

  lemma RunHunk(s: State, path: string, h: Hunk)
    requires s.path == Some(path) && path != "" && MarkedHunk(h) && Calm(h.lines)
    ensures Run(s, PrintHunk(h)).path == if ClosedIn(h.lines, |h.lines|) then None else Some(path)
    ensures forall at :: at in Run(s, PrintHunk(h)).locations <==>
      at in s.locations || (at.0 == path && HunkAdds(h, at.1))
  {
    hide Step, HunkStart, Range, HeadNumber, MarkedHunk, Calm, ClosedIn, OpenedIn;
    var header := PrintHunk(h)[0];
    var printed := PrintLines(h.lines);
    assert PrintHunk(h) == [header] + printed;
    RunAppend(s, [header], printed);
    RunOne(s, header);
    StepHunkHeader(s, h);
    var t := Step(s, header);
    RunLines(t, path, h, |h.lines|);
    assert printed[..|h.lines|] == printed;
    forall n ensures HunkAdds(h, n) <==> exists i :: i < |h.lines| && AddsAt(h, i, n) {
      assert forall i | AddsAt(h, i, n) :: i < |h.lines|;
    }
  }

  lemma {:induction false} RunHunks(s: State, path: string, hunks: seq<Hunk>, m: nat)
    requires m <= |hunks| && s.path == Some(path) && path != "" && StaysClosed(hunks)
    requires forall j | 0 <= j < |hunks| :: MarkedHunk(hunks[j]) && Calm(hunks[j].lines)
    ensures InFile(Run(s, PrintHunks(hunks[..m])), s.locations, path, hunks, m)
  {
    hide Step, PrintHunk, HunkAdds, MarkedHunk, Calm, ClosedIn, CalmWhenClosed, NoneAdded;
    if m == 0 {
      assert PrintHunks(hunks[..0]) == [];
    } else {
      var some := hunks[..m];
      assert some[..m - 1] == hunks[..m - 1];
      RunHunks(s, path, hunks, m - 1);
      var t := Run(s, PrintHunks(hunks[..m - 1]));
      RunAppend(s, PrintHunks(hunks[..m - 1]), PrintHunk(hunks[m - 1]));
      if ClosedInHunks(hunks, m - 1) {
        RunNamelessHunk(t, hunks[m - 1]);
        AddsNothing(hunks[m - 1]);
      } else {
        RunHunk(t, path, hunks[m - 1]);
      }
    }
  }

  lemma AddsNothing(h: Hunk)
    requires NoneAdded(h.lines)
    ensures forall n :: !HunkAdds(h, n)
  {
  }

  lemma {:induction false} RunHeaders(s: State, headers: seq<string>)
    requires s.path.None? && forall i | 0 <= i < |headers| :: IsHeader(headers[i])
    ensures Run(s, headers) == s
  {
    hide HunkStart;
    if headers != [] {
      RunHeaders(s, headers[..|headers| - 1]);
      assert IsHeader(headers[|headers| - 1]);
    }
  }

  /** In a file without a head path nothing is located. */
  lemma {:induction false} RunNamelessLines(s: State, lines: seq<DiffLine>, m: nat)
    requires m <= |lines| && s.path.None? && s.inHunk && CalmWhenClosed(lines)
    requires forall i | 0 <= i < |lines| :: Marked(lines[i])
    ensures var t := Run(s, PrintLines(lines)[..m]);
      t.path.None? && t.locations == s.locations && (!ClosedIn(lines, m) ==> t.inHunk)
  {
    hide Step, Marked, OpensFile, PrintLine;
    var printed := PrintLines(lines);
    if m > 0 {
      RunNamelessLines(s, lines, m - 1);
      assert printed[..m][..m - 1] == printed[..m - 1];
      var t := Run(s, printed[..m - 1]);
      if ClosedIn(lines, m - 1) {
        StepQuiet(t, lines[m - 1]);
      } else {
        StepNameless(t, lines[m - 1]);
      }
    }
  }

  lemma StepNameless(s: State, line: DiffLine)
    requires s.path.None? && s.inHunk
    ensures Step(s, PrintLine(line)).path.None? && Step(s, PrintLine(line)).locations == s.locations
    ensures !OpensFile(line) ==> Step(s, PrintLine(line)).inHunk
  {
    hide HunkStart;
  }

  lemma RunNamelessHunk(s: State, h: Hunk)
    requires s.path.None? && MarkedHunk(h) && CalmWhenClosed(h.lines)
    ensures Run(s, PrintHunk(h)).locations == s.locations && Run(s, PrintHunk(h)).path.None?
  {
    hide Step, HunkStart, Range, Marked, CalmWhenClosed;
    var header := PrintHunk(h)[0];
    var printed := PrintLines(h.lines);
    assert PrintHunk(h) == [header] + printed;
    RunAppend(s, [header], printed);
    RunOne(s, header);
    StepHunkHeader(s, h);
    RunNamelessLines(Step(s, header), h.lines, |h.lines|);
    assert printed[..|h.lines|] == printed;
  }

  lemma {:induction false} RunNamelessHunks(s: State, hunks: seq<Hunk>)
    requires s.path.None? && forall j | 0 <= j < |hunks| :: MarkedHunk(hunks[j]) && CalmWhenClosed(hunks[j].lines)
    ensures Run(s, PrintHunks(hunks)).locations == s.locations && Run(s, PrintHunks(hunks)).path.None?
  {
    hide Step, PrintHunk, MarkedHunk, CalmWhenClosed;
    if hunks != [] {
      var rest, last := hunks[..|hunks| - 1], hunks[|hunks| - 1];
      RunNamelessHunks(s, rest);
      RunAppend(s, PrintHunks(rest), PrintHunk(last));
      RunNamelessHunk(Run(s, PrintHunks(rest)), last);
    }
  }

  lemma HeadPathOf(line: string, raw: string, pad: string)
    requires "+++ " <= line && line[4..] == raw + pad && (pad == "" || pad == "\t")
    requires raw != "" && !IsSpace(raw[0]) && !IsSpace(raw[|raw| - 1])
    ensures HeadPath(line) == if raw == "/dev/null" then None else Some(if "b/" <= raw then raw[2..] else raw)
  {
    hide Strip;
    StripKeepsEnd(raw, pad);
  }

  lemma StepPlus(s: State, line: string)
    requires !s.inHunk && "+++ " <= line
    ensures Step(s, line) == s.(path := HeadPath(line))
  {
    hide HunkStart, HeadPath;
    assert line[0] == '+' && "diff --git "[0] == 'd';
  }

  /** The `+++` line sets the path that the file names on its head side. */
  lemma StepTarget(s: State, target: Target)
    requires !target.Unnamed? && !s.inHunk
    requires target.Named? ==> target.path != "" && !IsSpace(target.path[|target.path| - 1])
    ensures Step(s, PrintTarget(target)[0]) == s.(path := if target.Named? then Some(target.path) else None)
  {
    hide Step, HeadPath;
    var line := PrintTarget(target)[0];
    StepPlus(s, line);
    if target.Named? {
      var raw := "b/" + target.path;
      HeadPathOf(line, raw, if target.tab then "\t" else "");
      assert raw[2..] == target.path && raw[0] == 'b' && "/dev/null"[0] == '/';
    } else {
      assert line[4..] == "/dev/null" && "/dev/null" + "" == "/dev/null";
      HeadPathOf(line, "/dev/null", "");
    }
  }

  lemma RunFile(s: State, f: FileDiff)
    requires Readable(f)
    ensures forall at :: at in Run(s, PrintFile(f)).locations <==> at in s.locations || FileAdds(f, at)
  {
    hide Step, HunkStart, PrintTarget, MarkedHunk, Calm, CalmWhenClosed, ClosedInHunks, NoneAdded, HunkAdds, PrintHunks;
    var opening := "diff --git " + f.names;
    var atStart := State(None, None, false, s.locations);
    assert Step(s, opening) == atStart by { StepOpening(s, f.names); }
    var target, hunks := PrintTarget(f.target), PrintHunks(f.hunks);
    assert PrintFile(f) == [opening] + f.headers + target + hunks;
    RunAppend(s, [opening] + f.headers + target, hunks);
    RunAppend(s, [opening] + f.headers, target);
    RunAppend(s, [opening], f.headers);
    RunOne(s, opening);
    RunHeaders(atStart, f.headers);
    assert Run(atStart, target) == atStart.(path := if f.target.Named? then Some(f.target.path) else None) by {
      RunTarget(atStart, f.target);
    }
    var named := Run(atStart, target);
    if f.target.Named? {
      RunHunks(named, f.target.path, f.hunks, |f.hunks|);
      assert f.hunks[..|f.hunks|] == f.hunks;
    } else {
      RunNamelessHunks(named, f.hunks);
    }
  }

  lemma StepOpening(s: State, names: string)
    ensures Step(s, "diff --git " + names) == State(None, None, false, s.locations)
  {
  }

  lemma RunTarget(s: State, target: Target)
    requires s.path.None? && !s.inHunk
    requires target.Named? ==> target.path != "" && !IsSpace(target.path[|target.path| - 1])
    ensures Run(s, PrintTarget(target)) == s.(path := if target.Named? then Some(target.path) else None)
  {
    hide Step;
    if !target.Unnamed? {
      StepTarget(s, target);
      RunOne(s, PrintTarget(target)[0]);
      assert PrintTarget(target) == [PrintTarget(target)[0]];
    }
  }

  lemma {:induction false} RunDiff(files: seq<FileDiff>)
    requires forall k | 0 <= k < |files| :: Readable(files[k])
    ensures forall at :: at in Run(START, PrintDiff(files)).locations <==> DiffAdds(files, at)
  {
    hide Step, Readable, FileAdds, PrintFile;
    if files != [] {
      var rest, last := files[..|files| - 1], files[|files| - 1];
      RunDiff(rest);
      var s := Run(START, PrintDiff(rest));
      RunAppend(START, PrintDiff(rest), PrintFile(last));
      RunFile(s, last);
      forall at ensures DiffAdds(files, at) <==> DiffAdds(rest, at) || FileAdds(last, at) {
        assert forall k | 0 <= k < |rest| :: rest[k] == files[k];
        if DiffAdds(rest, at) {
          var k :| 0 <= k < |rest| && FileAdds(rest[k], at);
          assert FileAdds(files[k], at);
        }
      }
    }
  }

  // ----- What stands at an added location -----

  /** What the hunk shows of the head file is what the head file holds from the hunk's start. */
  ghost predicate Shows(head: seq<string>, h: Hunk) {
    var text := HeadText(h.lines);
    text != [] ==> 1 <= h.start && h.start - 1 + |text| <= |head| && head[h.start - 1..h.start - 1 + |text|] == text
  }

  lemma {:induction false} HeadTextAt(lines: seq<DiffLine>, i: nat)
    requires i < |lines| && lines[i].Added?
    ensures |HeadText(lines[..i])| < |HeadText(lines)| && HeadText(lines)[|HeadText(lines[..i])|] == lines[i].text
  {
    var rest := lines[..|lines| - 1];
    if i < |rest| {
      HeadTextAt(rest, i);
      assert rest[..i] == lines[..i];
    }
  }

  /** Main result: at every added location, the head file holds the added text. */
  lemma AddedTextIsInHead(h: Hunk, head: seq<string>, i: int, n: nat)
    requires AddsAt(h, i, n) && Shows(head, h)
    ensures 1 <= n <= |head| && head[n - 1] == h.lines[i].text
  {
    HeadTextAt(h.lines, i);
    var text := HeadText(h.lines);
    assert head[h.start - 1..h.start - 1 + |text|][n - h.start] == head[n - 1];
  }

  // ----- The nonblank counter -----

  function NonblankIn(lines: seq<DiffLine>): nat {
    if lines == [] then 0
    else
      var last := lines[|lines| - 1];
      NonblankIn(lines[..|lines| - 1]) + if last.Added? && Strip(last.text) != "" then 1 else 0
  }

  function NonblankInHunks(hunks: seq<Hunk>): nat {
    if hunks == [] then 0 else NonblankInHunks(hunks[..|hunks| - 1]) + NonblankIn(hunks[|hunks| - 1].lines)
  }

  function NonblankInDiff(files: seq<FileDiff>): nat {
    if files == [] then 0 else NonblankInDiff(files[..|files| - 1]) + NonblankInHunks(files[|files| - 1].hunks)
  }

  lemma {:induction false} CountAppend(t: Tally, a: seq<string>, b: seq<string>)
    ensures CountRun(t, a + b) == CountRun(CountRun(t, a), b)
  {
    hide CountStep;
    if b == [] {
      assert a + b == a;
    } else {
      assert (a + b)[..|a + b| - 1] == a + b[..|b| - 1];
      CountAppend(t, a, b[..|b| - 1]);
    }
  }

  lemma CountOne(t: Tally, line: string)
    ensures CountRun(t, [line]) == CountStep(t, line)
  {
    hide CountStep;
    assert [line][..0] == [];
    assert CountRun(t, []) == t;
  }

  /** Whether a hunk is open after some lines: those that open a file close it, and those that open a hunk open it. */
  function OpenAfter(open: bool, lines: seq<DiffLine>): bool {
    if lines == [] then open
    else
      var last := lines[|lines| - 1];
      if OpensFile(last) then false else if Opens(PrintLine(last)) then true else OpenAfter(open, lines[..|lines| - 1])
  }

  /** How many added lines that are not blank stand where a hunk is open. */
  function Counted(open: bool, lines: seq<DiffLine>): nat {
    if lines == [] then 0
    else
      var init, last := lines[..|lines| - 1], lines[|lines| - 1];
      Counted(open, init) + if OpenAfter(open, init) && last.Added? && Strip(last.text) != "" then 1 else 0
  }

  function CountedInHunks(hunks: seq<Hunk>): nat {
    if hunks == [] then 0 else CountedInHunks(hunks[..|hunks| - 1]) + Counted(true, hunks[|hunks| - 1].lines)
  }

  function CountedInDiff(files: seq<FileDiff>): nat {
    if files == [] then 0 else CountedInDiff(files[..|files| - 1]) + CountedInHunks(files[|files| - 1].hunks)
  }

  lemma CountLine(t: Tally, line: DiffLine)
    requires Marked(line)
    ensures CountStep(t, PrintLine(line)) == Tally(
      if OpensFile(line) then false else if Opens(PrintLine(line)) then true else t.inHunk,
      t.count + if t.inHunk && line.Added? && Strip(line.text) != "" then 1 else 0)
  {
    hide Strip, HunkStart;
    if Opens(PrintLine(line)) {
      OpeningIsQuiet(line);
    }
  }

  lemma {:induction false} CountLines(t: Tally, lines: seq<DiffLine>)
    requires forall i | 0 <= i < |lines| :: Marked(lines[i])
    ensures CountRun(t, PrintLines(lines)) == Tally(OpenAfter(t.inHunk, lines), t.count + Counted(t.inHunk, lines))
  {
    hide CountStep, Strip, Marked, Opens, OpensFile, PrintLine;
    var printed := PrintLines(lines);
    if lines != [] {
      var init := lines[..|lines| - 1];
      CountLines(t, init);
      assert printed[..|lines| - 1] == PrintLines(init);
      CountLine(Tally(OpenAfter(t.inHunk, init), t.count + Counted(t.inHunk, init)), lines[|lines| - 1]);
    }
  }

  lemma {:induction false} CountHunks(t: Tally, hunks: seq<Hunk>)
    requires forall j | 0 <= j < |hunks| :: MarkedHunk(hunks[j])
    ensures CountRun(t, PrintHunks(hunks)).count == t.count + CountedInHunks(hunks)
  {
    hide HunkStart, Range, Counted, CountStep, Marked;
    if hunks != [] {
      var rest, last := hunks[..|hunks| - 1], hunks[|hunks| - 1];
      CountHunks(t, rest);
      var u := CountRun(t, PrintHunks(rest));
      CountAppend(t, PrintHunks(rest), PrintHunk(last));
      var header := PrintHunk(last)[0];
      assert PrintHunk(last) == [header] + PrintLines(last.lines);
      CountAppend(u, [header], PrintLines(last.lines));
      CountOne(u, header);
      CountHunkHeader(u, last);
      CountLines(CountStep(u, header), last.lines);
    }
  }

  lemma CountHunkHeader(t: Tally, h: Hunk)
    ensures CountStep(t, PrintHunk(h)[0]) == t.(inHunk := true)
  {
    hide HunkStart, Range;
    HunkStartOf(h.oldStart, h.oldCount, h.start, h.count, h.section);
    assert PrintHunk(h)[0][0] == '@' && "diff --git "[0] == 'd';
  }

  lemma {:induction false} CountHeaders(t: Tally, lines: seq<string>)
    requires !t.inHunk && forall i | 0 <= i < |lines| :: !("diff --git " <= lines[i]) && HunkStart(lines[i]).None?
    ensures CountRun(t, lines) == t
  {
    hide HunkStart;
    if lines != [] {
      CountHeaders(t, lines[..|lines| - 1]);
      assert HunkStart(lines[|lines| - 1]).None?;
    }
  }

  lemma TargetOpensNothing(target: Target)
    ensures forall i | 0 <= i < |PrintTarget(target)| ::
      !("diff --git " <= PrintTarget(target)[i]) && HunkStart(PrintTarget(target)[i]).None?
  {
    assert forall i | 0 <= i < |PrintTarget(target)| :: PrintTarget(target)[i][0] == '+';
    assert "diff --git "[0] == 'd' && "@@ -"[0] == '@';
  }

  lemma CountFile(t: Tally, f: FileDiff)
    requires MarkedFile(f)
    ensures CountRun(t, PrintFile(f)).count == t.count + CountedInHunks(f.hunks)
  {
    hide CountStep, CountRun, HunkStart, CountedInHunks, PrintTarget, PrintHunks, MarkedHunk;
    var opening := "diff --git " + f.names;
    var before := f.headers + PrintTarget(f.target);
    assert PrintFile(f) == [opening] + before + PrintHunks(f.hunks);
    CountAppend(t, [opening] + before, PrintHunks(f.hunks));
    CountAppend(t, [opening], before);
    CountOne(t, opening);
    assert CountStep(t, opening) == t.(inHunk := false) by { CountOpening(t, f.names); }
    TargetOpensNothing(f.target);
    assert forall i | 0 <= i < |f.headers| :: IsHeader(f.headers[i]);
    CountHeaders(t.(inHunk := false), before);
    CountHunks(t.(inHunk := false), f.hunks);
  }

  lemma CountOpening(t: Tally, names: string)
    ensures CountStep(t, "diff --git " + names) == t.(inHunk := false)
  {
  }

  lemma {:induction false} CountDiff(files: seq<FileDiff>)
    requires forall k | 0 <= k < |files| :: MarkedFile(files[k])
    ensures CountRun(Tally(false, 0), PrintDiff(files)).count == CountedInDiff(files)
  {
    hide CountStep, MarkedFile, PrintFile, CountedInHunks;
    if files != [] {
      var rest, last := files[..|files| - 1], files[|files| - 1];
      CountDiff(rest);
      CountAppend(Tally(false, 0), PrintDiff(rest), PrintFile(last));
      CountFile(CountRun(Tally(false, 0), PrintDiff(rest)), last);
    }
  }
}
