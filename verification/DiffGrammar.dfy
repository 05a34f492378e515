/** What the text functions of the diff parsers compute, stated without their recursions. */
module DiffGrammar {
  import opened Wrappers
  import opened DiffText

  // ----- Lines -----

  /** The line boundaries of `str.splitlines`: line feed to carriage return, the separators, and those of Unicode. */
  const BREAKS: seq<int> := [10, 11, 12, 13, 28, 29, 30, 133, 8232, 8233]

  lemma BreakMeans(c: char)
    ensures IsBreak(c) <==> c as int in BREAKS
  {
  }

  /** One line boundary, where a carriage return takes a line feed with it. */
  ghost predicate IsBoundary(boundary: string) {
    boundary == "\r\n" || (|boundary| == 1 && boundary[0] as int in BREAKS)
  }

  /** Lines and what stands after each of them, put together. */
  ghost function Woven(lines: seq<string>, boundaries: seq<string>): string
    requires |lines| == |boundaries|
  {
    if lines == [] then "" else lines[0] + boundaries[0] + Woven(lines[1..], boundaries[1..])
  }

  /** Where line `i` ends: at a boundary, which is a carriage return alone only if no line feed is next. */
  ghost predicate EndsAt(lines: seq<string>, boundaries: seq<string>, i: nat)
    requires |lines| == |boundaries| && i < |lines|
  {
    && IsBoundary(boundaries[i])
    && (boundaries[i] == "\r" ==> !("\n" <= Woven(lines[i + 1..], boundaries[i + 1..])))
  }

  /** Lines without a boundary, each before one; only the last may lack it, unless it is empty. */
  ghost predicate IsSplit(text: string, lines: seq<string>, boundaries: seq<string>) {
    && |lines| == |boundaries| && text == Woven(lines, boundaries)
    && (forall i | 0 <= i < |lines| :: OneLine(lines[i]))
    && forall i: nat | i < |lines| ::
         EndsAt(lines, boundaries, i) || (i == |lines| - 1 && lines[i] != "" && boundaries[i] == "")
  }

  lemma SplitRest(text: string, lines: seq<string>, boundaries: seq<string>)
    requires IsSplit(text, lines, boundaries) && lines != []
    ensures IsSplit(Woven(lines[1..], boundaries[1..]), lines[1..], boundaries[1..])
  {
    hide OneLine, IsBoundary, Woven;
    var rest, ends := lines[1..], boundaries[1..];
    forall i: nat | i < |rest|
      ensures EndsAt(rest, ends, i) || (i == |rest| - 1 && rest[i] != "" && ends[i] == "")
    {
      assert rest[i + 1..] == lines[i + 2..] && ends[i + 1..] == boundaries[i + 2..];
      assert EndsAt(rest, ends, i) <==> EndsAt(lines, boundaries, i + 1);
    }
  }

  lemma SplitMore(line: string, boundary: string, rest: string, lines: seq<string>, boundaries: seq<string>)
    requires OneLine(line) && IsBoundary(boundary) && (boundary == "\r" ==> !("\n" <= rest))
    requires IsSplit(rest, lines, boundaries)
    ensures IsSplit(line + boundary + rest, [line] + lines, [boundary] + boundaries)
  {
    hide OneLine, IsBoundary;
    var more, ends := [line] + lines, [boundary] + boundaries;
    assert more[1..] == lines && ends[1..] == boundaries;
    forall i: nat | i < |more|
      ensures EndsAt(more, ends, i) || (i == |more| - 1 && more[i] != "" && ends[i] == "")
    {
      if i > 0 {
        assert more[i + 1..] == lines[i..] && ends[i + 1..] == boundaries[i..];
        assert EndsAt(more, ends, i) <==> EndsAt(lines, boundaries, i - 1);
      }
    }
  }

  /** The boundary of the first line of a text. */
  lemma FirstBoundary(text: string, n: nat)
    requires n < |text| && IsBreak(text[n])
    ensures var next := AfterBreak(text, n);
      && IsBoundary(text[n..next]) && text == text[..n] + text[n..next] + text[next..]
      && (text[n..next] == "\r" ==> !("\n" <= text[next..]))
  {
    BreakMeans(text[n]);
  }

  /** Splitting is a way to split. */
  lemma {:induction false} LinesAreSplit(text: string)
    ensures exists boundaries :: IsSplit(text, SplitLines(text), boundaries)
    decreases |text|
  {
    hide IsSplit, Woven, EndsAt, IsBoundary, IsBreak, AfterBreak;
    var n := LineLength(text);
    if text == "" {
      NothingIsSplit();
      SplitNothing();
      assert IsSplit(text, SplitLines(text), []);
    } else if n == |text| {
      assert text[..n] == text;
      WholeIsSplit(text);
      assert SplitLines(text) == [text];
    } else {
      var next := AfterBreak(text, n);
      FirstBoundary(text, n);
      LinesAreSplit(text[next..]);
      var boundaries :| IsSplit(text[next..], SplitLines(text[next..]), boundaries);
      SplitMore(text[..n], text[n..next], text[next..], SplitLines(text[next..]), boundaries);
      SplitStep(text, n);
      assert IsSplit(text, SplitLines(text), [text[n..next]] + boundaries);
    }
  }

  lemma NothingIsSplit()
    ensures IsSplit("", [], [])
  {
  }

  lemma WholeIsSplit(text: string)
    requires text != "" && OneLine(text)
    ensures IsSplit(text, [text], [""])
  {
    assert Woven([""][1..], [""][1..]) == "";
    assert Woven([text], [""]) == text + "" + Woven([text][1..], [""][1..]);
  }

  /** There is no other way. */
  lemma {:induction false} SplitIsUnique(text: string, lines: seq<string>, boundaries: seq<string>)
    requires IsSplit(text, lines, boundaries)
    ensures lines == SplitLines(text)
    decreases |lines|
  {
    hide OneLine, IsBreak;
    if lines != [] {
      var line, boundary, rest := lines[0], boundaries[0], Woven(lines[1..], boundaries[1..]);
      assert text == line + boundary + rest;
      SplitRest(text, lines, boundaries);
      SplitIsUnique(rest, lines[1..], boundaries[1..]);
      assert lines == [line] + lines[1..];
      if boundary == "" {
        assert |lines| == 1 && rest == "" && text == line;
        assert text[..|text|] == text;
        LengthOf(text, |text|);
      } else {
        BoundaryIsFound(line, boundary, rest);
      }
    }
  }

  lemma BoundaryIsFound(line: string, boundary: string, rest: string)
    requires OneLine(line) && IsBoundary(boundary) && (boundary == "\r" ==> !("\n" <= rest))
    ensures var text := line + boundary + rest;
      SplitLines(text) == [line] + SplitLines(rest)
  {
    var text, n := line + boundary + rest, |line|;
    assert text[..n] == line && text[n] == boundary[0];
    BreakMeans(boundary[0]);
    LengthOf(text, n);
    assert AfterBreak(text, n) == n + |boundary| by {
      if boundary == "\r" && n + 1 < |text| {
        assert text[n + 1] == rest[0];
      }
    }
    assert text[n + |boundary|..] == rest;
    SplitStep(text, n);
  }

  /** Main result: `SplitLines` cuts a text at its line boundaries and nowhere else. */
  lemma SplitMeans(text: string, lines: seq<string>)
    ensures lines == SplitLines(text) <==> exists boundaries :: IsSplit(text, lines, boundaries)
  {
    hide IsSplit, SplitLines;
    LinesAreSplit(text);
    if boundaries :| IsSplit(text, lines, boundaries) {
      SplitIsUnique(text, lines, boundaries);
    }
  }

  // ----- White space -----

  /** The characters of `str.isspace`. */
  const SPACES: seq<int> := [
    9, 10, 11, 12, 13, 28, 29, 30, 31, 32, 133, 160, 5760, 8192, 8193, 8194, 8195, 8196, 8197, 8198, 8199, 8200, 8201,
    8202, 8232, 8233, 8239, 8287, 12288]

  ghost predicate IsWhite(c: char) {
    c as int in SPACES
  }

  lemma SpaceMeans(c: char)
    ensures IsSpace(c) <==> IsWhite(c)
  {
  }

  ghost predicate AllSpace(s: string) {
    forall c | c in s :: IsWhite(c)
  }

  /** `core` is a text without the white space around it. */
  ghost predicate IsCore(s: string, core: string) {
    && (exists before, after :: s == before + core + after && AllSpace(before) && AllSpace(after))
    && (core != "" ==> !IsWhite(core[0]) && !IsWhite(core[|core| - 1]))
  }

  lemma {:induction false} StripLeftMeans(s: string) returns (before: string)
    ensures s == before + StripLeft(s) && AllSpace(before)
    ensures StripLeft(s) != "" ==> !IsWhite(StripLeft(s)[0])
  {
    hide IsSpace, IsWhite;
    before := "";
    if s != "" {
      SpaceMeans(s[0]);
      if IsSpace(s[0]) {
        before := StripLeftMeans(s[1..]);
        assert s == [s[0]] + s[1..];
        before := [s[0]] + before;
      }
    }
  }

  lemma {:induction false} StripRightMeans(s: string) returns (after: string)
    ensures s == StripRight(s) + after && AllSpace(after)
    ensures StripRight(s) != "" ==> !IsWhite(StripRight(s)[|StripRight(s)| - 1])
  {
    hide IsSpace, IsWhite;
    after := "";
    if s != "" {
      var last := s[|s| - 1];
      SpaceMeans(last);
      if IsSpace(last) {
        after := StripRightMeans(s[..|s| - 1]);
        assert s == s[..|s| - 1] + [last];
        after := after + [last];
      }
    }
  }

  lemma CoreBetween(s: string, before: string, left: string, core: string, after: string)
    requires s == before + left && left == core + after && AllSpace(before) && AllSpace(after)
    requires left != "" ==> !IsWhite(left[0])
    requires core != "" ==> !IsWhite(core[|core| - 1])
    ensures IsCore(s, core)
  {
    hide IsWhite, AllSpace;
    assert s == before + core + after;
    assert core != "" ==> left[0] == core[0];
  }

  lemma StripIsCore(s: string)
    ensures IsCore(s, Strip(s))
  {
    hide IsWhite, AllSpace, IsCore, StripLeft, StripRight;
    var before := StripLeftMeans(s);
    var after := StripRightMeans(StripLeft(s));
    CoreBetween(s, before, StripLeft(s), Strip(s), after);
  }

  lemma {:induction false} StripLeftSkips(before: string, s: string)
    requires AllSpace(before)
    ensures StripLeft(before + s) == StripLeft(s)
  {
    hide IsSpace, IsWhite;
    if before == "" {
      assert before + s == s;
    } else {
      SpaceMeans(before[0]);
      assert before[0] in before && (before + s)[1..] == before[1..] + s;
      assert forall c | c in before[1..] :: c in before;
      StripLeftSkips(before[1..], s);
    }
  }

  lemma SpacesApart(a: string, b: string)
    ensures AllSpace(a + b) <==> AllSpace(a) && AllSpace(b)
  {
    hide IsWhite;
    assert forall c :: c in a + b <==> c in a || c in b;
  }

  lemma {:induction false} StripRightSkips(s: string, after: string)
    requires AllSpace(after)
    ensures StripRight(s + after) == StripRight(s)
  {
    hide IsSpace, IsWhite;
    if after == "" {
      assert s + after == s;
    } else {
      var last := after[|after| - 1];
      SpaceMeans(last);
      SpacesApart(after[..|after| - 1], [last]);
      assert after == after[..|after| - 1] + [last];
      assert last in after && (s + after)[..|s + after| - 1] == s + after[..|after| - 1];
      StripRightSkips(s, after[..|after| - 1]);
    }
  }

  lemma CoreIsStripped(core: string, before: string, after: string)
    requires AllSpace(before) && AllSpace(after)
    requires core != "" ==> !IsWhite(core[0]) && !IsWhite(core[|core| - 1])
    ensures Strip(before + (core + after)) == core
  {
    hide IsSpace, IsWhite, AllSpace;
    StripLeftSkips(before, core + after);
    if core == "" {
      assert core + after == after + "";
      StripLeftSkips(after, "");
    } else {
      SpaceMeans(core[0]);
      SpaceMeans(core[|core| - 1]);
      assert (core + after)[0] == core[0];
      StripRightSkips(core, after);
    }
  }

  /** Main result: stripping leaves the text between the white space at its ends. */
  lemma StripMeans(s: string, core: string)
    ensures Strip(s) == core <==> IsCore(s, core)
  {
    hide IsWhite, AllSpace, Strip;
    StripIsCore(s);
    if IsCore(s, core) {
      var before, after :| s == before + core + after && AllSpace(before) && AllSpace(after);
      assert s == before + (core + after);
      CoreIsStripped(core, before, after);
    }
  }

  // ----- Hunk headers -----

  ghost predicate IsNumber(s: string) {
    s != "" && forall c | c in s :: c in "0123456789"
  }

  /** A number, and perhaps a comma with another one. */
  ghost predicate IsRange(range: string, number: string) {
    && IsNumber(number)
    && (range == number || exists other :: IsNumber(other) && range == number + "," + other)
  }

  /** The grammar of a line that opens a hunk; `number` is where the head side starts. */
  ghost predicate IsHunkHeader(line: string, number: string) {
    exists oldRange, oldNumber, headRange, section ::
      && IsRange(oldRange, oldNumber) && IsRange(headRange, number)
      && line == HunkHeader(oldRange, headRange, section)
  }

  lemma NumberMeans(s: string)
    ensures IsNumber(s) <==> s != "" && AllDigits(s)
  {
    assert forall c: char :: c in "0123456789" <==> IsDigit(c);
  }

  lemma AfterNumberMeans(number: string, rest: string)
    requires IsNumber(number) && (rest == "" || !IsDigit(rest[0]))
    ensures AfterNumber(number + rest) == Some(rest) && Digits(number + rest) == |number|
  {
    NumberMeans(number);
    DigitsOf(number, rest);
    assert (number + rest)[|number|..] == rest;
  }

  lemma AfterRangeMeans(range: string, number: string, rest: string)
    requires IsRange(range, number) && rest != "" && !IsDigit(rest[0]) && rest[0] != ','
    ensures AfterRange(range + rest) == Some(rest)
    ensures Digits(range + rest) == |number| && number <= range + rest
  {
    hide Digits, AfterNumber, IsNumber;
    if range == number {
      AfterNumberMeans(number, rest);
    } else {
      var other :| IsNumber(other) && range == number + "," + other;
      var tail := "," + other + rest;
      assert range + rest == number + tail;
      AfterNumberMeans(number, tail);
      assert tail[1..] == other + rest;
      AfterNumberMeans(other, rest);
    }
  }

  /** What a successful reading of a range has read. */
  lemma RangeWasRead(s: string) returns (range: string)
    requires AfterRange(s).Some?
    ensures IsRange(range, s[..Digits(s)]) && s == range + AfterRange(s).value
  {
    hide AfterNumber, IsNumber, Digits;
    var number, rest := s[..Digits(s)], AfterNumber(s).value;
    NumberWasRead(s);
    range := number;
    if "," <= rest && AfterNumber(rest[1..]).Some? {
      var other, end := rest[1..][..Digits(rest[1..])], AfterNumber(rest[1..]).value;
      NumberWasRead(rest[1..]);
      range := number + "," + other;
      assert rest == "," + rest[1..];
      assert number + ("," + (other + end)) == number + "," + other + end;
    }
  }

  lemma NumberWasRead(s: string)
    requires AfterNumber(s).Some?
    ensures IsNumber(s[..Digits(s)]) && s == s[..Digits(s)] + AfterNumber(s).value
  {
    NumberMeans(s[..Digits(s)]);
  }

  lemma HeaderWasRead(line: string)
    requires HunkStart(line).Some?
    ensures exists number :: IsHunkHeader(line, number)
  {
    hide AfterRange, Digits, Value, IsRange;
    var base := AfterRange(line[4..]).value;
    var head := base[2..];
    var end := AfterRange(head).value;
    var oldRange := RangeWasRead(line[4..]);
    var headRange := RangeWasRead(head);
    var number := head[..Digits(head)];
    var section := end[3..];
    HeaderPieces(line, oldRange, base, headRange, end, section);
    assert IsHunkHeader(line, number);
  }

  lemma HeaderPieces(line: string, oldRange: string, base: string, headRange: string, end: string, section: string)
    requires "@@ -" <= line && line[4..] == oldRange + base && " +" <= base && base[2..] == headRange + end
    requires " @@" <= end && section == end[3..]
    ensures line == HunkHeader(oldRange, headRange, section)
  {
    assert line == "@@ -" + line[4..] && base == " +" + base[2..] && end == " @@" + section;
  }

  lemma HeaderIsRead(line: string, number: string)
    requires IsHunkHeader(line, number)
    ensures AllDigits(number) && HunkStart(line) == Some(Value(number))
  {
    hide AfterRange, Digits, Value, IsRange, HunkStart;
    var oldRange, oldNumber, headRange, section :|
      IsRange(oldRange, oldNumber) && IsRange(headRange, number) && line == HunkHeader(oldRange, headRange, section);
    var end := " @@" + section;
    var head := headRange + end;
    var base := oldRange + (" +" + head);
    AfterRangeMeans(oldRange, oldNumber, " +" + head);
    AfterRangeMeans(headRange, number, end);
    assert line == "@@ -" + base;
    HunkStartIs(line, base, head, end, section);
    assert head[..Digits(head)] == number;
  }

  /** Main result: a line opens a hunk exactly when it has the grammar of a header, and starts at its number. */
  lemma HunkStartMeans(line: string)
    ensures HunkStart(line).Some? <==> exists number :: IsHunkHeader(line, number)
    ensures forall number | IsHunkHeader(line, number) :: AllDigits(number) && HunkStart(line) == Some(Value(number))
  {
    hide HunkStart, IsHunkHeader;
    if HunkStart(line).Some? {
      HeaderWasRead(line);
    }
    forall number | IsHunkHeader(line, number) ensures AllDigits(number) && HunkStart(line) == Some(Value(number)) {
      HeaderIsRead(line, number);
    }
  }
}
