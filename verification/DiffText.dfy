/** The text of a unified diff: lines, decimal numbers and hunk headers. */
module DiffText {
  import opened Wrappers

  // ----- Lines -----

  /** The characters at which a text is split into lines. */
  predicate IsBreak(c: char) {
    var n := c as int;
    0x0a <= n <= 0x0d || 0x1c <= n <= 0x1e || n == 0x85 || n == 0x2028 || n == 0x2029
  }

  predicate OneLine(line: string) {
    forall i | 0 <= i < |line| :: !IsBreak(line[i])
  }

  /** The length of the first line. */
  function LineLength(text: string): (n: nat)
    ensures n <= |text| && OneLine(text[..n]) && (n < |text| ==> IsBreak(text[n]))
  {
    if text == "" || IsBreak(text[0]) then 0
    else
      var n := LineLength(text[1..]) + 1;
      assert forall i | 1 <= i < n :: text[..n][i] == text[1..][..n - 1][i - 1];
      n
  }

  /** The lines of a text, without their breaks; a carriage return and a line feed are one break. */
  function SplitLines(text: string): seq<string> {
    var n := LineLength(text);
    if text == "" then []
    else if n == |text| then [text]
    else [text[..n]] + SplitLines(text[AfterBreak(text, n)..])
  }

  /** Where the text goes on after its break at `n`. */
  function AfterBreak(text: string, n: nat): (next: nat)
    requires n < |text|
    ensures n < next <= |text|
  {
    if text[n] == '\r' && n + 1 < |text| && text[n + 1] == '\n' then n + 2 else n + 1
  }

  function JoinLines(lines: seq<string>): string {
    if lines == [] then "" else lines[0] + "\n" + JoinLines(lines[1..])
  }

  // ----- Lines that hold breaks of their own -----

  /** A line as it is written: it ends at its line feed, whatever other breaks it holds. */
  predicate IsLine(line: string) {
    forall i | 0 <= i < |line| :: line[i] != '\n'
  }

  /** What a written line is split into. */
  function Pieces(line: string): seq<string> {
    SplitLines(line + "\n")
  }

  function AllPieces(lines: seq<string>): seq<string> {
    if lines == [] then [] else AllPieces(lines[..|lines| - 1]) + Pieces(lines[|lines| - 1])
  }

  lemma {:induction false} AllPiecesAppend(a: seq<string>, b: seq<string>)
    ensures AllPieces(a + b) == AllPieces(a) + AllPieces(b)
  {
    hide Pieces;
    if b == [] {
      assert a + b == a;
    } else {
      assert (a + b)[..|a + b| - 1] == a + b[..|b| - 1];
      AllPiecesAppend(a, b[..|b| - 1]);
    }
  }

  lemma AllPiecesOne(line: string)
    ensures AllPieces([line]) == Pieces(line)
  {
    assert [line][..0] == [];
  }

  lemma {:induction false} LengthOf(line: string, n: nat)
    requires n <= |line| && OneLine(line[..n]) && (n < |line| ==> IsBreak(line[n]))
    ensures LineLength(line) == n
  {
    if n > 0 {
      assert line[0] == line[..n][0];
      assert line[1..][..n - 1] == line[..n][1..];
      LengthOf(line[1..], n - 1);
    }
  }

  /** Where the first break of a line is, if it holds one. */
  function FirstLength(line: string): (n: nat)
    ensures n <= |line| && OneLine(line[..n]) && (n < |line| ==> IsBreak(line[n]))
  {
    LineLength(line)
  }

  /** A line feed that closes a line is taken with a carriage return before it. */
  predicate ClosedAt(line: string, n: nat)
    requires n <= |line|
  {
    n == |line| || (line[n] == '\r' && n + 1 == |line|)
  }

  lemma SplitStep(text: string, n: nat)
    requires n < |text| && LineLength(text) == n
    ensures SplitLines(text) == [text[..n]] + SplitLines(text[AfterBreak(text, n)..])
  {
    hide LineLength, OneLine, IsBreak, AfterBreak;
  }

  lemma CutText(line: string, rest: string, k: nat)
    requires k <= |line|
    ensures var text := line + "\n" + rest;
      && text[..k] == line[..k] && text[k..] == line[k..] + "\n" + rest && text[|line| + 1..] == rest
      && text[k] == if k < |line| then line[k] else '\n'
  {
  }

  lemma SplitOne(line: string, rest: string)
    requires IsLine(line)
    ensures var n := FirstLength(line);
      SplitLines(line + "\n" + rest) == [line[..n]]
        + if ClosedAt(line, n) then SplitLines(rest) else SplitLines(line[n + 1..] + "\n" + rest)
  {
    hide SplitLines, LineLength, OneLine;
    var n := FirstLength(line);
    CutText(line, rest, n);
    LengthOf(line + "\n" + rest, n);
    SplitStep(line + "\n" + rest, n);
    if n < |line| {
      CutText(line, rest, n + 1);
    }
  }

  lemma PiecesOf(line: string)
    requires IsLine(line)
    ensures var n := FirstLength(line);
      Pieces(line) == [line[..n]] + if ClosedAt(line, n) then [] else Pieces(line[n + 1..])
  {
    hide SplitLines;
    var n := FirstLength(line);
    SplitOne(line, "");
    SplitNothing();
    assert line + "\n" + "" == line + "\n";
    assert !ClosedAt(line, n) ==> line[n + 1..] + "\n" + "" == line[n + 1..] + "\n";
  }

  /** A written line is split on its own, whatever follows. */
  lemma {:induction false} SplitFirst(line: string, rest: string)
    requires IsLine(line)
    ensures SplitLines(line + "\n" + rest) == Pieces(line) + SplitLines(rest)
    decreases |line|
  {
    hide Pieces, SplitLines;
    var n := FirstLength(line);
    PiecesOf(line);
    SplitOne(line, rest);
    if !ClosedAt(line, n) {
      SplitFirst(line[n + 1..], rest);
    }
  }

  /** Splitting joined lines splits each of them. */
  lemma {:induction false} SplitJoined(lines: seq<string>)
    requires forall i | 0 <= i < |lines| :: IsLine(lines[i])
    ensures SplitLines(JoinLines(lines)) == AllPieces(lines)
  {
    hide Pieces, SplitLines;
    if lines == [] {
      assert SplitLines("") == [] by { SplitNothing(); }
    } else {
      SplitFirst(lines[0], JoinLines(lines[1..]));
      SplitJoined(lines[1..]);
      AllPiecesAppend([lines[0]], lines[1..]);
      AllPiecesOne(lines[0]);
      assert [lines[0]] + lines[1..] == lines;
    }
  }

  lemma SplitNothing()
    ensures SplitLines("") == []
  {
  }

  /** A line without a break stays whole, and so does one that only ends in a carriage return. */
  lemma WholeLine(line: string)
    requires OneLine(line)
    ensures Pieces(line) == [line] && Pieces(line + "\r") == [line]
  {
    LengthOf(line, |line|);
    assert (line + "\r")[..|line|] == line;
    LengthOf(line + "\r", |line|);
    assert forall c | !IsBreak(c) :: c != '\n';
    PiecesOf(line);
    PiecesOf(line + "\r");
  }

  lemma {:induction false} WholeLines(lines: seq<string>)
    requires forall i | 0 <= i < |lines| :: OneLine(lines[i])
    ensures AllPieces(lines) == lines
  {
    hide Pieces, OneLine;
    if lines != [] {
      WholeLines(lines[..|lines| - 1]);
      WholeLine(lines[|lines| - 1]);
    }
  }

  /** What stands before the first break only lengthens the first piece. */
  lemma PiecesAfter(prefix: string, line: string)
    requires OneLine(prefix) && IsLine(line)
    ensures Pieces(line) != [] && Pieces(prefix + line) == [prefix + Pieces(line)[0]] + Pieces(line)[1..]
  {
    hide Pieces;
    var n, whole := FirstLength(line), prefix + line;
    assert whole[..|prefix| + n] == prefix + line[..n];
    assert n < |line| ==> whole[|prefix| + n] == line[n];
    LengthOf(whole, |prefix| + n);
    assert forall c | !IsBreak(c) :: c != '\n';
    PiecesOf(line);
    PiecesOf(whole);
    if n < |line| {
      assert whole[|prefix| + n + 1..] == line[n + 1..];
    }
  }

  // ----- White space -----

  predicate IsSpace(c: char) {
    var n := c as int;
    || 0x09 <= n <= 0x0d || 0x1c <= n <= 0x20 || n == 0x85 || n == 0xa0 || n == 0x1680 || 0x2000 <= n <= 0x200a
    || n == 0x2028 || n == 0x2029 || n == 0x202f || n == 0x205f || n == 0x3000
  }

  function StripLeft(s: string): string {
    if s == "" || !IsSpace(s[0]) then s else StripLeft(s[1..])
  }

  function StripRight(s: string): string {
    if s == "" || !IsSpace(s[|s| - 1]) then s else StripRight(s[..|s| - 1])
  }

  function Strip(s: string): string {
    StripRight(StripLeft(s))
  }

  /** One space at the end is all that is stripped from a text that has none at its ends. */
  lemma StripKeepsEnd(s: string, pad: string)
    requires s != "" && !IsSpace(s[0]) && !IsSpace(s[|s| - 1]) && (pad == "" || (|pad| == 1 && IsSpace(pad[0])))
    ensures Strip(s + pad) == s
  {
    if pad == "" {
      assert s + pad == s;
    } else {
      var padded := s + pad;
      assert padded[0] == s[0] && padded[|padded| - 1] == pad[0] && padded[..|padded| - 1] == s;
      assert StripRight(padded) == StripRight(s) == s;
    }
  }

  /** Stripping leaves nothing exactly of white space. */
  lemma StrippedIsEmpty(s: string)
    ensures Strip(s) == "" <==> forall i | 0 <= i < |s| :: IsSpace(s[i])
  {
    StripLeftKeeps(s);
    StripRightKeeps(StripLeft(s));
  }

  lemma {:induction false} StripLeftKeeps(s: string)
    ensures (forall i | 0 <= i < |s| :: IsSpace(s[i])) <==> StripLeft(s) == ""
    ensures StripLeft(s) == "" || !IsSpace(StripLeft(s)[0])
  {
    if s != "" && IsSpace(s[0]) {
      StripLeftKeeps(s[1..]);
      assert forall i | 1 <= i < |s| :: s[i] == s[1..][i - 1];
    }
  }

  lemma {:induction false} StripRightKeeps(s: string)
    ensures s != "" && !IsSpace(s[0]) ==> StripRight(s) != ""
  {
    if s != "" && IsSpace(s[|s| - 1]) {
      StripRightKeeps(s[..|s| - 1]);
    }
  }

  // ----- Decimal numbers -----

  predicate IsDigit(c: char) {
    '0' <= c <= '9'
  }

  predicate AllDigits(s: string) {
    forall i | 0 <= i < |s| :: IsDigit(s[i])
  }

  function Decimal(n: nat): (s: string)
    ensures s != "" && AllDigits(s)
  {
    var last := [('0' as int + n % 10) as char];
    if n < 10 then last else Decimal(n / 10) + last
  }

  function Value(s: string): nat
    requires AllDigits(s)
  {
    if s == "" then 0 else Value(s[..|s| - 1]) * 10 + (s[|s| - 1] as int - '0' as int)
  }

  lemma {:induction false} ValueOfDecimal(n: nat)
    ensures Value(Decimal(n)) == n
  {
    var s := Decimal(n);
    if n >= 10 {
      ValueOfDecimal(n / 10);
      assert s[..|s| - 1] == Decimal(n / 10);
    } else {
      assert s[..|s| - 1] == "";
    }
  }

  /** How many digits a text starts with. */
  function Digits(s: string): (n: nat)
    ensures n <= |s| && AllDigits(s[..n]) && (n < |s| ==> !IsDigit(s[n]))
  {
    if s == "" || !IsDigit(s[0]) then 0
    else
      var n := Digits(s[1..]) + 1;
      assert forall i | 1 <= i < n :: s[..n][i] == s[1..][..n - 1][i - 1];
      n
  }

  lemma {:induction false} DigitsOf(number: string, rest: string)
    requires AllDigits(number) && (rest == "" || !IsDigit(rest[0]))
    ensures Digits(number + rest) == |number|
  {
    if number != "" {
      DigitsOf(number[1..], rest);
      assert (number + rest)[1..] == number[1..] + rest;
    }
  }

  // ----- Hunk headers -----

  /** What follows a number of at least one digit. */
  function AfterNumber(s: string): Option<string> {
    if Digits(s) == 0 then None else Some(s[Digits(s)..])
  }

  /** What follows a number and an optional comma with a second number. */
  function AfterRange(s: string): Option<string> {
    var rest := AfterNumber(s);
    if rest.Some? && "," <= rest.value && AfterNumber(rest.value[1..]).Some? then AfterNumber(rest.value[1..]) else rest
  }

  /** The head-side start of a line that opens a hunk: `@@ -a,b +start,count @@`. */
  function HunkStart(line: string): Option<nat> {
    if !("@@ -" <= line) then None
    else
      var base := AfterRange(line[4..]);
      if base.None? || !(" +" <= base.value) then None
      else
        var head := base.value[2..];
        var end := AfterRange(head);
        if end.None? || !(" @@" <= end.value) then None else Some(Value(head[..Digits(head)]))
  }

  function Range(start: nat, count: Option<nat>): string {
    Decimal(start) + if count.Some? then "," + Decimal(count.value) else ""
  }

  function HunkHeader(oldRange: string, headRange: string, section: string): string {
    "@@ -" + oldRange + " +" + headRange + " @@" + section
  }

  lemma AfterNumberOf(n: nat, rest: string)
    requires rest == "" || !IsDigit(rest[0])
    ensures AfterNumber(Decimal(n) + rest) == Some(rest) && Digits(Decimal(n) + rest) == |Decimal(n)|
  {
    hide Decimal;
    DigitsOf(Decimal(n), rest);
    assert (Decimal(n) + rest)[|Decimal(n)|..] == rest;
  }

  lemma AfterRangeOf(start: nat, count: Option<nat>, rest: string)
    requires rest != "" && !IsDigit(rest[0]) && rest[0] != ','
    ensures AfterRange(Range(start, count) + rest) == Some(rest)
    ensures Digits(Range(start, count) + rest) == |Decimal(start)| && Decimal(start) <= Range(start, count) + rest
  {
    hide Decimal, Digits, AfterNumber;
    if count.Some? {
      var tail := "," + Decimal(count.value) + rest;
      assert Range(start, count) + rest == Decimal(start) + tail;
      AfterNumberOf(start, tail);
      assert tail[1..] == Decimal(count.value) + rest;
      AfterNumberOf(count.value, rest);
    } else {
      assert Range(start, count) + rest == Decimal(start) + rest;
      AfterNumberOf(start, rest);
    }
  }

  /** A printed hunk header is recognised, and its head-side start is read back. */
  lemma HunkStartOf(oldStart: nat, oldCount: Option<nat>, start: nat, count: Option<nat>, section: string)
    ensures HunkStart(HunkHeader(Range(oldStart, oldCount), Range(start, count), section)) == Some(start)
  {
    hide AfterRange, Value, Digits, Range, Decimal, HunkStart;
    var end := " @@" + section;
    var head := Range(start, count) + end;
    var rest := " +" + head;
    var line := HunkHeader(Range(oldStart, oldCount), Range(start, count), section);
    assert line == "@@ -" + (Range(oldStart, oldCount) + rest);
    AfterRangeOf(oldStart, oldCount, rest);
    AfterRangeOf(start, count, end);
    HunkStartIs(line, Range(oldStart, oldCount) + rest, head, end, section);
    assert head[..|Decimal(start)|] == Decimal(start);
    ValueOfDecimal(start);
  }

  lemma HunkStartIs(line: string, base: string, head: string, end: string, section: string)
    requires line == "@@ -" + base && AfterRange(base) == Some(" +" + head)
    requires AfterRange(head) == Some(end) && end == " @@" + section
    ensures HunkStart(line) == Some(Value(head[..Digits(head)]))
  {
    hide AfterRange, Value, Digits;
    assert line[4..] == base && (" +" + head)[2..] == head;
  }

  // ----- Longer texts -----

  lemma PrefixOfPrefix(mark: string, part: string, text: string)
    requires part <= text && mark <= part
    ensures mark <= text
  {
    assert text[..|mark|] == part[..|mark|];
  }

  lemma NumberExtends(part: string, text: string)
    requires part <= text && AfterNumber(part).Some? && AfterNumber(part).value != ""
    ensures AfterNumber(text).Some? && AfterNumber(part).value <= AfterNumber(text).value
  {
    hide Digits;
    var n := Digits(part);
    assert text == part[..n] + text[n..] && text[n] == part[n];
    DigitsOf(part[..n], text[n..]);
    assert text[n..][..|part| - n] == part[n..];
  }

  lemma RangeExtends(part: string, text: string)
    requires part <= text && AfterRange(part).Some? && AfterRange(part).value != "" && AfterRange(part).value[0] == ' '
    ensures AfterRange(text).Some? && AfterRange(part).value <= AfterRange(text).value
  {
    hide AfterNumber;
    var rest := AfterNumber(part).value;
    assert rest != "" by { NothingAfterNothing(); }
    NumberExtends(part, text);
    var longer := AfterNumber(text).value;
    assert longer[0] == rest[0];
    if "," <= rest {
      assert rest[1..] <= longer[1..];
      if AfterNumber(rest[1..]).Some? {
        NumberExtends(rest[1..], longer[1..]);
      }
    }
  }

  lemma NothingAfterNothing()
    ensures AfterNumber("").None?
  {
  }

  /** What opens a hunk still does so with more text after it. */
  lemma HunkStartExtends(part: string, text: string)
    requires part <= text && HunkStart(part).Some?
    ensures HunkStart(text).Some?
  {
    hide AfterRange, Digits;
    PrefixOfPrefix("@@ -", part, text);
    assert part[4..] <= text[4..];
    RangeExtends(part[4..], text[4..]);
    var base, longer := AfterRange(part[4..]).value, AfterRange(text[4..]).value;
    PrefixOfPrefix(" +", base, longer);
    assert base[2..] <= longer[2..];
    RangeExtends(base[2..], longer[2..]);
    PrefixOfPrefix(" @@", AfterRange(base[2..]).value, AfterRange(longer[2..]).value);
  }
}
