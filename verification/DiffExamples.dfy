/** Diffs with form feeds: some that are not found exactly, and disturbed ones that are found exactly by accident. */
module DiffExamples {
  import opened Wrappers
  import opened DiffText
  import opened DiffLocations
  import opened DiffBreaks
  import opened DiffCounts
  import opened DiffExactness

  const FORM_FEED: char := 0x0c as char

  lemma FormFeedSplits(front: string, back: string)
    requires OneLine(front) && IsLine(back)
    ensures IsLine(front + [FORM_FEED] + back) && Pieces(front + [FORM_FEED] + back) == [front] + Pieces(back)
  {
    var text := front + [FORM_FEED] + back;
    assert text[..|front|] == front && text[|front|] == FORM_FEED && text[|front| + 1..] == back;
    assert forall c | !IsBreak(c) :: c != '\n';
    LengthOf(text, |front|);
    PiecesOf(text);
  }

  function OneFile(hunks: seq<Hunk>): FileDiff {
    FileDiff("a/f b/f", ["--- a/f"], Named("f", false), hunks)
  }

  lemma OneFileIsPrintable(hunks: seq<Hunk>)
    requires forall j | 0 <= j < |hunks| :: PlainHunk(hunks[j]) && Writable(hunks[j])
    ensures PrintableFile(OneFile(hunks))
  {
    var header := "--- a/f";
    assert "diff --git "[0] == 'd' && "+++ "[0] == '+' && "@@ -"[0] == '@' && header[0] == '-';
    assert HunkStart(header).None?;
    assert OneFile(hunks).headers[0] == header;
  }

  lemma ReadIsPlain(text: string)
    requires !Opens(text)
    ensures Plain(ReadLine(text))
  {
    hide ReadLine, PrintLine, Opens;
    ReadLinePrints(text);
  }

  lemma PlainFileIsReadable(f: FileDiff)
    requires PrintableFile(f) && forall j | 0 <= j < |f.hunks| :: PlainHunk(AsRead(f.hunks[j]))
    ensures Readable(FileAsRead(f))
  {
    hide PrintableFile, WellHeaded, PlainHunk, MarkedHunk, AsRead, Readable;
    FilePieces(f);
    WellFormedIsReadable(FileAsRead(f));
  }

  lemma NoSection()
    ensures Extras("") == [] && FirstPiece("") == "" && IsLine("")
  {
    WholeLine("");
  }

  /** Two added lines, the first of which holds a form feed. */
  function Moved(): Hunk {
    Hunk(0, Some(0), 1, Some(2), "", [Added("a" + [FORM_FEED] + "b"), Added("c")])
  }

  lemma MovedPieces()
    ensures var first, second := PrintLine(Moved().lines[0]), PrintLine(Moved().lines[1]);
      && IsLine(first) && Pieces(first) == ["+a", "b"] && IsLine(second) && Pieces(second) == ["+c"]
  {
    hide Pieces;
    PlusInFront("a", "b");
    assert "+" + "a" == "+a" && "+" + "c" == "+c";
    assert PrintLine(Moved().lines[1]) == "+c";
    WholeLine("b");
    WholeLine("+c");
    OneLineIsLine("b");
    OneLineIsLine("+c");
    FormFeedSplits("+a", "b");
  }

  lemma PlusInFront(front: string, back: string)
    ensures "+" + (front + [FORM_FEED] + back) == "+" + front + [FORM_FEED] + back
  {
  }

  lemma ShortOpensNothing(text: string)
    requires text != "" && |text| < 11 && text[0] != '@'
    ensures !Opens(text)
  {
    assert "@@ -"[0] == '@' && |"diff --git "| == 11;
  }

  lemma LetterIsBare(text: string)
    requires text != "" && 'a' <= text[0] <= 'z'
    ensures ReadLine(text) == Bare(text)
  {
    assert "\\ No newline"[0] == '\\';
  }

  lemma PlusIsAdded(text: string)
    ensures ReadLine("+" + text) == Added(text)
  {
  }

  lemma MovedTexts()
    ensures Extras(Moved().section) + AllPieces(PrintLines(Moved().lines)) == ["+a", "b", "+c"]
    ensures FirstPiece(Moved().section) == "" && IsLine(Moved().section)
  {
    hide Pieces, PrintLine;
    var first, second := PrintLine(Moved().lines[0]), PrintLine(Moved().lines[1]);
    MovedPieces();
    NoSection();
    AllPiecesAppend([first], [second]);
    AllPiecesOne(first);
    AllPiecesOne(second);
    assert PrintLines(Moved().lines) == [first] + [second];
    assert ["+a", "b"] + ["+c"] == ["+a", "b", "+c"];
  }

  lemma MovedIsRead()
    ensures Writable(Moved()) && PlainHunk(Moved()) && PlainHunk(AsRead(Moved()))
    ensures AsRead(Moved()).start == 1 && AsRead(Moved()).lines == [Added("a"), Bare("b"), Added("c")]
  {
    hide Pieces, AllPieces, Extras, PrintLine, PrintLines, FirstPiece, IsLine, HunkStart, Opens, ReadLine, Plain;
    var h := Moved();
    MovedPieces();
    MovedTexts();
    ShortOpensNothing("+a");
    ShortOpensNothing("b");
    ShortOpensNothing("+c");
    PlusIsAdded("a");
    LetterIsBare("b");
    PlusIsAdded("c");
    assert "+" + "a" == "+a" && "+" + "c" == "+c";
    assert ReadAll(["+a", "b", "+c"]) == [Added("a"), Bare("b"), Added("c")];
    ReadIsPlain("+a");
    ReadIsPlain("b");
    ReadIsPlain("+c");
    MarkedIsPlain(h.lines[0]);
    MarkedIsPlain(h.lines[1]);
  }

  /** The second line of the file is added, but it is reported as the third. */
  lemma FormFeedMovesLines()
    ensures var files := [OneFile([Moved()])];
      && Printable(files) && DiffAdds(files, ("f", 2)) && ("f", 2) !in Found(files) && ("f", 3) in Found(files)
  {
    hide Found, PrintableFile, AsRead, HunkAdds, Moved, Writable, PlainHunk, Readable, CountRun, CountedInDiff;
    var h := Moved();
    var f := OneFile([h]);
    MovedIsRead();
    OneFileIsPrintable([h]);
    PlainFileIsReadable(f);
    TextIsReadAsDiff([f]);
    OneFileAdds(f, ("f", 2));
    OneFileAdds(FileAsRead(f), ("f", 2));
    OneFileAdds(FileAsRead(f), ("f", 3));
    assert DiffAsRead([f]) == [FileAsRead(f)];
    HunkAddsNumbers(h, 2);
    HunkAddsNumbers(AsRead(h), 2);
    HunkAddsNumbers(AsRead(h), 3);
    MovedNumbers();
  }

  lemma MovedNumbers()
    ensures AddedNumbers(Moved().start, Moved().lines) == [1, 2]
    ensures AddedNumbers(AsRead(Moved()).start, AsRead(Moved()).lines) == [1, 3]
  {
    MovedIsRead();
    hide HeadText, AddedNumbers, AsRead, Writable, PlainHunk;
    var a, b, c, d := Moved().lines[0], Added("a"), Bare("b"), Added("c");
    NumbersOfTwo(1, a, d);
    NumbersOfTwo(1, b, c);
    OneLineRead(1, [b, c], d);
    assert [b, c] + [d] == [b, c, d];
  }

  lemma NumbersOfTwo(start: nat, a: DiffLine, b: DiffLine)
    ensures |HeadText([a, b])| == HeadSteps(a) + HeadSteps(b)
    ensures AddedNumbers(start, [a, b])
      == (if a.Added? then [start] else []) + if b.Added? then [start + HeadSteps(a)] else []
  {
    hide HeadText, AddedNumbers, HeadSteps;
    NothingRead(start);
    OneLineRead(start, [], a);
    OneLineRead(start, [a], b);
    assert [] + [a] == [a] && [a] + [b] == [a, b];
  }

  /** A piece of the first hunk that stands in for the line of the second one, and that line. */
  function StandIn(): seq<Hunk> {
    [Hunk(0, Some(0), 1, Some(1), "",
          [Added("a" + [FORM_FEED] + ("x" + [FORM_FEED] + ("y" + [FORM_FEED] + "+z")))]),
     Hunk(0, Some(0), 4, Some(1), "", [Added("w")])]
  }

  lemma StandInPieces()
    ensures var text := PrintLine(StandIn()[0].lines[0]); IsLine(text) && Pieces(text) == ["+a", "x", "y", "+z"]
    ensures var text := PrintLine(StandIn()[1].lines[0]); IsLine(text) && Pieces(text) == ["+w"]
  {
    hide Pieces, IsLine;
    var third := "y" + [FORM_FEED] + "+z";
    var second := "x" + [FORM_FEED] + third;
    PlusInFront("a", second);
    assert "+" + "a" == "+a" && "+" + "w" == "+w";
    assert PrintLine(StandIn()[1].lines[0]) == "+w";
    WholeLine("+z");
    WholeLine("+w");
    OneLineIsLine("+z");
    OneLineIsLine("+w");
    FormFeedSplits("y", "+z");
    FormFeedSplits("x", third);
    FormFeedSplits("+a", second);
    assert ["+a"] + (["x"] + (["y"] + ["+z"])) == ["+a", "x", "y", "+z"];
  }

  lemma StandInTexts()
    ensures Extras(StandIn()[0].section) + AllPieces(PrintLines(StandIn()[0].lines)) == ["+a", "x", "y", "+z"]
    ensures Extras(StandIn()[1].section) + AllPieces(PrintLines(StandIn()[1].lines)) == ["+w"]
    ensures IsLine("")
  {
    hide Pieces, PrintLine;
    StandInPieces();
    NoSection();
    forall j | 0 <= j < 2
      ensures AllPieces(PrintLines(StandIn()[j].lines)) == Pieces(PrintLine(StandIn()[j].lines[0]))
    {
      AllPiecesOne(PrintLine(StandIn()[j].lines[0]));
      assert PrintLines(StandIn()[j].lines) == [PrintLine(StandIn()[j].lines[0])];
    }
  }

  lemma StandInIsRead()
    ensures forall j | 0 <= j < 2 ::
      Writable(StandIn()[j]) && PlainHunk(StandIn()[j]) && PlainHunk(AsRead(StandIn()[j]))
    ensures AsRead(StandIn()[0]).lines == [Added("a"), Bare("x"), Bare("y"), Added("z")]
    ensures AsRead(StandIn()[1]).lines == [Added("w")]
  {
    hide Pieces, AllPieces, Extras, PrintLine, PrintLines, FirstPiece, IsLine, HunkStart, Opens, ReadLine, Plain;
    StandInPieces();
    StandInTexts();
    ShortOpensNothing("+a");
    ShortOpensNothing("x");
    ShortOpensNothing("y");
    ShortOpensNothing("+z");
    ShortOpensNothing("+w");
    PlusIsAdded("a");
    LetterIsBare("x");
    LetterIsBare("y");
    PlusIsAdded("z");
    PlusIsAdded("w");
    assert "+" + "a" == "+a" && "+" + "z" == "+z" && "+" + "w" == "+w";
    assert ReadAll(["+a", "x", "y", "+z"]) == [Added("a"), Bare("x"), Bare("y"), Added("z")];
    ReadIsPlain("+a");
    ReadIsPlain("x");
    ReadIsPlain("y");
    ReadIsPlain("+z");
    ReadIsPlain("+w");
    MarkedIsPlain(StandIn()[0].lines[0]);
    MarkedIsPlain(StandIn()[1].lines[0]);
  }

  lemma StandInNumbers()
    ensures Numbers(StandIn()[0]) == [1] && Numbers(StandIn()[1]) == [4]
    ensures Numbers(AsRead(StandIn()[0])) == [1, 4] && Numbers(AsRead(StandIn()[1])) == [4]
  {
    StandInIsRead();
    hide Writable, PlainHunk, AddedNumbers, HeadText;
    var a, x, y, z := Added("a"), Bare("x"), Bare("y"), Added("z");
    NumbersOfTwo(1, a, x);
    OneLineRead(1, [a, x], y);
    OneLineRead(1, [a, x] + [y], z);
    assert [a, x] + [y] + [z] == [a, x, y, z];
    NumbersOfOne(1, StandIn()[0].lines[0]);
    NumbersOfOne(4, StandIn()[1].lines[0]);
  }

  lemma NumbersOfOne(start: nat, line: DiffLine)
    ensures AddedNumbers(start, [line]) == if line.Added? then [start] else []
  {
    NothingRead(start);
    OneLineRead(start, [], line);
    assert [] + [line] == [line];
  }

  function Numbers(h: Hunk): seq<nat> {
    AddedNumbers(h.start, h.lines)
  }

  ghost predicate TwoHunksAdd(f: FileDiff, at: Location)
    requires |f.hunks| == 2
  {
    at.0 == "f" && (at.1 in Numbers(f.hunks[0]) || at.1 in Numbers(f.hunks[1]))
  }

  /** Over several hunks the converse fails: a disturbed hunk may find the line of another one. */
  lemma DisturbedMayBeExact()
    ensures var files := [OneFile(StandIn())]; Printable(files) && IsExact(files) && !Undisturbed(StandIn()[0])
  {
    hide Found, PrintableFile, AsRead, HunkAdds, Writable, PlainHunk, Undisturbed, Numbers, Written, DiffAdds, StandIn;
    hide Readable, CountRun, CountedInDiff;
    var hunks := StandIn();
    var f := OneFile(hunks);
    assert |hunks| == 2 by { StandInHasTwo(); }
    StandInIsRead();
    OneFileIsPrintable(hunks);
    PlainFileIsReadable(f);
    TextIsReadAsDiff([f]);
    StandInNumbers();
    assert DiffAsRead([f]) == [FileAsRead(f)];
    forall at ensures DiffAdds([f], at) <==> DiffAdds([FileAsRead(f)], at) {
      TwoHunksMean(f, at);
      TwoHunksMean(FileAsRead(f), at);
    }
    PrintableIsWritten(f, 0);
    FirstIsDisturbed();
  }

  lemma StandInHasTwo()
    ensures |StandIn()| == 2
  {
  }

  lemma FirstIsDisturbed()
    requires Written(StandIn()[0])
    ensures !Undisturbed(StandIn()[0])
  {
    hide AsRead, HunkAdds, Undisturbed, AddedNumbers, Written;
    var h := StandIn()[0];
    StandInNumbers();
    HunkIsReadExactly(h);
    HunkAddsNumbers(h, 4);
    HunkAddsNumbers(AsRead(h), 4);
  }

  lemma TwoHunksMean(f: FileDiff, at: Location)
    requires f.target == Named("f", false) && |f.hunks| == 2
    ensures DiffAdds([f], at) <==> TwoHunksAdd(f, at)
  {
    hide HunkAdds, AddedNumbers;
    assert [f][0] == f;
    HunkAddsNumbers(f.hunks[0], at.1);
    HunkAddsNumbers(f.hunks[1], at.1);
  }

  // ----- A piece that opens a file -----

  /**
   * Two added lines, the first of which holds the opening of a file after a form feed, and before it, if `more`,
   * another piece that is taken for an added line.
   */
  function Hidden(more: bool): Hunk {
    Hunk(0, Some(0), 1, Some(2), "", [Added(HiddenText(more)), Added("c")])
  }

  function HiddenText(more: bool): string {
    "a" + [FORM_FEED] + if more then "+b" + [FORM_FEED] + "diff --git " else "diff --git "
  }

  /** The two files that such a hunk is read as. */
  function ReadAsTwo(more: bool): seq<FileDiff> {
    [OneFile([Hidden(more).(lines := BeforeOpening(more))]), FileDiff("", ["+c"], Unnamed, [])]
  }

  function BeforeOpening(more: bool): seq<DiffLine> {
    if more then [Added("a"), Added("b")] else [Added("a")]
  }

  function TextsBefore(more: bool): seq<string> {
    if more then ["+a", "+b"] else ["+a"]
  }

  lemma HiddenPieces(more: bool)
    ensures var text := PrintLine(Hidden(more).lines[0]);
      IsLine(text) && Pieces(text) == TextsBefore(more) + ["diff --git "]
    ensures var text := PrintLine(Hidden(more).lines[1]); IsLine(text) && Pieces(text) == ["+c"]
  {
    hide Pieces, IsLine;
    var opening := "diff --git ";
    assert "+" + "a" == "+a" && "+" + "c" == "+c" && PrintLine(Hidden(more).lines[1]) == "+c";
    WholeLine(opening);
    WholeLine("+c");
    OneLineIsLine(opening);
    OneLineIsLine("+c");
    if more {
      var rest := "+b" + [FORM_FEED] + opening;
      PlusInFront("a", rest);
      FormFeedSplits("+b", opening);
      FormFeedSplits("+a", rest);
      assert ["+a"] + (["+b"] + [opening]) == ["+a", "+b"] + [opening];
    } else {
      PlusInFront("a", opening);
      FormFeedSplits("+a", opening);
    }
  }

  lemma HiddenTexts(more: bool)
    ensures AllPieces(PrintLines(Hidden(more).lines)) == TextsBefore(more) + ["diff --git ", "+c"]
    ensures Writable(Hidden(more)) && PlainHunk(Hidden(more))
  {
    hide Pieces, PrintLine, IsLine, Plain;
    var first, second := PrintLine(Hidden(more).lines[0]), PrintLine(Hidden(more).lines[1]);
    HiddenPieces(more);
    NoSection();
    AllPiecesAppend([first], [second]);
    AllPiecesOne(first);
    AllPiecesOne(second);
    assert PrintLines(Hidden(more).lines) == [first] + [second];
    assert TextsBefore(more) + ["diff --git "] + ["+c"] == TextsBefore(more) + ["diff --git ", "+c"];
    MarkedIsPlain(Hidden(more).lines[0]);
    MarkedIsPlain(Hidden(more).lines[1]);
  }

  /** What is printed before the lines of a hunk in one file. */
  function Front(h: Hunk): seq<string> {
    ["diff --git a/f b/f", "--- a/f", "+++ b/f", HeaderStart(h)]
  }

  lemma OneFilePrints(h: Hunk)
    requires h.section == ""
    ensures PrintFile(OneFile([h])) == Front(h) + PrintLines(h.lines)
    ensures forall i | 0 <= i < 4 :: OneLine(Front(h)[i]) && IsLine(Front(h)[i])
  {
    hide PrintLines, Range;
    assert PrintHunks([h]) == PrintHunk(h) by { assert [h][..0] == [] && PrintHunks([]) == []; }
    assert HeaderStart(h) + "" == HeaderStart(h);
    assert "diff --git " + "a/f b/f" == "diff --git a/f b/f" && "+++ b/" + "f" + "" == "+++ b/f";
    OneLineIsLine(HeaderStart(h));
  }

  lemma HiddenPrints(more: bool)
    ensures PrintDiff([OneFile([Hidden(more)])]) == Front(Hidden(more)) + PrintLines(Hidden(more).lines)
    ensures PrintDiff(ReadAsTwo(more)) == Front(Hidden(more)) + TextsBefore(more) + ["diff --git ", "+c"]
  {
    hide PrintFile, HeaderStart, PrintLine, Front, PrintLines, OneLine, IsLine, BeforeOpening, TextsBefore, HiddenText;
    var f, files := OneFile([Hidden(more)]), ReadAsTwo(more);
    OneFilePrints(Hidden(more));
    OneFilePrints(Hidden(more).(lines := BeforeOpening(more)));
    EmptyFilePrints();
    SameFront(more);
    assert [f][..0] == [] && PrintDiff([]) == [] && PrintDiff([f]) == PrintFile(f);
    assert files[..1] == [files[0]] && [files[0]][..0] == [];
  }

  lemma HiddenIsReadAsTwo(more: bool)
    ensures var files := [OneFile([Hidden(more)])];
      SplitLines(JoinLines(PrintDiff(files))) == PrintDiff(ReadAsTwo(more))
  {
    hide PrintDiff, PrintFile, Pieces, AllPieces, HeaderStart, PrintLine, IsLine, OneLine, ReadAsTwo, TextsBefore;
    hide SplitLines;
    var h, second := Hidden(more), ["diff --git ", "+c"];
    HiddenPrints(more);
    OneFilePrints(h);
    HiddenTexts(more);
    WholeLines(Front(h));
    AllPiecesAppend(Front(h), PrintLines(h.lines));
    assert Front(h) + TextsBefore(more) + second == Front(h) + (TextsBefore(more) + second);
    SplitJoined(Front(h) + PrintLines(h.lines));
  }

  lemma EmptyFilePrints()
    ensures PrintFile(FileDiff("", ["+c"], Unnamed, [])) == ["diff --git ", "+c"]
  {
    assert "diff --git " + "" == "diff --git ";
  }

  lemma SameFront(more: bool)
    ensures Front(Hidden(more).(lines := BeforeOpening(more))) == Front(Hidden(more))
    ensures PrintLines(BeforeOpening(more)) == TextsBefore(more)
  {
    assert "+" + "a" == "+a" && "+" + "b" == "+b";
    assert PrintLine(Added("a")) == "+a" && PrintLine(Added("b")) == "+b";
  }

  /** Of such a hunk exactly what stands before the opening is found. */
  lemma HiddenIsFound(more: bool, at: Location)
    ensures at in Found([OneFile([Hidden(more)])]) <==>
      at.0 == "f" && at.1 in AddedNumbers(1, BeforeOpening(more))
    ensures DiffAdds([OneFile([Hidden(more)])], at) <==> at == ("f", 1) || at == ("f", 2)
  {
    hide Run, PrintDiff, DiffAdds, HunkAdds, AddedNumbers, WellFormed, Readable, HiddenText, BeforeOpening;
    var files := ReadAsTwo(more);
    var before, h := files[0].hunks[0], Hidden(more);
    HiddenIsReadAsTwo(more);
    TwoFilesAreReadable(more);
    RunDiff(files);
    OnlyFirstAdds(more, at);
    HunkAddsNumbers(before, at.1);
    OneFileAdds(OneFile([h]), at);
    HunkAddsNumbers(h, at.1);
    NumbersOfTwo(1, h.lines[0], h.lines[1]);
  }

  lemma OnlyFirstAdds(more: bool, at: Location)
    ensures DiffAdds(ReadAsTwo(more), at) <==> at.0 == "f" && HunkAdds(ReadAsTwo(more)[0].hunks[0], at.1)
  {
    hide HunkAdds;
    var files := ReadAsTwo(more);
    assert FileAdds(files[0], at) <==> at.0 == "f" && HunkAdds(files[0].hunks[0], at.1) by {
      assert files[0].hunks[0] == files[0].hunks[0];
    }
  }

  lemma TwoFilesAreReadable(more: bool)
    ensures forall k | 0 <= k < 2 :: Readable(ReadAsTwo(more)[k])
  {
    hide HunkStart, Readable, HiddenText;
    var files := ReadAsTwo(more);
    HeadersAreHeaders();
    MarkedIsPlain(Added("a"));
    MarkedIsPlain(Added("b"));
    WellFormedIsReadable(files[0]);
    WellFormedIsReadable(files[1]);
  }

  lemma HeadersAreHeaders()
    ensures IsHeader("--- a/f") && IsHeader("+c")
  {
    assert "diff --git "[0] == 'd' && "+++ "[1] == '+' && "+c"[1] == 'c' && "--- a/f"[0] == '-' && "@@ -"[0] == '@';
    assert HunkStart("--- a/f").None? && HunkStart("+c").None?;
  }

  lemma HiddenIsPrintable(more: bool)
    ensures Printable([OneFile([Hidden(more)])]) && Written(Hidden(more))
  {
    hide Writable, PlainHunk, PrintableFile, Hidden;
    var h := Hidden(more);
    HiddenTexts(more);
    assert [h][0] == h;
    OneFileIsPrintable([h]);
    assert [OneFile([h])][0] == OneFile([h]);
  }

  /** Both hunks add a line after the part that opens a file, so both are disturbed. */
  lemma HiddenIsDisturbed(more: bool)
    ensures !Undisturbed(Hidden(more))
  {
    hide Pieces, AllPieces, PrintLine, NoneAdds, HiddenText;
    var h := Hidden(more);
    var extras := Extras(PrintLine(h.lines[0]));
    HiddenPieces(more);
    NoSection();
    assert ExtrasTo(h, 1) == [] + extras == extras;
    assert extras[|extras| - 1] == "diff --git ";
    assert Moves("diff --git ") by { assert "diff --git "[0] == 'd' && "-"[0] == '-' && "\\ No newline"[0] == '\\'; }
    assert h.lines[1].Added? && !NoneMoves(ExtrasTo(h, 1));
  }

  lemma HiddenCounts()
    ensures NonblankInDiff([OneFile([Hidden(false)])]) == 2 && CountedInDiff(ReadAsTwo(false)) == 1
  {
    hide Blank, HiddenText;
    var h := Hidden(false);
    var files := ReadAsTwo(false);
    OneFileCounts(OneFile([h]));
    OneFileIsCounted(files[0]);
    NonblankAppend([h.lines[0]], [h.lines[1]]);
    assert h.lines == [h.lines[0]] + [h.lines[1]];
    OneNonblank(h.lines[0]);
    OneNonblank(h.lines[1]);
    OneCounted(true, Added("a"));
    assert HiddenText(false) != "" && HiddenText(false)[0] == 'a' by { FirstLetter(); }
    LettersAreNotBlank(h.lines[0].text);
    LettersAreNotBlank(h.lines[1].text);
    LettersAreNotBlank("a");
    assert files[..1] == [files[0]] && files[1].hunks == [];
  }

  lemma FirstLetter()
    ensures HiddenText(false) != "" && HiddenText(false)[0] == 'a'
  {
  }

  lemma LettersAreNotBlank(text: string)
    requires text != "" && 'a' <= text[0] <= 'z'
    ensures !Blank(text)
  {
    StrippedIsEmpty(text);
    assert !IsSpace(text[0]);
  }

  lemma OneFileCounts(f: FileDiff)
    requires |f.hunks| == 1
    ensures NonblankInDiff([f]) == NonblankIn(f.hunks[0].lines)
  {
    assert [f][..0] == [] && f.hunks[..0] == [] && [f][0] == f && |[f]| - 1 == 0;
    assert NonblankInDiff([f]) == NonblankInDiff([]) + NonblankInHunks(f.hunks);
    assert NonblankInHunks(f.hunks) == NonblankInHunks([]) + NonblankIn(f.hunks[0].lines);
  }

  lemma OneFileIsCounted(f: FileDiff)
    requires |f.hunks| == 1
    ensures CountedInDiff([f]) == Counted(true, f.hunks[0].lines)
  {
    assert [f][..0] == [] && f.hunks[..0] == [] && [f][0] == f && |[f]| - 1 == 0;
    assert CountedInDiff([f]) == CountedInDiff([]) + CountedInHunks(f.hunks);
    assert CountedInHunks(f.hunks) == CountedInHunks([]) + Counted(true, f.hunks[0].lines);
  }

  /** A piece that opens a file makes both loops miss what follows it. */
  lemma OpeningHidesLines()
    ensures var files := [OneFile([Hidden(false)])];
      && Printable(files) && !Undisturbed(Hidden(false))
      && DiffAdds(files, ("f", 2)) && ("f", 2) !in Found(files)
      && NonblankInDiff(files) == 2 && CountRun(Tally(false, 0), SplitLines(JoinLines(PrintDiff(files)))).count == 1
  {
    hide Printable, Found, DiffAdds, Hidden, Undisturbed, PrintDiff, CountRun, NonblankInDiff, CountedInDiff;
    hide AddedNumbers, Readable;
    HiddenIsPrintable(false);
    HiddenIsDisturbed(false);
    HiddenIsFound(false, ("f", 2));
    NumbersOfOne(1, Added("a"));
    HiddenCounts();
    HiddenIsReadAsTwo(false);
    TwoFilesAreReadable(false);
    ReadableIsMarked(ReadAsTwo(false));
    CountDiff(ReadAsTwo(false));
  }

  lemma ReadableIsMarked(files: seq<FileDiff>)
    requires forall k | 0 <= k < |files| :: Readable(files[k])
    ensures forall k | 0 <= k < |files| :: MarkedFile(files[k])
  {
    hide MarkedFile, StaysClosed, Calm;
  }

  /** Where a line is added after such a piece, the converse fails for one hunk too. */
  lemma OpeningMayBeExact()
    ensures var files := [OneFile([Hidden(true)])]; Printable(files) && IsExact(files) && !Undisturbed(Hidden(true))
  {
    hide Printable, Found, DiffAdds, Hidden, Undisturbed, AddedNumbers;
    HiddenIsPrintable(true);
    HiddenIsDisturbed(true);
    NumbersOfTwo(1, Added("a"), Added("b"));
    forall at ensures at in Found([OneFile([Hidden(true)])]) <==> DiffAdds([OneFile([Hidden(true)])], at) {
      HiddenIsFound(true, at);
    }
  }
}
