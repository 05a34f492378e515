/**
 * Diffs whose lines hold line breaks of their own, such as form feeds: the parser splits there too. What it then reads
 * is again a structured diff, and what it finds is exact or not by what stands after those breaks.
 */
module DiffBreaks {
  import opened Wrappers
  import opened DiffText
  import opened DiffLocations

  // ----- The diff that is read -----

  function ReadAll(texts: seq<string>): (lines: seq<DiffLine>)
    ensures |lines| == |texts| && forall i | 0 <= i < |texts| :: lines[i] == ReadLine(texts[i])
  {
    seq(|texts|, i requires 0 <= i < |texts| => ReadLine(texts[i]))
  }

  /** The parts of a text after its first break. */
  function Extras(text: string): seq<string> {
    if Pieces(text) == [] then [] else Pieces(text)[1..]
  }

  function FirstPiece(text: string): string {
    if Pieces(text) == [] then text else Pieces(text)[0]
  }

  /** The hunk with every piece of its section and of its lines taken for a line. */
  function AsRead(h: Hunk): Hunk {
    h.(section := FirstPiece(h.section), lines := ReadAll(Extras(h.section) + AllPieces(PrintLines(h.lines))))
  }

  function AllAsRead(hunks: seq<Hunk>): (r: seq<Hunk>)
    ensures |r| == |hunks| && forall j | 0 <= j < |hunks| :: r[j] == AsRead(hunks[j])
  {
    seq(|hunks|, j requires 0 <= j < |hunks| => AsRead(hunks[j]))
  }

  function FileAsRead(f: FileDiff): FileDiff {
    f.(hunks := AllAsRead(f.hunks))
  }

  function DiffAsRead(files: seq<FileDiff>): (r: seq<FileDiff>)
    ensures |r| == |files| && forall k | 0 <= k < |files| :: r[k] == FileAsRead(files[k])
  {
    seq(|files|, k requires 0 <= k < |files| => FileAsRead(files[k]))
  }

  /** A hunk whose section and lines are single lines of the file that holds the diff. */
  ghost predicate Writable(h: Hunk) {
    IsLine(h.section) && forall i | 0 <= i < |h.lines| :: IsLine(PrintLine(h.lines[i]))
  }

  /** A well-formed diff as it is written: only the lines and sections of its hunks may hold breaks. */
  ghost predicate Printable(files: seq<FileDiff>) {
    forall k | 0 <= k < |files| :: PrintableFile(files[k])
  }

  ghost predicate PrintableFile(f: FileDiff) {
    && WellFormed(f) && OneLine(f.names) && (forall i | 0 <= i < |f.headers| :: OneLine(f.headers[i]))
    && (f.target.Named? ==> OneLine(f.target.path)) && (forall j | 0 <= j < |f.hunks| :: Writable(f.hunks[j]))
  }

  lemma MarkJoins(mark: string, text: string)
    requires mark <= text
    ensures mark + text[|mark|..] == text
  {
  }

  lemma ReadLinePrints(text: string)
    ensures PrintLine(ReadLine(text)) == text
  {
    if "+" <= text {
      MarkJoins("+", text);
    } else if "-" <= text {
      MarkJoins("-", text);
    } else if "\\ No newline" <= text {
      MarkJoins("\\ No newline", text);
    } else if " " <= text {
      MarkJoins(" ", text);
    }
  }

  lemma RangeIsOneLine(start: nat, count: Option<nat>)
    ensures OneLine(Range(start, count))
  {
    assert forall c | IsDigit(c) :: !IsBreak(c);
  }

  lemma OneLineIsLine(s: string)
    requires OneLine(s)
    ensures IsLine(s)
  {
    assert forall c | !IsBreak(c) :: c != '\n';
  }

  /** The text of a hunk header before its section. */
  function HeaderStart(h: Hunk): (text: string)
    ensures OneLine(text)
    ensures forall section ::
      HunkHeader(Range(h.oldStart, h.oldCount), Range(h.start, h.count), section) == text + section
  {
    RangeIsOneLine(h.oldStart, h.oldCount);
    RangeIsOneLine(h.start, h.count);
    "@@ -" + Range(h.oldStart, h.oldCount) + " +" + Range(h.start, h.count) + " @@"
  }

  /** Splitting what is printed gives the print of what is read. */
  lemma HunkPieces(h: Hunk)
    requires Writable(h)
    ensures PrintHunk(AsRead(h)) == AllPieces(PrintHunk(h)) && MarkedHunk(AsRead(h))
    ensures forall i | 0 <= i < |PrintHunk(h)| :: IsLine(PrintHunk(h)[i])
  {
    hide Pieces, Range, HunkStart, OneLine, ReadLine, PrintLine;
    var texts := Extras(h.section) + AllPieces(PrintLines(h.lines));
    forall i | 0 <= i < |texts| ensures PrintLine(ReadLine(texts[i])) == texts[i] {
      ReadLinePrints(texts[i]);
    }
    assert PrintLines(ReadAll(texts)) == texts;
    var header := HeaderStart(h) + h.section;
    PiecesAfter(HeaderStart(h), h.section);
    AllPiecesAppend([header], PrintLines(h.lines));
    AllPiecesOne(header);
    assert PrintHunk(h) == [header] + PrintLines(h.lines);
    OneLineIsLine(HeaderStart(h));
    assert PrintHunk(AsRead(h)) == [HeaderStart(h) + FirstPiece(h.section)] + texts;
  }

  lemma {:induction false} HunksPieces(hunks: seq<Hunk>)
    requires forall j | 0 <= j < |hunks| :: Writable(hunks[j])
    ensures PrintHunks(AllAsRead(hunks)) == AllPieces(PrintHunks(hunks))
    ensures forall i | 0 <= i < |PrintHunks(hunks)| :: IsLine(PrintHunks(hunks)[i])
  {
    hide Writable, AsRead, PrintHunk, IsLine;
    if hunks != [] {
      var rest, last := hunks[..|hunks| - 1], hunks[|hunks| - 1];
      HunksPieces(rest);
      HunkPieces(last);
      AllPiecesAppend(PrintHunks(rest), PrintHunk(last));
      assert AllAsRead(hunks)[..|hunks| - 1] == AllAsRead(rest);
    }
  }

  lemma TargetIsOneLine(target: Target)
    requires target.Named? ==> OneLine(target.path)
    ensures forall i | 0 <= i < |PrintTarget(target)| :: OneLine(PrintTarget(target)[i])
  {
  }

  /** What is printed of a file before its hunks. */
  function FileFront(f: FileDiff): seq<string> {
    ["diff --git " + f.names] + f.headers + PrintTarget(f.target)
  }

  lemma FrontIsWhole(f: FileDiff)
    requires PrintableFile(f)
    ensures AllPieces(FileFront(f)) == FileFront(f) && forall i | 0 <= i < |FileFront(f)| :: IsLine(FileFront(f)[i])
  {
    hide OneLine, Writable, PlainHunk, HunkStart, PrintTarget, IsLine, AllPieces;
    OpeningIsOneLine(f.names);
    TargetIsOneLine(f.target);
    var front := FileFront(f);
    forall i | 0 <= i < |front| ensures OneLine(front[i]) && IsLine(front[i]) {
      assert OneLine(front[i]);
      OneLineIsLine(front[i]);
    }
    WholeLines(front);
  }

  lemma FilePieces(f: FileDiff)
    requires PrintableFile(f)
    ensures PrintFile(FileAsRead(f)) == AllPieces(PrintFile(f)) && MarkedFile(FileAsRead(f))
    ensures forall i | 0 <= i < |PrintFile(f)| :: IsLine(PrintFile(f)[i])
  {
    hide OneLine, Writable, AsRead, PrintTarget, PrintHunks, AllPieces, PlainHunk, MarkedHunk, HunkStart, IsLine;
    var front := FileFront(f);
    FrontIsWhole(f);
    HunksPieces(f.hunks);
    AllPiecesAppend(front, PrintHunks(f.hunks));
    assert PrintFile(f) == front + PrintHunks(f.hunks)
      && PrintFile(FileAsRead(f)) == front + PrintHunks(AllAsRead(f.hunks));
    forall j | 0 <= j < |f.hunks| ensures MarkedHunk(AsRead(f.hunks[j])) {
      HunkPieces(f.hunks[j]);
    }
  }

  lemma OpeningIsOneLine(names: string)
    requires OneLine(names)
    ensures OneLine("diff --git " + names)
  {
  }

  lemma {:induction false} DiffPieces(files: seq<FileDiff>)
    requires Printable(files)
    ensures PrintDiff(DiffAsRead(files)) == AllPieces(PrintDiff(files))
    ensures forall i | 0 <= i < |PrintDiff(files)| :: IsLine(PrintDiff(files)[i])
  {
    hide PrintableFile, PrintFile, FileAsRead, IsLine;
    if files != [] {
      var rest, last := files[..|files| - 1], files[|files| - 1];
      DiffPieces(rest);
      FilePieces(last);
      AllPiecesAppend(PrintDiff(rest), PrintFile(last));
      assert DiffAsRead(files)[..|files| - 1] == DiffAsRead(rest);
    }
  }

  /** What the parser finds in the text of a diff. */
  ghost function Found(files: seq<FileDiff>): set<Location> {
    Run(START, SplitLines(JoinLines(PrintDiff(files)))).locations
  }

  /**
   * Main result: the counter counts what is counted in the diff that its text is read as, and the parser finds the
   * lines that this diff adds, if none of them is added after a line that opens a file or a hunk.
   */
  lemma TextIsReadAsDiff(files: seq<FileDiff>)
    requires Printable(files)
    ensures (forall k | 0 <= k < |files| :: Readable(FileAsRead(files[k]))) ==>
      forall at :: at in Found(files) <==> DiffAdds(DiffAsRead(files), at)
    ensures CountRun(Tally(false, 0), SplitLines(JoinLines(PrintDiff(files)))).count == CountedInDiff(DiffAsRead(files))
  {
    hide Run, CountRun, CountedInDiff, DiffAdds, MarkedFile, Readable, PrintableFile, PrintDiff;
    TextIsPrinted(files);
    if forall k | 0 <= k < |files| :: Readable(FileAsRead(files[k])) {
      RunDiff(DiffAsRead(files));
    }
    forall k | 0 <= k < |files| ensures MarkedFile(FileAsRead(files[k])) {
      FilePieces(files[k]);
    }
    CountDiff(DiffAsRead(files));
  }

  lemma TextIsPrinted(files: seq<FileDiff>)
    requires Printable(files)
    ensures SplitLines(JoinLines(PrintDiff(files))) == PrintDiff(DiffAsRead(files))
  {
    hide PrintDiff, PrintableFile, IsLine;
    DiffPieces(files);
    SplitJoined(PrintDiff(files));
  }
}
