/** When the count of added lines is exact: which of them line breaks hide, and what else is counted after a break. */
module DiffCounts {
  import opened DiffText
  import opened DiffLocations
  import opened DiffBreaks
  import opened DiffExactness

  // ----- What the counter loses and gains -----

  predicate Blank(text: string) {
    Strip(text) == ""
  }

  /** An added line that is not blank, but whose first piece is. */
  predicate LooksBlank(line: DiffLine) {
    line.Added? && !Blank(line.text)
      && Blank(FirstPiece(PrintLine(line))[if FirstPiece(PrintLine(line)) == "" then 0 else 1..])
  }

  /** The hunk is still open where line `m` starts: no piece before it opened a file, or a later one opened a hunk. */
  predicate OpenAt(h: Hunk, m: nat)
    requires m <= |h.lines|
  {
    OpenAfter(true, ReadTo(h, m))
  }

  /** An added line that is not blank, but that looks so or stands where the hunk is not open. */
  predicate IsLost(h: Hunk, m: nat)
    requires m < |h.lines|
  {
    h.lines[m].Added? && !Blank(h.lines[m].text) && (OpenAt(h, m) ==> LooksBlank(h.lines[m]))
  }

  /** How many of the first `m` lines are lost. */
  function LostTo(h: Hunk, m: nat): nat
    requires m <= |h.lines|
  {
    if m == 0 then 0 else LostTo(h, m - 1) + if IsLost(h, m - 1) then 1 else 0
  }

  /** How many pieces after a break count as added lines that are not blank, if a hunk is open before them. */
  function Gained(open: bool, pieces: seq<string>): nat {
    if pieces == [] then 0
    else
      var init, last := pieces[..|pieces| - 1], pieces[|pieces| - 1];
      Gained(open, init) + if OpenAfter(open, ReadAll(init)) && Adds(last) && !Blank(last[1..]) then 1 else 0
  }

  /** How many pieces count so after the breaks in the section and the first `m` lines. */
  function GainedTo(h: Hunk, m: nat): nat
    requires m <= |h.lines|
  {
    if m == 0 then Gained(true, Extras(h.section))
    else GainedTo(h, m - 1) + Gained(OpenAt(h, m - 1), Extras(PrintLine(h.lines[m - 1])))
  }

  // ----- Counting over parts -----

  lemma {:induction false} OpenAfterAppend(open: bool, a: seq<DiffLine>, b: seq<DiffLine>)
    ensures OpenAfter(open, a + b) == OpenAfter(OpenAfter(open, a), b)
  {
    hide Opens, OpensFile;
    if b == [] {
      assert a + b == a;
    } else {
      assert (a + b)[..|a + b| - 1] == a + b[..|b| - 1];
      OpenAfterAppend(open, a, b[..|b| - 1]);
    }
  }

  lemma {:induction false} CountedAppend(open: bool, a: seq<DiffLine>, b: seq<DiffLine>)
    ensures Counted(open, a + b) == Counted(open, a) + Counted(OpenAfter(open, a), b)
  {
    hide OpenAfter, Strip;
    if b == [] {
      assert a + b == a;
    } else {
      var init := b[..|b| - 1];
      assert (a + b)[..|a + b| - 1] == a + init;
      CountedAppend(open, a, init);
      OpenAfterAppend(open, a, init);
    }
  }

  lemma {:induction false} NonblankAppend(a: seq<DiffLine>, b: seq<DiffLine>)
    ensures NonblankIn(a + b) == NonblankIn(a) + NonblankIn(b)
  {
    hide Strip;
    if b == [] {
      assert a + b == a;
    } else {
      assert (a + b)[..|a + b| - 1] == a + b[..|b| - 1];
      NonblankAppend(a, b[..|b| - 1]);
    }
  }

  lemma {:induction false} GainedIsRead(open: bool, pieces: seq<string>)
    ensures Counted(open, ReadAll(pieces)) == Gained(open, pieces)
  {
    hide Strip, OpenAfter;
    if pieces != [] {
      var init, last := pieces[..|pieces| - 1], pieces[|pieces| - 1];
      GainedIsRead(open, init);
      assert ReadAll(pieces)[..|pieces| - 1] == ReadAll(init);
      assert Adds(last) <==> ReadLine(last).Added?;
    }
  }

  lemma PrefixOfBlank(part: string, text: string)
    requires part <= text && Blank(text)
    ensures Blank(part)
  {
    StrippedIsEmpty(text);
    StrippedIsEmpty(part);
    assert forall i | 0 <= i < |part| :: part[i] == text[i];
  }

  lemma OneNonblank(line: DiffLine)
    ensures NonblankIn([line]) == if line.Added? && !Blank(line.text) then 1 else 0
  {
    assert [line][..0] == [] && NonblankIn([]) == 0;
  }

  lemma OneCounted(open: bool, line: DiffLine)
    ensures Counted(open, [line]) == if open && line.Added? && !Blank(line.text) then 1 else 0
    ensures !Opens(PrintLine(line)) ==> OpenAfter(open, [line]) == open
  {
    hide Opens, Strip;
    NothingCounted(open);
    assert [line][..0] == [];
    assert OpensFile(line) ==> Opens(PrintLine(line)) by { FileIsOpened(line); }
  }

  lemma FileIsOpened(line: DiffLine)
    ensures OpensFile(line) ==> Opens(PrintLine(line))
  {
    hide HunkStart;
  }

  lemma NothingCounted(open: bool)
    ensures NonblankIn([]) == 0 && Counted(open, []) == 0 && OpenAfter(open, []) == open
  {
  }

  /** The first piece of a line counts as the line does, unless it looks blank. */
  lemma FirstCounts(line: DiffLine)
    requires Plain(line) && IsLine(PrintLine(line))
    ensures var first := ReadLine(FirstPiece(PrintLine(line)));
      first.Added? && !Blank(first.text) <==> line.Added? && !Blank(line.text) && !LooksBlank(line)
  {
    hide Strip, Pieces, FirstPiece, HunkStart;
    var first := ReadLine(FirstPiece(PrintLine(line)));
    FirstKeepsKind(line);
    if line.Added? && Blank(line.text) {
      PrefixOfBlank(first.text, line.text);
    }
  }

  lemma {:induction false} CountedTo(h: Hunk, m: nat)
    requires Written(h) && m <= |h.lines|
    ensures Counted(true, ReadTo(h, m)) + LostTo(h, m) == NonblankIn(h.lines[..m]) + GainedTo(h, m)
  {
    hide NonblankIn, Counted, Gained, Extras, FirstPiece, LooksBlank, ReadLine, PrintLine, Plain, Blank, OpenAfter;
    hide Opens;
    if m == 0 {
      GainedIsRead(true, Extras(h.section));
      NothingCounted(true);
      assert h.lines[..0] == [];
    } else {
      var line, text := h.lines[m - 1], PrintLine(h.lines[m - 1]);
      var before, first, open := ReadTo(h, m - 1), ReadLine(FirstPiece(text)), OpenAt(h, m - 1);
      CountedTo(h, m - 1);
      assert h.lines[..m] == h.lines[..m - 1] + [line];
      NonblankAppend(h.lines[..m - 1], [line]);
      OneNonblank(line);
      CountedAppend(true, before + [first], ReadAll(Extras(text)));
      CountedAppend(true, before, [first]);
      OpenAfterAppend(true, before, [first]);
      FirstOpensNothing(line);
      OneCounted(open, first);
      GainedIsRead(open, Extras(text));
      FirstCounts(line);
    }
  }

  // ----- Whole diffs -----

  function LostInHunks(hunks: seq<Hunk>): nat {
    if hunks == [] then 0
    else LostInHunks(hunks[..|hunks| - 1]) + LostTo(hunks[|hunks| - 1], |hunks[|hunks| - 1].lines|)
  }

  function GainedInHunks(hunks: seq<Hunk>): nat {
    if hunks == [] then 0
    else GainedInHunks(hunks[..|hunks| - 1]) + GainedTo(hunks[|hunks| - 1], |hunks[|hunks| - 1].lines|)
  }

  function LostIn(files: seq<FileDiff>): nat {
    if files == [] then 0 else LostIn(files[..|files| - 1]) + LostInHunks(files[|files| - 1].hunks)
  }

  function GainedIn(files: seq<FileDiff>): nat {
    if files == [] then 0 else GainedIn(files[..|files| - 1]) + GainedInHunks(files[|files| - 1].hunks)
  }

  lemma {:induction false} HunksCount(hunks: seq<Hunk>)
    requires forall j | 0 <= j < |hunks| :: Written(hunks[j])
    ensures CountedInHunks(AllAsRead(hunks)) + LostInHunks(hunks) == NonblankInHunks(hunks) + GainedInHunks(hunks)
  {
    hide Written, NonblankIn, Counted, Extras, LostTo, GainedTo, AllPieces, ReadAll, PrintLines;
    if hunks != [] {
      var rest, last := hunks[..|hunks| - 1], hunks[|hunks| - 1];
      HunksCount(rest);
      CountedTo(last, |last.lines|);
      ReadToIsRead(last, |last.lines|);
      WholeSlices(last);
      assert AllAsRead(hunks)[..|hunks| - 1] == AllAsRead(rest);
    }
  }

  lemma {:induction false} FilesCount(files: seq<FileDiff>)
    requires Printable(files)
    ensures CountedInDiff(DiffAsRead(files)) + LostIn(files) == NonblankInDiff(files) + GainedIn(files)
  {
    hide PrintableFile, NonblankInHunks, CountedInHunks, LostInHunks, GainedInHunks, Written;
    if files != [] {
      var rest, last := files[..|files| - 1], files[|files| - 1];
      FilesCount(rest);
      forall j | 0 <= j < |last.hunks| ensures Written(last.hunks[j]) {
        PrintableIsWritten(last, j);
      }
      HunksCount(last.hunks);
      assert DiffAsRead(files)[..|files| - 1] == DiffAsRead(rest);
    }
  }

  /**
   * Main result: the count is that of the added lines that are not blank, less the lost ones and plus the gained
   * pieces, so it is exact if and only if as many are lost as are gained.
   */
  lemma NonblankCountIsExact(files: seq<FileDiff>)
    requires Printable(files)
    ensures var count := CountRun(Tally(false, 0), SplitLines(JoinLines(PrintDiff(files)))).count;
      && count + LostIn(files) == NonblankInDiff(files) + GainedIn(files)
      && (count == NonblankInDiff(files) <==> LostIn(files) == GainedIn(files))
  {
    hide CountRun, Printable, Found, DiffAdds, Readable;
    TextIsReadAsDiff(files);
    FilesCount(files);
  }

  // ----- Unbroken hunks -----

  /** A line without a break, except for a carriage return that may end it, never looks blank if it is not. */
  lemma UnbrokenLineIsKept(line: DiffLine)
    requires Plain(line) && Unbroken(PrintLine(line))
    ensures !LooksBlank(line)
  {
    hide Strip, HunkStart, Pieces, FirstPiece;
    if line.Added? && !Blank(line.text) {
      var text := PrintLine(line);
      UnbrokenIsLine(text);
      MarkIsKept(line);
      UnbrokenFirst(text);
      var part := FirstPiece(text);
      StrippedIsEmpty(part[1..]);
      StrippedIsEmpty(line.text);
      assert forall i | 0 <= i < |line.text| :: line.text[i] == if i + 1 < |part| then part[1..][i] else '\r';
    }
  }

  lemma UnbrokenIsLine(text: string)
    requires Unbroken(text)
    ensures IsLine(text)
  {
    assert forall c | !IsBreak(c) :: c != '\n';
    assert !OneLine(text) ==> forall i | 0 <= i < |text| - 1 :: text[i] == text[..|text| - 1][i];
  }

  lemma UnbrokenFirst(text: string)
    requires Unbroken(text)
    ensures FirstPiece(text) == text || FirstPiece(text) + "\r" == text
  {
    hide Pieces, OneLine;
    if OneLine(text) {
      WholeLine(text);
    } else {
      assert text == text[..|text| - 1] + "\r";
      WholeLine(text[..|text| - 1]);
    }
  }

  lemma {:induction false} NotOpened(lines: seq<DiffLine>)
    requires !OpenedIn(lines, |lines|)
    ensures OpenAfter(true, lines)
  {
    hide HunkStart;
    if lines != [] {
      assert !Opens(PrintLine(lines[|lines| - 1]));
      NotOpened(lines[..|lines| - 1]);
    }
  }

  lemma UnbrokenIsWritten(h: Hunk)
    requires PlainHunk(h) && UnbrokenHunk(h)
    ensures Written(h)
  {
    hide Unbroken, IsLine;
    UnbrokenIsLine(h.section);
    forall i | 0 <= i < |h.lines| ensures IsLine(PrintLine(h.lines[i])) {
      UnbrokenIsLine(PrintLine(h.lines[i]));
    }
  }

  /** Nothing closes a hunk in which nothing is broken. */
  lemma UnbrokenIsOpen(h: Hunk, m: nat)
    requires PlainHunk(h) && UnbrokenHunk(h) && m <= |h.lines|
    ensures OpenAt(h, m)
  {
    hide Extras, Unbroken, OpenedIn, Plain, OpenAfter, ReadTo;
    UnbrokenIsWritten(h);
    NoExtras(h, m);
    OpenedIsExtra(h, m);
    NotOpened(ReadTo(h, m));
  }

  /** Nothing is lost or gained where nothing but a final carriage return breaks a line. */
  lemma {:induction false} UnbrokenHunkIsCounted(h: Hunk, m: nat)
    requires PlainHunk(h) && UnbrokenHunk(h) && m <= |h.lines|
    ensures LostTo(h, m) == 0 && GainedTo(h, m) == 0
  {
    hide Extras, Unbroken, LooksBlank, Plain, Blank, OpenAt, PrintLine;
    if m == 0 {
      UnbrokenHasNoExtras(h.section);
    } else {
      UnbrokenHunkIsCounted(h, m - 1);
      UnbrokenIsOpen(h, m - 1);
      UnbrokenLineIsKept(h.lines[m - 1]);
      UnbrokenHasNoExtras(PrintLine(h.lines[m - 1]));
    }
  }
}
