/** When the locations found in a diff are exact: which pieces after a line break move or add locations. */
module DiffExactness {
  import opened DiffText
  import opened DiffLocations
  import opened DiffBreaks

  // ----- The numbers of the added lines -----

  /** The head-side numbers of the added lines, in order. */
  function AddedNumbers(start: nat, lines: seq<DiffLine>): seq<nat> {
    if lines == [] then []
    else
      var init := lines[..|lines| - 1];
      AddedNumbers(start, init) + if lines[|lines| - 1].Added? then [start + |HeadText(init)|] else []
  }

  lemma {:induction false} HeadTextAppend(a: seq<DiffLine>, b: seq<DiffLine>)
    ensures HeadText(a + b) == HeadText(a) + HeadText(b)
  {
    if b == [] {
      assert a + b == a;
    } else {
      assert (a + b)[..|a + b| - 1] == a + b[..|b| - 1];
      HeadTextAppend(a, b[..|b| - 1]);
    }
  }

  lemma {:induction false} AddedNumbersAppend(start: nat, a: seq<DiffLine>, b: seq<DiffLine>)
    ensures AddedNumbers(start, a + b) == AddedNumbers(start, a) + AddedNumbers(start + |HeadText(a)|, b)
  {
    hide HeadText;
    if b == [] {
      assert a + b == a;
    } else {
      var init := b[..|b| - 1];
      assert (a + b)[..|a + b| - 1] == a + init;
      AddedNumbersAppend(start, a, init);
      HeadTextAppend(a, init);
    }
  }

  ghost predicate Increasing(numbers: seq<nat>) {
    forall i, j | 0 <= i < j < |numbers| :: numbers[i] < numbers[j]
  }

  lemma {:induction false} AddedNumbersIncrease(start: nat, lines: seq<DiffLine>)
    ensures Increasing(AddedNumbers(start, lines))
    ensures forall i | 0 <= i < |AddedNumbers(start, lines)| ::
      AddedNumbers(start, lines)[i] < start + |HeadText(lines)|
  {
    if lines != [] {
      AddedNumbersIncrease(start, lines[..|lines| - 1]);
    }
  }

  /** The added numbers are the numbers that the hunk adds. */
  lemma {:induction false} NumbersAreAdded(h: Hunk, m: nat, n: nat)
    requires m <= |h.lines|
    ensures n in AddedNumbers(h.start, h.lines[..m]) <==> exists i :: i < m && AddsAt(h, i, n)
  {
    hide HeadText;
    if m > 0 {
      NumbersAreAdded(h, m - 1, n);
      assert h.lines[..m][..m - 1] == h.lines[..m - 1];
      assert AddsAt(h, m - 1, n) <==> h.lines[m - 1].Added? && h.start + |HeadText(h.lines[..m - 1])| == n;
      if exists i :: i < m && AddsAt(h, i, n) {
        var i :| i < m && AddsAt(h, i, n);
        assert i < m - 1 || i == m - 1;
      }
    }
  }

  lemma HunkAddsNumbers(h: Hunk, n: nat)
    ensures n in AddedNumbers(h.start, h.lines) <==> HunkAdds(h, n)
  {
    NumbersAreAdded(h, |h.lines|, n);
    assert h.lines[..|h.lines|] == h.lines;
    assert forall i | AddsAt(h, i, n) :: i < |h.lines|;
  }

  ghost predicate SameNumbers(a: seq<nat>, b: seq<nat>) {
    forall n :: n in a <==> n in b
  }

  lemma WithoutLast(a: seq<nat>, n: nat)
    requires Increasing(a) && a != []
    ensures n in a[..|a| - 1] <==> n in a && n != a[|a| - 1]
    ensures n in a ==> n <= a[|a| - 1]
  {
    assert a == a[..|a| - 1] + [a[|a| - 1]];
    assert forall i | 0 <= i < |a| - 1 :: a[..|a| - 1][i] == a[i];
  }

  lemma SameLast(a: seq<nat>, b: seq<nat>)
    requires Increasing(a) && Increasing(b) && SameNumbers(a, b) && a != [] && b != []
    ensures a[|a| - 1] == b[|b| - 1] && SameNumbers(a[..|a| - 1], b[..|b| - 1])
  {
    var x, y := a[|a| - 1], b[|b| - 1];
    assert x in a && y in b;
    WithoutLast(a, y);
    WithoutLast(b, x);
    var initA, initB := a[..|a| - 1], b[..|b| - 1];
    forall n ensures n in initA <==> n in initB {
      WithoutLast(a, n);
      WithoutLast(b, n);
    }
  }

  lemma SameEmptiness(a: seq<nat>, b: seq<nat>)
    requires SameNumbers(a, b)
    ensures a == [] <==> b == []
  {
    if a != [] {
      assert a[0] in a;
    }
    if b != [] {
      assert b[0] in b;
    }
  }

  lemma {:induction false} IncreasingIsUnique(a: seq<nat>, b: seq<nat>)
    requires Increasing(a) && Increasing(b) && SameNumbers(a, b)
    ensures a == b
  {
    SameEmptiness(a, b);
    if a != [] {
      SameLast(a, b);
      hide SameNumbers;
      IncreasingIsUnique(a[..|a| - 1], b[..|b| - 1]);
      assert a == a[..|a| - 1] + [a[|a| - 1]] && b == b[..|b| - 1] + [b[|b| - 1]];
    }
  }

  // ----- The pieces that a hunk is read as, line by line -----

  /** The pieces after the breaks in the section and in the first `m` lines of a hunk. */
  function ExtrasTo(h: Hunk, m: nat): seq<string>
    requires m <= |h.lines|
  {
    if m == 0 then Extras(h.section) else ExtrasTo(h, m - 1) + Extras(PrintLine(h.lines[m - 1]))
  }

  /** What the section and the first `m` lines of a hunk are read as. */
  function ReadTo(h: Hunk, m: nat): seq<DiffLine>
    requires m <= |h.lines|
  {
    if m == 0 then ReadAll(Extras(h.section))
    else
      var text := PrintLine(h.lines[m - 1]);
      ReadTo(h, m - 1) + [ReadLine(FirstPiece(text))] + ReadAll(Extras(text))
  }

  ghost predicate Written(h: Hunk) {
    Writable(h) && PlainHunk(h)
  }

  lemma PiecesSplit(text: string)
    requires IsLine(text)
    ensures Pieces(text) == [FirstPiece(text)] + Extras(text)
    ensures FirstPiece(text) == text[..FirstLength(text)]
  {
    hide FirstLength;
    PiecesOf(text);
  }

  lemma ReadAllAppend(a: seq<string>, b: seq<string>)
    ensures ReadAll(a + b) == ReadAll(a) + ReadAll(b)
  {
  }

  lemma {:induction false} ReadToIsRead(h: Hunk, m: nat)
    requires Written(h) && m <= |h.lines|
    ensures ReadTo(h, m) == ReadAll(Extras(h.section) + AllPieces(PrintLines(h.lines)[..m]))
  {
    hide Extras, FirstPiece, Pieces, IsLine, PlainHunk, PrintLine, ReadLine;
    var printed := PrintLines(h.lines);
    if m == 0 {
      assert printed[..0] == [] && Extras(h.section) + [] == Extras(h.section);
    } else {
      var text := PrintLine(h.lines[m - 1]);
      ReadToIsRead(h, m - 1);
      PiecesSplit(text);
      var before := AllPieces(printed[..m - 1]);
      assert printed[..m][..m - 1] == printed[..m - 1] && printed[..m][m - 1] == text;
      assert AllPieces(printed[..m]) == before + Pieces(text);
      assert Extras(h.section) + (before + Pieces(text))
        == Extras(h.section) + before + [FirstPiece(text)] + Extras(text);
      ReadAllAppend(Extras(h.section) + before + [FirstPiece(text)], Extras(text));
      ReadAllAppend(Extras(h.section) + before, [FirstPiece(text)]);
    }
  }

  /** How many head lines a line takes. */
  function HeadSteps(line: DiffLine): nat {
    if line.Removed? || line.NoNewline? then 0 else 1
  }

  /** The first piece of a line is a line of the same kind. */
  lemma FirstKeepsKind(line: DiffLine)
    requires Plain(line) && IsLine(PrintLine(line))
    ensures var first := ReadLine(FirstPiece(PrintLine(line)));
      && first.Added? == line.Added? && HeadSteps(first) == HeadSteps(line)
      && (line.Added? ==> first.text <= line.text)
  {
    hide HunkStart, Pieces, FirstLength;
    var text := PrintLine(line);
    PiecesSplit(text);
    var part := FirstPiece(text);
    assert part <= text;
    if line.Bare? {
      forall mark | mark in ["+", "-", "\\ No newline"] && mark <= part ensures mark <= text {
        PrefixOfPrefix(mark, part, text);
      }
      assert ["+", "-", "\\ No newline"][0] == "+" && ["+", "-", "\\ No newline"][1] == "-";
      assert ["+", "-", "\\ No newline"][2] == "\\ No newline";
    } else {
      MarkIsKept(line);
    }
  }

  lemma MarkIsKept(line: DiffLine)
    requires !line.Bare? && IsLine(PrintLine(line))
    ensures var part := FirstPiece(PrintLine(line));
      match line
      case Added(text) => "+" <= part && part[1..] <= text
      case Removed(_) => "-" <= part
      case NoNewline(_) => "\\ No newline" <= part
      case Context(_) => " " <= part
      case Bare(_) => true
  {
    hide Pieces, FirstLength;
    var mark := if line.NoNewline? then "\\ No newline" else [PrintLine(line)[0]];
    var rest := PrintLine(line)[|mark|..];
    assert PrintLine(line) == mark + rest && OneLine(mark);
    PiecesAfter(mark, rest);
    PiecesSplit(rest);
    assert FirstPiece(PrintLine(line)) == mark + FirstPiece(rest);
    assert FirstPiece(rest) <= rest;
    assert line.Added? ==> rest == line.text && (mark + FirstPiece(rest))[1..] == FirstPiece(rest);
  }

  // ----- Which pieces disturb a hunk -----

  /** A piece after a break that is taken for an added line, or for any line of the head file. */
  predicate Adds(piece: string) {
    "+" <= piece
  }

  predicate Moves(piece: string) {
    !("-" <= piece) && !("\\ No newline" <= piece)
  }

  ghost predicate NoneAdds(pieces: seq<string>) {
    forall i | 0 <= i < |pieces| :: !Adds(pieces[i])
  }

  ghost predicate NoneMoves(pieces: seq<string>) {
    forall i | 0 <= i < |pieces| :: !Moves(pieces[i])
  }

  /** In the first `m` lines nothing is taken for an added line, and no added line is moved. */
  ghost predicate UndisturbedTo(h: Hunk, m: nat)
    requires m <= |h.lines|
  {
    && NoneAdds(ExtrasTo(h, m))
    && forall i | 0 <= i < m && h.lines[i].Added? :: NoneMoves(ExtrasTo(h, i))
  }

  /**
   * No break of the hunk is followed by a plus sign, and before an added line every break is followed by a minus sign
   * or by the mark of a missing newline.
   */
  ghost predicate Undisturbed(h: Hunk) {
    UndisturbedTo(h, |h.lines|)
  }

  lemma PieceMoves(piece: string)
    ensures Moves(piece) <==> HeadSteps(ReadLine(piece)) == 1
    ensures Adds(piece) <==> ReadLine(piece).Added?
  {
    assert "+"[0] == '+' && "-"[0] == '-' && "\\ No newline"[0] == '\\' && " "[0] == ' ';
  }

  lemma {:induction false} MovedLines(pieces: seq<string>)
    ensures |HeadText(ReadAll(pieces))| == 0 <==> NoneMoves(pieces)
  {
    hide Moves, ReadLine;
    if pieces != [] {
      var init, last := pieces[..|pieces| - 1], pieces[|pieces| - 1];
      MovedLines(init);
      assert ReadAll(pieces)[..|pieces| - 1] == ReadAll(init);
      PieceMoves(last);
      assert forall i | 0 <= i < |init| :: init[i] == pieces[i];
    }
  }

  lemma {:induction false} AddedPieces(start: nat, pieces: seq<string>)
    ensures AddedNumbers(start, ReadAll(pieces)) == [] <==> NoneAdds(pieces)
  {
    hide HeadText, Adds, ReadLine;
    if pieces != [] {
      var init, last := pieces[..|pieces| - 1], pieces[|pieces| - 1];
      AddedPieces(start, init);
      assert ReadAll(pieces)[..|pieces| - 1] == ReadAll(init);
      PieceMoves(last);
      assert forall i | 0 <= i < |init| :: init[i] == pieces[i];
    }
  }

  /** One more line of a hunk, as it is and as it is read. */
  lemma NextLine(h: Hunk, m: nat)
    requires Written(h) && 0 < m <= |h.lines|
    ensures var line, text := h.lines[m - 1], PrintLine(h.lines[m - 1]);
      var before, after := h.start + |HeadText(ReadTo(h, m - 1))|, h.start + |HeadText(h.lines[..m - 1])|;
      && |HeadText(h.lines[..m])| == |HeadText(h.lines[..m - 1])| + HeadSteps(line)
      && |HeadText(ReadTo(h, m))| == |HeadText(ReadTo(h, m - 1))| + HeadSteps(line) + |HeadText(ReadAll(Extras(text)))|
      && AddedNumbers(h.start, h.lines[..m])
           == AddedNumbers(h.start, h.lines[..m - 1]) + (if line.Added? then [after] else [])
      && AddedNumbers(h.start, ReadTo(h, m))
         == AddedNumbers(h.start, ReadTo(h, m - 1)) + (if line.Added? then [before] else [])
            + AddedNumbers(before + HeadSteps(line), ReadAll(Extras(text)))
  {
    hide HunkStart, Pieces, Extras, FirstPiece, ReadAll, PrintLine, ReadLine, HeadText, AddedNumbers, HeadSteps, Plain;
    var line, text := h.lines[m - 1], PrintLine(h.lines[m - 1]);
    assert h.lines[..m] == h.lines[..m - 1] + [line];
    OneLineRead(h.start, h.lines[..m - 1], line);
    FirstKeepsKind(line);
    var first := ReadLine(FirstPiece(text));
    OneLineRead(h.start, ReadTo(h, m - 1), first);
    HeadTextAppend(ReadTo(h, m - 1) + [first], ReadAll(Extras(text)));
    AddedNumbersAppend(h.start, ReadTo(h, m - 1) + [first], ReadAll(Extras(text)));
  }

  lemma OneLineRead(start: nat, before: seq<DiffLine>, line: DiffLine)
    ensures |HeadText(before + [line])| == |HeadText(before)| + HeadSteps(line)
    ensures AddedNumbers(start, before + [line])
      == AddedNumbers(start, before) + if line.Added? then [start + |HeadText(before)|] else []
  {
    assert (before + [line])[..|before|] == before;
  }

  /** How far reading runs ahead, and how many numbers it has too many. */
  lemma {:induction false} ReadRunsAhead(h: Hunk, m: nat)
    requires Written(h) && m <= |h.lines|
    ensures |HeadText(ReadTo(h, m))| == |HeadText(h.lines[..m])| + |HeadText(ReadAll(ExtrasTo(h, m)))|
    ensures |AddedNumbers(h.start, ReadTo(h, m))| >= |AddedNumbers(h.start, h.lines[..m])|
  {
    hide HeadText, AddedNumbers, Extras, Written, PrintLine;
    if m == 0 {
      assert h.lines[..0] == [] && HeadText([]) == [] && AddedNumbers(h.start, []) == [] by { NothingRead(h.start); }
    } else {
      ReadRunsAhead(h, m - 1);
      NextLine(h, m);
      var text := PrintLine(h.lines[m - 1]);
      ReadAllAppend(ExtrasTo(h, m - 1), Extras(text));
      HeadTextAppend(ReadAll(ExtrasTo(h, m - 1)), ReadAll(Extras(text)));
    }
  }

  lemma NothingRead(start: nat)
    ensures HeadText([]) == [] && AddedNumbers(start, []) == []
  {
  }

  lemma NoneAddsAppend(a: seq<string>, b: seq<string>)
    ensures NoneAdds(a + b) <==> NoneAdds(a) && NoneAdds(b)
  {
    assert forall i | 0 <= i < |a| :: (a + b)[i] == a[i];
    assert forall i | 0 <= i < |b| :: (a + b)[|a| + i] == b[i];
  }

  /** The numbers read are the numbers added exactly as long as nothing disturbs them. */
  lemma {:induction false} NumbersReadExactly(h: Hunk, m: nat)
    requires Written(h) && m <= |h.lines|
    ensures AddedNumbers(h.start, ReadTo(h, m)) == AddedNumbers(h.start, h.lines[..m]) <==> UndisturbedTo(h, m)
  {
    hide HeadText, AddedNumbers, Extras, Written, PrintLine, NoneAdds, NoneMoves, ReadTo, ExtrasTo, UndisturbedTo;
    if m == 0 {
      SectionReadExactly(h);
    } else {
      NumbersReadExactly(h, m - 1);
      NextReadExactly(h, m);
      UndisturbedNext(h, m);
    }
  }

  lemma SectionReadExactly(h: Hunk)
    ensures AddedNumbers(h.start, ReadTo(h, 0)) == AddedNumbers(h.start, h.lines[..0]) <==> UndisturbedTo(h, 0)
  {
    hide HeadText, AddedNumbers, Extras, NoneAdds, NoneMoves;
    assert h.lines[..0] == [];
    NothingRead(h.start);
    AddedPieces(h.start, Extras(h.section));
  }

  /** The next line and its pieces keep the numbers equal exactly if they neither add nor were moved. */
  lemma NextReadExactly(h: Hunk, m: nat)
    requires Written(h) && 0 < m <= |h.lines|
    ensures var line := h.lines[m - 1];
      AddedNumbers(h.start, ReadTo(h, m)) == AddedNumbers(h.start, h.lines[..m]) <==>
        && AddedNumbers(h.start, ReadTo(h, m - 1)) == AddedNumbers(h.start, h.lines[..m - 1])
        && NoneAdds(Extras(PrintLine(line))) && (line.Added? ==> NoneMoves(ExtrasTo(h, m - 1)))
  {
    hide HeadText, AddedNumbers, Extras, Written, PrintLine, NoneAdds, NoneMoves, ReadTo, ExtrasTo, HeadSteps;
    var line, extras := h.lines[m - 1], Extras(PrintLine(h.lines[m - 1]));
    var found, right := h.start + |HeadText(ReadTo(h, m - 1))|, h.start + |HeadText(h.lines[..m - 1])|;
    NextLine(h, m);
    ReadRunsAhead(h, m - 1);
    AddedPieces(found + HeadSteps(line), extras);
    MovedLines(ExtrasTo(h, m - 1));
    SplitEqual(AddedNumbers(h.start, ReadTo(h, m - 1)), AddedNumbers(h.start, h.lines[..m - 1]),
               if line.Added? then [found] else [], if line.Added? then [right] else [],
               AddedNumbers(found + HeadSteps(line), ReadAll(extras)));
  }

  lemma UndisturbedNext(h: Hunk, m: nat)
    requires 0 < m <= |h.lines|
    ensures UndisturbedTo(h, m) <==>
      && UndisturbedTo(h, m - 1) && NoneAdds(Extras(PrintLine(h.lines[m - 1])))
      && (h.lines[m - 1].Added? ==> NoneMoves(ExtrasTo(h, m - 1)))
  {
    hide NoneAdds, NoneMoves, Extras;
    NoneAddsAppend(ExtrasTo(h, m - 1), Extras(PrintLine(h.lines[m - 1])));
  }

  /** Equal sequences of parts, the first of which can only be too long, have equal parts. */
  lemma SplitEqual(a: seq<nat>, b: seq<nat>, x: seq<nat>, y: seq<nat>, extra: seq<nat>)
    requires |a| >= |b| && |x| == |y|
    ensures a + x + extra == b + y <==> a == b && x == y && extra == []
  {
    if a + x + extra == b + y {
      assert |a| == |b| && extra == [];
      assert a == (a + x + extra)[..|a|] && b == (b + y)[..|a|];
      assert x == (a + x + extra)[|a|..|a| + |x|] && y == (b + y)[|a|..|a| + |x|];
    }
  }

  /** Main result: what is read of a hunk adds exactly what the hunk adds, if and only if nothing disturbs it. */
  lemma HunkIsReadExactly(h: Hunk)
    requires Written(h)
    ensures (forall n :: HunkAdds(AsRead(h), n) <==> HunkAdds(h, n)) <==> Undisturbed(h)
  {
    hide HunkAdds, AddedNumbers, UndisturbedTo, Increasing, Written, Extras, AllPieces, PrintLines, ReadAll;
    var numbers, found := AddedNumbers(h.start, h.lines), AddedNumbers(h.start, AsRead(h).lines);
    ReadToIsRead(h, |h.lines|);
    NumbersReadExactly(h, |h.lines|);
    WholeSlices(h);
    AddedNumbersIncrease(h.start, h.lines);
    AddedNumbersIncrease(h.start, AsRead(h).lines);
    assert SameNumbers(found, numbers) <==> forall n :: HunkAdds(AsRead(h), n) <==> HunkAdds(h, n) by {
      forall n ensures (n in numbers <==> HunkAdds(h, n)) && (n in found <==> HunkAdds(AsRead(h), n)) {
        HunkAddsNumbers(h, n);
        HunkAddsNumbers(AsRead(h), n);
      }
    }
    hide SameNumbers;
    if SameNumbers(found, numbers) {
      IncreasingIsUnique(found, numbers);
    }
    if found == numbers {
      assert SameNumbers(found, numbers) by { EqualHaveSameNumbers(found, numbers); }
    }
  }

  lemma EqualHaveSameNumbers(a: seq<nat>, b: seq<nat>)
    requires a == b
    ensures SameNumbers(a, b)
  {
  }

  lemma WholeSlices(h: Hunk)
    ensures h.lines[..|h.lines|] == h.lines && PrintLines(h.lines)[..|h.lines|] == PrintLines(h.lines)
  {
  }

  // ----- Pieces that open a file or a hunk -----

  predicate AnyOpens(texts: seq<string>) {
    exists i | 0 <= i < |texts| :: Opens(texts[i])
  }

  lemma OpensExtends(part: string, text: string)
    requires part <= text && Opens(part)
    ensures Opens(text)
  {
    hide HunkStart;
    if HunkStart(part).Some? {
      HunkStartExtends(part, text);
    } else {
      PrefixOfPrefix("diff --git ", part, text);
    }
  }

  lemma FirstOpensNothing(line: DiffLine)
    requires Plain(line) && IsLine(PrintLine(line))
    ensures !Opens(PrintLine(ReadLine(FirstPiece(PrintLine(line)))))
  {
    hide Opens, ReadLine, Pieces, FirstPiece, FirstLength;
    var text := PrintLine(line);
    PiecesSplit(text);
    ReadLinePrints(FirstPiece(text));
    if Opens(FirstPiece(text)) {
      OpensExtends(FirstPiece(text), text);
    }
  }

  lemma OpenedInRead(texts: seq<string>)
    ensures OpenedIn(ReadAll(texts), |texts|) <==> AnyOpens(texts)
  {
    hide Opens, ReadLine, PrintLine;
    forall i | 0 <= i < |texts| ensures PrintLine(ReadAll(texts)[i]) == texts[i] {
      ReadLinePrints(texts[i]);
    }
  }

  lemma OpenedInAppend(a: seq<DiffLine>, b: seq<DiffLine>)
    ensures OpenedIn(a + b, |a + b|) <==> OpenedIn(a, |a|) || OpenedIn(b, |b|)
  {
    hide Opens, PrintLine;
    assert forall i | 0 <= i < |a| :: (a + b)[i] == a[i];
    assert forall i | 0 <= i < |b| :: (a + b)[|a| + i] == b[i];
  }

  lemma AnyOpensAppend(a: seq<string>, b: seq<string>)
    ensures AnyOpens(a + b) <==> AnyOpens(a) || AnyOpens(b)
  {
    hide Opens;
    assert forall i | 0 <= i < |a| :: (a + b)[i] == a[i];
    assert forall i | 0 <= i < |b| :: (a + b)[|a| + i] == b[i];
  }

  /** Only what follows a break can open a file or a hunk. */
  lemma {:induction false} OpenedIsExtra(h: Hunk, m: nat)
    requires Written(h) && m <= |h.lines|
    ensures OpenedIn(ReadTo(h, m), |ReadTo(h, m)|) <==> AnyOpens(ExtrasTo(h, m))
  {
    hide OpenedIn, AnyOpens, Extras, FirstPiece, ReadAll, ReadLine, PrintLine, Plain;
    if m == 0 {
      OpenedInRead(Extras(h.section));
    } else {
      var line, text := h.lines[m - 1], PrintLine(h.lines[m - 1]);
      var first := ReadLine(FirstPiece(text));
      OpenedIsExtra(h, m - 1);
      FirstOpensNothing(line);
      OpenedInRead(Extras(text));
      OpenedInAppend(ReadTo(h, m - 1) + [first], ReadAll(Extras(text)));
      OpenedInAppend(ReadTo(h, m - 1), [first]);
      OpenedInOne(first);
      AnyOpensAppend(ExtrasTo(h, m - 1), Extras(text));
    }
  }

  lemma OpenedInOne(line: DiffLine)
    ensures OpenedIn([line], 1) <==> Opens(PrintLine(line))
  {
    hide Opens, PrintLine;
    assert [line][0] == line;
  }

  /** What opens a file or a hunk is no mark of a removed line. */
  lemma OpeningMoves(texts: seq<string>)
    requires AnyOpens(texts)
    ensures !NoneMoves(texts)
  {
    var i :| 0 <= i < |texts| && Opens(texts[i]);
    assert "diff --git "[0] == 'd' && "@@ -"[0] == '@' && "-"[0] == '-' && "\\ No newline"[0] == '\\';
    assert Moves(texts[i]);
  }

  lemma NoneAddedRead(texts: seq<string>)
    requires NoneAdds(texts)
    ensures NoneAdded(ReadAll(texts))
  {
    assert forall i | 0 <= i < |texts| :: !Adds(texts[i]);
  }

  lemma CalmAppend(a: seq<DiffLine>, line: DiffLine, b: seq<DiffLine>)
    requires Calm(a) && (line.Added? ==> !OpenedIn(a, |a|)) && NoneAdded(b)
    ensures Calm(a + [line] + b)
  {
    hide Opens, PrintLine;
    var all := a + [line] + b;
    assert forall i | 0 <= i < |a| :: all[i] == a[i];
    assert forall i | |a| < i < |all| :: all[i] == b[i - |a| - 1];
  }

  /** A hunk that nothing disturbs adds nothing after what opens a file or a hunk. */
  lemma {:induction false} UndisturbedIsCalm(h: Hunk, m: nat)
    requires Written(h) && m <= |h.lines| && UndisturbedTo(h, m)
    ensures Calm(ReadTo(h, m))
  {
    hide OpenedIn, AnyOpens, Extras, FirstPiece, ReadAll, ReadLine, PrintLine, Plain, NoneAdds, NoneMoves, NoneAdded;
    hide Calm;
    if m == 0 {
      NoneAddedRead(Extras(h.section));
      NoneAddedIsCalm(ReadAll(Extras(h.section)));
    } else {
      var line, text := h.lines[m - 1], PrintLine(h.lines[m - 1]);
      UndisturbedNext(h, m);
      UndisturbedIsCalm(h, m - 1);
      FirstKeepsKind(line);
      NoneAddedRead(Extras(text));
      OpenedIsExtra(h, m - 1);
      if line.Added? && AnyOpens(ExtrasTo(h, m - 1)) {
        OpeningMoves(ExtrasTo(h, m - 1));
      }
      CalmAppend(ReadTo(h, m - 1), ReadLine(FirstPiece(text)), ReadAll(Extras(text)));
    }
  }

  lemma NoneAddedIsCalm(lines: seq<DiffLine>)
    requires NoneAdded(lines)
    ensures Calm(lines)
  {
  }

  lemma UndisturbedReadsCalm(h: Hunk)
    requires Written(h) && Undisturbed(h)
    ensures Calm(AsRead(h).lines)
  {
    hide Calm, Written, UndisturbedTo, Extras, AllPieces, PrintLines, ReadAll;
    ReadToIsRead(h, |h.lines|);
    WholeSlices(h);
    UndisturbedIsCalm(h, |h.lines|);
  }

  // ----- Whole diffs -----

  ghost predicate UndisturbedFile(f: FileDiff) {
    forall j | 0 <= j < |f.hunks| :: Undisturbed(f.hunks[j])
  }

  /** The parser finds exactly the lines that the diff adds. */
  ghost predicate IsExact(files: seq<FileDiff>) {
    forall at :: at in Found(files) <==> DiffAdds(files, at)
  }

  lemma PrintableIsWritten(f: FileDiff, j: nat)
    requires PrintableFile(f) && j < |f.hunks|
    ensures Written(f.hunks[j])
  {
    hide Writable, PlainHunk;
  }

  lemma FileAddsTheSame(f: FileDiff, at: Location)
    requires PrintableFile(f) && (f.target.Named? ==> UndisturbedFile(f))
    ensures FileAdds(FileAsRead(f), at) <==> FileAdds(f, at)
  {
    hide HunkAdds, Undisturbed, AsRead, PrintableFile, Written;
    forall j | 0 <= j < |f.hunks| && f.target.Named?
      ensures HunkAdds(AsRead(f.hunks[j]), at.1) <==> HunkAdds(f.hunks[j], at.1)
    {
      PrintableIsWritten(f, j);
      HunkIsReadExactly(f.hunks[j]);
    }
  }

  /** The hunks of a named file are undisturbed, and no file adds a line after a part that opens a file. */
  ghost predicate UndisturbedThroughout(f: FileDiff) {
    (f.target.Named? ==> UndisturbedFile(f)) && StaysClosed(FileAsRead(f).hunks)
  }

  lemma UndisturbedIsReadable(f: FileDiff)
    requires PrintableFile(f) && UndisturbedThroughout(f)
    ensures Readable(FileAsRead(f))
  {
    hide PrintableFile, Undisturbed, AsRead, Written, MarkedFile, StaysClosed, Calm;
    FilePieces(f);
    forall j | 0 <= j < |f.hunks| && f.target.Named? ensures Calm(AsRead(f.hunks[j]).lines) {
      PrintableIsWritten(f, j);
      UndisturbedReadsCalm(f.hunks[j]);
    }
  }

  /**
   * Main result: if nothing disturbs the hunks of its named files, and nothing is added after a part that opens a file,
   * exactly the lines that a diff adds are found.
   */
  lemma AddedLinesAreExact(files: seq<FileDiff>)
    requires Printable(files) && forall k | 0 <= k < |files| :: UndisturbedThroughout(files[k])
    ensures IsExact(files)
  {
    hide FileAdds, PrintableFile, UndisturbedFile, Found, FileAsRead, Readable, StaysClosed, CountedInDiff, CountRun;
    forall k | 0 <= k < |files| ensures Readable(FileAsRead(files[k])) {
      UndisturbedIsReadable(files[k]);
    }
    TextIsReadAsDiff(files);
    forall at ensures DiffAdds(DiffAsRead(files), at) <==> DiffAdds(files, at) {
      forall k | 0 <= k < |files| ensures FileAdds(FileAsRead(files[k]), at) <==> FileAdds(files[k], at) {
        FileAddsTheSame(files[k], at);
      }
    }
  }

  lemma OneHunkStaysClosed(h: Hunk)
    requires Calm(h.lines)
    ensures StaysClosed([h])
  {
    hide HunkStart;
    assert forall i | 0 <= i < |h.lines| && OpensFile(h.lines[i]) :: Opens(PrintLine(h.lines[i]));
  }

  /**
   * Main result: a diff of one hunk that nothing disturbs is found exactly; and unless it adds a line after a part that
   * opens a file or a hunk, it is found exactly only then.
   */
  lemma OneHunkIsExact(f: FileDiff)
    requires PrintableFile(f) && f.target.Named? && |f.hunks| == 1
    ensures Undisturbed(f.hunks[0]) ==> IsExact([f])
    ensures Calm(AsRead(f.hunks[0]).lines) ==> (IsExact([f]) <==> Undisturbed(f.hunks[0]))
  {
    hide HunkAdds, Undisturbed, AsRead, PrintableFile, Written, Found, Calm, IsExact;
    var h := f.hunks[0];
    PrintableIsWritten(f, 0);
    HunkIsReadExactly(h);
    if Undisturbed(h) {
      UndisturbedReadsCalm(h);
    }
    if Calm(AsRead(h).lines) {
      OneCalmHunk(f);
    }
  }

  /** What is found of a calm hunk is exact if and only if what is read of it is. */
  lemma OneCalmHunk(f: FileDiff)
    requires PrintableFile(f) && f.target.Named? && |f.hunks| == 1 && Calm(AsRead(f.hunks[0]).lines)
    ensures IsExact([f]) <==> forall n :: HunkAdds(AsRead(f.hunks[0]), n) <==> HunkAdds(f.hunks[0], n)
  {
    hide HunkAdds, AsRead, PrintableFile, Found, Calm, MarkedFile, StaysClosed, CountedInDiff, CountRun;
    var h := f.hunks[0];
    assert Printable([f]) by { assert [f][0] == f; }
    FilePieces(f);
    OneHunkStaysClosed(AsRead(h));
    assert FileAsRead(f).hunks == [AsRead(h)] && DiffAsRead([f]) == [FileAsRead(f)];
    TextIsReadAsDiff([f]);
    forall at ensures DiffAdds([f], at) <==> at.0 == f.target.path && HunkAdds(h, at.1) {
      OneFileAdds(f, at);
    }
    forall at ensures DiffAdds(DiffAsRead([f]), at) <==> at.0 == f.target.path && HunkAdds(AsRead(h), at.1) {
      OneFileAdds(FileAsRead(f), at);
    }
    if IsExact([f]) {
      forall n ensures HunkAdds(AsRead(h), n) <==> HunkAdds(h, n) {
        var at: Location := (f.target.path, n);
        assert at in Found([f]) <==> DiffAdds([f], at);
      }
    }
  }

  lemma OneFileAdds(f: FileDiff, at: Location)
    requires f.target.Named? && |f.hunks| == 1
    ensures DiffAdds([f], at) <==> at.0 == f.target.path && HunkAdds(f.hunks[0], at.1)
  {
    hide HunkAdds;
    assert [f][0] == f;
  }

  /** A text without a break, except for a carriage return that may end it. */
  predicate Unbroken(text: string) {
    OneLine(text) || (text != "" && text[|text| - 1] == '\r' && OneLine(text[..|text| - 1]))
  }

  lemma UnbrokenHasNoExtras(text: string)
    requires Unbroken(text)
    ensures Extras(text) == []
  {
    hide Pieces, OneLine;
    if OneLine(text) {
      WholeLine(text);
    } else {
      assert text == text[..|text| - 1] + "\r";
      WholeLine(text[..|text| - 1]);
    }
  }

  ghost predicate UnbrokenHunk(h: Hunk) {
    Unbroken(h.section) && forall i | 0 <= i < |h.lines| :: Unbroken(PrintLine(h.lines[i]))
  }

  /** Section and lines without a break, except for a carriage return at their ends, leave nothing to disturb. */
  lemma UnbrokenHunkIsUndisturbed(h: Hunk)
    requires UnbrokenHunk(h)
    ensures Undisturbed(h)
  {
    hide Extras, Unbroken;
    forall m | 0 <= m <= |h.lines| ensures ExtrasTo(h, m) == [] {
      NoExtras(h, m);
    }
  }

  lemma {:induction false} NoExtras(h: Hunk, m: nat)
    requires UnbrokenHunk(h) && m <= |h.lines|
    ensures ExtrasTo(h, m) == []
  {
    hide Extras, Unbroken;
    if m == 0 {
      UnbrokenHasNoExtras(h.section);
    } else {
      NoExtras(h, m - 1);
      UnbrokenHasNoExtras(PrintLine(h.lines[m - 1]));
    }
  }
}
