/** Edits after which a surviving character is read on the wrong line. */
module LineCases {
  import opened LineReader
  import opened LineMarkers
  import opened LineEdits
  import opened LineFidelity
  import opened LineHeads
  import opened LineHeadEdits

  // ----- a marker glued to an insertion

  /** Two admissible edits of "ab": a character inserted before the "b", then the "a" replaced by a whole line. The
      replacement begins at offset 0, so its marker brings no newline and is glued to the insertion. */
  function GluingEdits(): seq<Edit> {
    [Edit(1, 0, "z", false), Edit(0, 1, "q\n", false)]
  }

  function AfterInsertion(path: string): Buffer {
    Buffer("ab", path, [Keep, Keep], [[], [Ch('z')], []])
  }

  function Glued(path: string): Buffer {
    Buffer("ab", path, [Replaced("q\n", 1), Keep], [[], [Ch('z'), Mark(1, path), NL], []])
  }

  lemma GluingInsertion(path: string)
    ensures var e := GluingEdits()[0];
            Admissible(Fresh("ab", path), e) && Applied(Fresh("ab", path), e) == AfterInsertion(path)
  {
    var b, e := Fresh("ab", path), Edit(1, 0, "z", false);
    assert b.original[1..1] == "";
    assert Composed(b, e) == [Ch('z')] && [Ch('z')][..0] == [];
    assert Newlines([Ch('z')]) == 0;
    assert b.cells == [Keep, Keep] && b.ins == [[], [], []];
    assert b.ins[1] + [Ch('z')] == [Ch('z')];
    assert Applied(b, e).ins == [[], [Ch('z')], []];
  }

  lemma GluingReplacement(path: string)
    ensures var e := GluingEdits()[1];
            Admissible(AfterInsertion(path), e) && Applied(AfterInsertion(path), e) == Glued(path)
  {
    var b, e := AfterInsertion(path), Edit(0, 1, "q\n", false);
    assert b.original[0..1] == "a" && "a"[..0] == "" && b.original[..1] == "a";
    assert LinesIn("a") == 0;
    NewlinesOfLift("q\n");
    assert "q\n"[..1] == "q" && "q"[..0] == "";
    assert LinesIn("q\n") == 1;
    assert Anchor(b, e) == 1 && LineOf(b.original, 1) == 1;
    assert ResnapMarker(b, e) == [Mark(1, path), NL];
    assert Applied(b, e).cells == [Replaced("q\n", 1), Keep];
    assert b.ins[1] + ResnapMarker(b, e) == [Ch('z'), Mark(1, path), NL];
    assert Applied(b, e).ins == [[], [Ch('z'), Mark(1, path), NL], []];
  }

  /** The "b" survives and is taken to be on line 3 instead of line 1. */
  lemma GluedMarkerIsMissed(path: string, mirror: string)
    ensures AllAdmissible(Fresh("ab", path), GluingEdits())
    ensures AppliedAll(Fresh("ab", path), GluingEdits()) == Glued(path)
    ensures LineOf("ab", 1) == 1 && ReadTo(Glued(path), mirror, 1).line == 3
  {
    GluingInsertion(path);
    GluingReplacement(path);
    TwoEdits(Fresh("ab", path), GluingEdits()[0], GluingEdits()[1]);
    GluedIsMisread(path, mirror);
  }

  lemma TwoEdits(b: Buffer, e: Edit, f: Edit)
    requires b.Valid() && Admissible(b, e) && Admissible(Applied(b, e), f)
    ensures AllAdmissible(b, [e, f]) && AppliedAll(b, [e, f]) == Applied(Applied(b, e), f)
  {
    assert [e, f][1..] == [f] && [f][1..] == [];
    assert AppliedAll(Applied(b, e), [f]) == AppliedAll(Applied(Applied(b, e), f), []);
  }

  lemma GluedIsMisread(path: string, mirror: string)
    ensures LineOf("ab", 1) == 1 && ReadTo(Glued(path), mirror, 1).line == 3
  {
    var b := Glued(path);
    assert "ab"[..1] == "a" && "a"[..0] == "";
    assert Pieces(b)[0] == [Mark(1, path), NL];
    assert Pieces(b)[1] == [Ch('q'), NL, Ch('z'), Mark(1, path), NL];
    ReadTwoPieces(Opened(mirror), Pieces(b));
    ReadsGlued(Opened(mirror), path);
  }

  // ----- the same by an insertion made before the marker

  /** The replacement first, then the same character inserted before what stands at the "b" by then. */
  function AheadEdits(): seq<Edit> {
    [Edit(0, 1, "q\n", false), Edit(1, 0, "z", true)]
  }

  function AfterReplacement(path: string): Buffer {
    Buffer("ab", path, [Replaced("q\n", 1), Keep], [[], [Mark(1, path), NL], []])
  }

  lemma AheadReplacement(path: string)
    ensures var e := AheadEdits()[0];
            Admissible(Fresh("ab", path), e) && Applied(Fresh("ab", path), e) == AfterReplacement(path)
  {
    var b, e := Fresh("ab", path), Edit(0, 1, "q\n", false);
    assert b.original[0..1] == "a" && "a"[..0] == "" && b.original[..1] == "a";
    assert LinesIn("a") == 0;
    NewlinesOfLift("q\n");
    assert "q\n"[..1] == "q" && "q"[..0] == "";
    assert LinesIn("q\n") == 1;
    assert Anchor(b, e) == 1 && LineOf(b.original, 1) == 1;
    assert ResnapMarker(b, e) == [Mark(1, path), NL];
    assert b.ins[1] + ResnapMarker(b, e) == [Mark(1, path), NL];
    assert Applied(b, e).cells == AfterReplacement(path).cells;
    assert Applied(b, e).ins == AfterReplacement(path).ins;
  }

  lemma AheadInsertion(path: string)
    ensures var e := AheadEdits()[1];
            Admissible(AfterReplacement(path), e) && Applied(AfterReplacement(path), e) == Glued(path)
  {
    var b, e := AfterReplacement(path), Edit(1, 0, "z", true);
    assert b.original[1..1] == "";
    assert Composed(b, e) == [Ch('z')] && [Ch('z')][..0] == [];
    assert Newlines([Ch('z')]) == 0;
    assert [Ch('z')] + b.ins[1] == [Ch('z'), Mark(1, path), NL];
    assert Applied(b, e).ins == Glued(path).ins;
  }

  /** Each edit is admissible, and the "b" is misread as before. The insertion is not tidy; made after the marker it
      would be. */
  lemma AheadOfMarkerIsMissed(path: string, mirror: string)
    ensures AllAdmissible(Fresh("ab", path), AheadEdits())
    ensures AppliedAll(Fresh("ab", path), AheadEdits()) == Glued(path)
    ensures LineOf("ab", 1) == 1 && ReadTo(Glued(path), mirror, 1).line == 3
    ensures !Tidy(AfterReplacement(path), Edit(1, 0, "z", true)) && Tidy(AfterReplacement(path), Edit(1, 0, "z", false))
  {
    AheadReplacement(path);
    AheadInsertion(path);
    TwoEdits(Fresh("ab", path), AheadEdits()[0], AheadEdits()[1]);
    GluedIsMisread(path, mirror);
    AheadIsNotTidy(path);
  }

  lemma AheadIsNotTidy(path: string)
    ensures !Tidy(AfterReplacement(path), Edit(1, 0, "z", true)) && Tidy(AfterReplacement(path), Edit(1, 0, "z", false))
  {
    var b := AfterReplacement(path);
    assert b.ins[1][0].Mark? && b.ins[1][..0] == [];
    assert Bare(b, 1);
    assert Lift("z") == [Ch('z')] && !IsBlank('z');
    assert !KeepsStart("z");
  }

  lemma ReadTwoPieces(r: Reader, pieces: seq<seq<Sym>>)
    requires |pieces| >= 2
    ensures ReadBefore(r, pieces, 2) == Read(Read(r, pieces[0]), pieces[1])
  {
    assert ReadBefore(r, pieces, 1) == Read(ReadBefore(r, pieces, 0), pieces[0]);
  }

  lemma ReadsGlued(r: Reader, path: string)
    requires r.start
    ensures Read(Read(r, [Mark(1, path), NL]), [Ch('q'), NL, Ch('z'), Mark(1, path), NL]).line == 3
  {
    var head := [Mark(1, path), NL];
    ReadDirective(r, head, 0);
    var r0, s := Read(r, head), [Ch('q'), NL, Ch('z'), Mark(1, path), NL];
    var r1 := ReadSym(r0, s[0]);
    var r2 := ReadSym(r1, s[1]);
    var r3 := ReadSym(r2, s[2]);
    var r4 := ReadSym(r3, s[3]);
    assert ReadN(r0, s, 0) == r0;
    assert ReadN(r0, s, 1) == r1;
    assert ReadN(r0, s, 2) == r2;
    assert ReadN(r0, s, 3) == r3;
    assert ReadN(r0, s, 4) == r4;
    assert ReadN(r0, s, 5) == ReadSym(r4, s[4]);
  }

  // ----- blanks before a marker

  /** Text that ends in blanks on a line of its own is no obstacle: every survivor keeps its line. */
  lemma BlanksAreNoObstacle(path: string, mirror: string)
    ensures SurvivorsGood(Applied(Fresh("ab", path), Edit(0, 0, "x\n  ", false)), mirror)
  {
    var s := Lift("x\n  ");
    assert s[..3][..2] == s[..2] && s[..3] == Lift("x\n ") && s[..2] == Lift("x\n");
    assert StartAfter(true, s[..2]);
    assert StartAfter(true, s[..3]);
    assert KeepsStart("x\n  ");
    OneEditIsExact("ab", path, Edit(0, 0, "x\n  ", false), mirror);
  }

  // ----- a marker anchored in text that is replaced already

  const SWALLOWING := "ab\nc\nd"

  function SwallowFirst(): Edit {
    Edit(2, 3, "\n\n", false)
  }

  function SwallowSecond(): Edit {
    Edit(1, 1, "\n\n", false)
  }

  function AfterFirst(path: string): Buffer {
    Buffer(SWALLOWING, path, [Keep, Keep, Replaced("\n\n", 3), Gone, Gone, Keep], [[], [], [], [], [], [], []])
  }

  function AfterSecond(path: string): Buffer {
    Buffer(SWALLOWING, path,
           [Keep, Replaced("\n\n", 1), Replaced("", 1), Replaced("\n\n", 2), Gone, Keep],
           [[], [], [], [NL, Mark(2, path), NL], [], [], []])
  }

  lemma SwallowLines()
    ensures LinesIn("\n\n") == 2 && Newlines(Lift("\n\n")) == 2 && LinesIn("b") == 0 && LinesIn("\nc\n") == 2
    ensures LinesIn("ab\n") == 1 && LinesIn("ab\nc\n") == 2
  {
    NewlinesOfLift("\n\n");
    assert "\n\n"[..1] == "\n" && "\n"[..0] == "" && "b"[..0] == "";
    assert "\nc\n"[..2] == "\nc" && "\nc"[..1] == "\n";
    assert "ab\n"[..2] == "ab" && "ab"[..1] == "a" && "a"[..0] == "";
    assert "ab\nc\n"[..4] == "ab\nc" && "ab\nc"[..3] == "ab\n";
  }

  lemma SwallowingFirst(path: string)
    ensures var b := Fresh(SWALLOWING, path);
            Admissible(b, SwallowFirst()) && Applied(b, SwallowFirst()) == AfterFirst(path)
  {
    var b, e := Fresh(SWALLOWING, path), SwallowFirst();
    SwallowLines();
    assert SWALLOWING[2..5] == "\nc\n";
    assert Applied(b, e).cells == [Keep, Keep, Replaced("\n\n", 3), Gone, Gone, Keep];
    assert Applied(b, e).ins == [[], [], [], [], [], [], []];
  }

  lemma SwallowingAnchor(path: string)
    ensures var b, e := AfterFirst(path), SwallowSecond();
            && InFile(b, e) && Anchor(b, e) == 3 && Editable(b, e) && Swallowed(b, e)
            && ResnapMarker(b, e) == [NL, Mark(2, path), NL]
  {
    var b, e := AfterFirst(path), SwallowSecond();
    SwallowLines();
    assert SWALLOWING[1..2] == "b" && SWALLOWING[..3] == "ab\n" && SWALLOWING[2] == '\n';
    assert LineOf(SWALLOWING, 3) == 2;
  }

  function SecondWritten(path: string): Buffer {
    Buffer(SWALLOWING, path, [Keep, Replaced("\n\n", 1), Replaced("\n\n", 3), Gone, Gone, Keep],
           [[], [], [], [], [], [], []])
  }

  lemma SwallowingText(path: string)
    ensures InFile(AfterFirst(path), SwallowSecond())
    ensures WithText(AfterFirst(path), SwallowSecond()) == SecondWritten(path)
  {
    assert WithText(AfterFirst(path), SwallowSecond()).cells == SecondWritten(path).cells;
  }

  lemma SwallowingCut(path: string)
    ensures Cut(SecondWritten(path), 3) == AfterSecond(path).(ins := SecondWritten(path).ins)
  {
    var c := Replaced("\n\n", 3);
    assert CutHead(c) == "" && CutTail(c) == "\n\n";
    assert Cuttable(SecondWritten(path), 3);
    assert Cut(SecondWritten(path), 3).cells == AfterSecond(path).cells;
  }

  lemma SwallowingMarker(path: string)
    ensures var b := AfterSecond(path).(ins := SecondWritten(path).ins);
            Insert(b, 3, [NL, Mark(2, path), NL], false) == AfterSecond(path)
  {
    var b := AfterSecond(path).(ins := SecondWritten(path).ins);
    assert b.ins[3] + [NL, Mark(2, path), NL] == [NL, Mark(2, path), NL];
    assert Insert(b, 3, [NL, Mark(2, path), NL], false).ins == AfterSecond(path).ins;
  }

  lemma SwallowingSecond(path: string)
    ensures InFile(AfterFirst(path), SwallowSecond()) && Applied(AfterFirst(path), SwallowSecond()) == AfterSecond(path)
  {
    SwallowingAnchor(path);
    SwallowingText(path);
    SwallowingCut(path);
    SwallowingMarker(path);
  }

  /** Two edits of disjoint ranges, neither at offset 0 and neither over an earlier marker, the marker of the second one
      lying in the text that the first one wrote: the "d" survives and is taken to be on line 4 instead of line 3. */
  lemma SwallowedAnchorMisleads(path: string, mirror: string)
    ensures var b := Fresh(SWALLOWING, path);
            && Admissible(b, SwallowFirst()) && Editable(Applied(b, SwallowFirst()), SwallowSecond())
            && Applied(Applied(b, SwallowFirst()), SwallowSecond()) == AfterSecond(path)
    ensures AfterSecond(path).cells[5].Keep? && LineOf(SWALLOWING, 5) == 3
    ensures ReadTo(AfterSecond(path), mirror, 5).line == 4
  {
    SwallowingFirst(path);
    SwallowingAnchor(path);
    SwallowingSecond(path);
    SwallowLines();
    assert SWALLOWING[..5] == "ab\nc\n";
    SwallowedIsRead(path, mirror);
  }

  lemma SwallowedPieces(path: string)
    ensures var p := Pieces(AfterSecond(path)); p[3] == [NL, Mark(2, path), NL] && p[4] == [NL, NL] && p[5] == []
  {
    var b := AfterSecond(path);
    assert Piece(b, 3) == [NL, Mark(2, path), NL];
    assert Piece(b, 4) == Lift("\n\n") == [NL, NL];
    assert Piece(b, 5) == [];
  }

  lemma ReadThree(r: Reader, pieces: seq<seq<Sym>>)
    requires |pieces| >= 6 && pieces[5] == []
    ensures ReadBefore(r, pieces, 6) == Read(Read(ReadBefore(r, pieces, 3), pieces[3]), pieces[4])
  {
    assert ReadBefore(r, pieces, 4) == Read(ReadBefore(r, pieces, 3), pieces[3]);
    assert ReadBefore(r, pieces, 5) == Read(ReadBefore(r, pieces, 4), pieces[4]);
    ReadOverNothing(r, pieces, 5, 6);
  }

  lemma SwallowedIsRead(path: string, mirror: string)
    ensures ReadTo(AfterSecond(path), mirror, 5).line == 4
  {
    var pieces := Pieces(AfterSecond(path));
    SwallowedPieces(path);
    ReadThree(Opened(mirror), pieces);
    ReadsSwallowed(ReadBefore(Opened(mirror), pieces, 3), path);
  }

  lemma ReadsSwallowed(r: Reader, path: string)
    ensures Read(Read(r, [NL, Mark(2, path), NL]), [NL, NL]).line == 4
  {
    var s: seq<Sym> := [NL, Mark(2, path), NL];
    assert ReadN(r, s, 1).start;
    ReadDirective(r, s, 1);
    var t: seq<Sym> := [NL, NL];
    ReadPlain(Read(r, s), t);
    assert t[..1] == [NL] && [NL][..0] == [];
    assert Newlines([NL]) == 1 && Newlines(t) == 2;
  }
}
