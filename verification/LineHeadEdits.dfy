/** One edit of a file: exactly when its marker does its work. */
module LineHeadEdits {
  import opened LineReader
  import opened LineMarkers
  import opened LineEdits
  import opened LineFidelity
  import opened LineHeads
  import opened LineExact

  ghost predicate SurvivorsGood(b: Buffer, mirror: string) {
    && b.Valid()
    && forall o :: 0 <= o < |b.original| && b.cells[o].Keep? && b.original[o] != '\n' ==> Good(b, mirror, o)
  }

  /** The marker of an edit at offset 0 follows text that leaves off inside a line. */
  ghost predicate MarkerIsGlued(b: Buffer, e: Edit)
    requires InFile(b, e)
  {
    e.begin == 0 && Anchor(b, e) == e.length && !KeepsStart(e.text)
  }

  /** The newline that ends the missed marker makes up for the one line the edit took away. */
  predicate OneLineLost(b: Buffer, e: Edit)
    requires InFile(b, e)
  {
    e.length > 0 && LinesIn(e.text) + 1 == LinesIn(b.original[..e.length])
  }

  /** Text, then a marker that brings no newline. */
  lemma ReadTextAndMarker(r: Reader, text: string, line: nat, file: string)
    requires !r.pending
    ensures var r' := Read(r, Lift(text) + [Mark(line, file), NL]);
            if StartAfter(r.start, Lift(text)) then At(r', file, line) else At(r', r.file, r.line + LinesIn(text) + 1)
  {
    var s: seq<Sym> := Lift(text);
    ReadPlain(r, s);
    NewlinesOfLift(text);
    ReadStart(r, s);
    ReadConcat(r, s, [Mark(line, file), NL]);
    ReadMarker(Read(r, s), line, file);
  }

  lemma ReadNewlineAndMarker(r: Reader, line: nat, file: string)
    requires !r.pending
    ensures At(Read(r, [NL] + [Mark(line, file), NL]), file, line)
  {
    assert [NL] == Lift("\n");
    StartAfterNewline(r.start, Lift("\n"));
    ReadTextAndMarker(r, "\n", line, file);
  }

  /** After its anchor the file is as it was. */
  lemma {:induction false} RestIsGood(b: Buffer, mirror: string, a: nat, o: nat)
    requires b.Valid() && a <= o <= |b.original| && Good(b, mirror, a)
    requires forall i :: a <= i < |b.original| ==> b.cells[i].Keep?
    requires forall i :: a < i <= |b.original| ==> b.ins[i] == []
    ensures Good(b, mirror, o)
  {
    if a < o {
      RestIsGood(b, mirror, a, o - 1);
      KeepStep(b, mirror, o - 1);
    }
  }

  /** The marker of an edit at offset 0, with nothing in front of it. */
  function HeadMarker(b: Buffer, a: nat): seq<Sym>
    requires a <= |b.original|
  {
    [Mark(LineOf(b.original, a), b.path), NL]
  }

  /** The anchor is past a newline that the edit left alone. */
  lemma AfterNewlineIsGood(b: Buffer, mirror: string, a: nat)
    requires b.Valid() && 0 < a <= |b.original| && !ReadTo(b, mirror, a - 1).pending
    requires Pieces(b)[a] == [NL] + HeadMarker(b, a)
    ensures Good(b, mirror, a)
  {
    ReadNewlineAndMarker(ReadTo(b, mirror, a - 1), LineOf(b.original, a), b.path);
  }

  // ----- a replacement at offset 0

  lemma TextThenMarker(r: Reader, text: string, line: nat, file: string)
    requires At(r, file, 1) && r.start
    ensures At(Read(r, Lift(text) + [Mark(line, file), NL]), file, line) <==>
              KeepsStart(text) || LinesIn(text) + 2 == line
  {
    ReadTextAndMarker(r, text, line, file);
  }

  /** The whole of a file with one replacement of its first `end` characters and a marker at `a`. */
  ghost predicate ReplacedAt(b: Buffer, text: string, end: nat, a: nat) {
    && b.Valid() && 0 < end <= a < |b.original| && (a == end || (a == end + 1 && b.original[end] == '\n'))
    && Emit(b, 0) == Lift(text) && b.ins[a] == HeadMarker(b, a)
    && (forall i :: 0 <= i <= |b.original| && i != a ==> b.ins[i] == [])
    && !b.cells[0].Keep? && (forall i :: 0 < i < end ==> b.cells[i].Gone?)
    && (forall i :: end <= i < |b.original| ==> b.cells[i].Keep?)
  }

  lemma ReplacedShape(original: string, path: string, e: Edit)
    requires var b0 := Fresh(original, path);
             InFile(b0, e) && e.begin == 0 && e.length > 0 && Anchor(b0, e) >= 0
    ensures ReplacedAt(Applied(Fresh(original, path), e), e.text, e.length, Anchor(Fresh(original, path), e))
  {
    var b0 := Fresh(original, path);
    var a := Anchor(b0, e);
    assert ResnapMarker(b0, e) == HeadMarker(b0, a);
    assert b0.ins[a] + HeadMarker(b0, a) == HeadMarker(b0, a);
  }

  lemma ReadReplaced(b: Buffer, mirror: string, text: string, end: nat)
    requires b.Valid() && 0 < end <= |b.original| && b.ins[0] == [] && Emit(b, 0) == Lift(text)
    requires forall i :: 0 < i < end ==> b.cells[i].Gone? && b.ins[i] == []
    ensures ReadTo(b, mirror, 0).start && At(ReadTo(b, mirror, 0), b.path, 1)
    ensures ReadTo(b, mirror, end) == Read(ReadTo(b, mirror, 0), Lift(text) + b.ins[end])
    ensures b.ins[end] == [] ==> !ReadTo(b, mirror, end).pending
  {
    HeaderIsGood(b, mirror);
    assert b.original[..0] == "";
    HeaderStarts(b, mirror);
    ReadAfterReplaced(b, mirror, 0, end);
    assert b.ins[end] == [] ==> Lift(text) + b.ins[end] == Lift(text);
    ReadPlain(ReadTo(b, mirror, 0), Lift(text));
  }

  lemma HeaderStarts(b: Buffer, mirror: string)
    requires b.Valid() && b.ins[0] == []
    ensures ReadTo(b, mirror, 0).start
  {
    var s := [Mark(HEADER_LINE, b.path), NL];
    assert Pieces(b)[0] == s;
    assert ReadTo(b, mirror, 0) == Read(ReadBefore(Opened(mirror), Pieces(b), 0), s);
    ReadStart(Opened(mirror), s);
  }

  lemma ReplacedAnchor(b: Buffer, mirror: string, text: string, end: nat)
    requires b.Valid() && 0 < end <= |b.original| && b.ins[0] == [] && Emit(b, 0) == Lift(text)
    requires forall i :: 0 < i < end ==> b.cells[i].Gone? && b.ins[i] == []
    requires b.ins[end] == HeadMarker(b, end)
    ensures Good(b, mirror, end) <==>
              KeepsStart(text) || LinesIn(text) + 1 == LinesIn(b.original[..end])
  {
    ReadReplaced(b, mirror, text, end);
    TextThenMarker(ReadTo(b, mirror, 0), text, LineOf(b.original, end), b.path);
  }

  lemma HeadReplacement(b: Buffer, mirror: string, text: string, end: nat, a: nat)
    requires ReplacedAt(b, text, end, a)
    ensures Good(b, mirror, a) <==>
              a != end || KeepsStart(text) || LinesIn(text) + 1 == LinesIn(b.original[..end])
  {
    if a == end {
      ReplacedAnchor(b, mirror, text, a);
    } else {
      ReadReplaced(b, mirror, text, end);
      AnchorPiece(b, a);
      AfterNewlineIsGood(b, mirror, a);
    }
  }

  lemma AnchorPiece(b: Buffer, a: nat)
    requires b.Valid() && 0 < a <= |b.original| && b.cells[a - 1].Keep? && b.original[a - 1] == '\n'
    requires b.ins[a] == HeadMarker(b, a)
    ensures Pieces(b)[a] == [NL] + HeadMarker(b, a)
  {
    assert Pieces(b)[a] == Piece(b, a);
  }

  // ----- an insertion at offset 0

  function Lead(path: string, line: nat): seq<Sym> {
    [Mark(HEADER_LINE, path), NL] + [NL, Mark(line, "tapa:" + path), NL]
  }

  /** The header and the lead of an inserted text give it the identity `tapa:<path>`. */
  lemma ReadLead(r: Reader, path: string, line: nat)
    requires r.start && !r.pending
    ensures At(Read(r, Lead(path, line)), "tapa:" + path, line) && Read(r, Lead(path, line)).start
  {
    var s := Lead(path, line);
    assert ReadN(r, s, 3).start;
    assert s[3] == Mark(line, "tapa:" + path) && s[4] == NL;
    ReadDirective(r, s, 3);
  }

  function TextLead(path: string): seq<Sym> {
    [NL, Mark(1, "tapa:" + path), NL]
  }

  lemma MarkedInsertion(b0: Buffer, e: Edit)
    requires b0.Valid() && InFile(b0, e) && e.begin == 0 && e.length == 0 && Anchor(b0, e) >= 0
    ensures e.text != "" && Composed(b0, e) == TextLead(b0.path) + Lift(e.text)
    ensures ResnapMarker(b0, e) == HeadMarker(b0, Anchor(b0, e))
  {
    assert b0.original[0..0] == "" && b0.original[..0] == "";
    NewlinesOfLift(e.text);
    NoNewlines(e.text);
  }

  /** The whole of a file with one insertion at its head and a marker at `a`. */
  ghost predicate InsertedAt(b: Buffer, text: string, a: nat) {
    && b.Valid() && a < |b.original| && (a == 0 || (a == 1 && b.original[0] == '\n')) && text != ""
    && (a == 0 ==> b.ins[0] == TextLead(b.path) + Lift(text) + HeadMarker(b, 0))
    && (a == 1 ==> b.ins[0] == TextLead(b.path) + Lift(text) + [] && b.ins[1] == HeadMarker(b, 1))
    && (forall i :: a < i <= |b.original| ==> b.ins[i] == [])
    && (forall i :: 0 <= i < |b.original| ==> b.cells[i].Keep?)
  }

  lemma TwoInsertions(b0: Buffer, text: seq<Sym>, before: bool, a: nat, marker: seq<Sym>)
    requires b0.Valid() && a <= |b0.original| && forall i :: 0 <= i <= |b0.original| ==> b0.ins[i] == []
    ensures var b := Insert(Insert(b0, 0, text, before), a, marker, false);
            && (a == 0 ==> b.ins[0] == text + marker)
            && (a > 0 ==> b.ins[0] == text && b.ins[a] == marker)
            && (forall i :: 0 < i <= |b.original| && i != a ==> b.ins[i] == [])
  {
    assert [] + text == text == text + [] && [] + marker == marker;
  }

  lemma InsertedIs(b0: Buffer, text: string, before: bool, a: nat)
    requires b0.Valid() && a < |b0.original| && (a == 0 || (a == 1 && b0.original[0] == '\n')) && text != ""
    requires forall i :: 0 <= i <= |b0.original| ==> b0.ins[i] == []
    requires forall i :: 0 <= i < |b0.original| ==> b0.cells[i].Keep?
    ensures var b1 := Insert(b0, 0, TextLead(b0.path) + Lift(text), before);
            InsertedAt(Insert(b1, a, HeadMarker(b0, a), false), text, a)
  {
    var s := TextLead(b0.path) + Lift(text);
    TwoInsertions(b0, s, before, a, HeadMarker(b0, a));
    assert s + [] == s;
  }

  lemma InsertedShape(original: string, path: string, e: Edit)
    requires var b0 := Fresh(original, path);
             InFile(b0, e) && e.begin == 0 && e.length == 0 && Anchor(b0, e) >= 0
    ensures InsertedAt(Applied(Fresh(original, path), e), e.text, Anchor(Fresh(original, path), e))
  {
    var b0 := Fresh(original, path);
    MarkedInsertion(b0, e);
    InsertedIs(b0, e.text, e.before, Anchor(b0, e));
  }

  lemma FirstPiece(b: Buffer, text: string, rest: seq<Sym>)
    requires b.Valid() && b.ins[0] == TextLead(b.path) + Lift(text) + rest
    ensures Pieces(b)[0] == Lead(b.path, 1) + (Lift(text) + rest)
  {
    assert Pieces(b)[0] == [Mark(HEADER_LINE, b.path), NL] + b.ins[0];
    Associate([Mark(HEADER_LINE, b.path), NL], TextLead(b.path), Lift(text), rest);
  }

  lemma Associate(s: seq<Sym>, t: seq<Sym>, u: seq<Sym>, v: seq<Sym>)
    ensures s + (t + u + v) == (s + t) + (u + v)
  {
  }

  lemma InsertedAnchor(b: Buffer, mirror: string, text: string)
    requires b.Valid() && text != "" && Pieces(b)[0] == Lead(b.path, 1) + (Lift(text) + HeadMarker(b, 0))
    ensures Good(b, mirror, 0) <==> KeepsStart(text)
  {
    var r0 := Opened(mirror);
    assert ReadTo(b, mirror, 0) == Read(ReadBefore(r0, Pieces(b), 0), Pieces(b)[0]);
    ReadConcat(r0, Lead(b.path, 1), Lift(text) + HeadMarker(b, 0));
    ReadLead(r0, b.path, 1);
    ReadTextAndMarker(Read(r0, Lead(b.path, 1)), text, LineOf(b.original, 0), b.path);
    OtherName(b.path);
  }

  lemma InsertedText(b: Buffer, mirror: string, text: string)
    requires b.Valid() && Pieces(b)[0] == Lead(b.path, 1) + Lift(text)
    ensures !ReadTo(b, mirror, 0).pending
  {
    var r0 := Opened(mirror);
    assert ReadTo(b, mirror, 0) == Read(ReadBefore(r0, Pieces(b), 0), Pieces(b)[0]);
    ReadConcat(r0, Lead(b.path, 1), Lift(text));
    ReadLead(r0, b.path, 1);
    ReadPlain(Read(r0, Lead(b.path, 1)), Lift(text));
  }

  lemma HeadInsertion(b: Buffer, mirror: string, text: string, a: nat)
    requires InsertedAt(b, text, a)
    ensures Good(b, mirror, a) <==> a != 0 || KeepsStart(text)
  {
    if a == 0 {
      FirstPiece(b, text, HeadMarker(b, 0));
      InsertedAnchor(b, mirror, text);
    } else {
      assert Lift(text) + [] == Lift(text);
      FirstPiece(b, text, []);
      InsertedText(b, mirror, text);
      AnchorPiece(b, 1);
      AfterNewlineIsGood(b, mirror, 1);
    }
  }

  lemma {:induction false} NoNewlines(text: string)
    ensures '\n' !in text ==> LinesIn(text) == 0
  {
    if text != "" {
      NoNewlines(text[..|text| - 1]);
    }
  }

  lemma OtherName(path: string)
    ensures "tapa:" + path != path
  {
    assert |"tapa:" + path| == 5 + |path|;
  }

  // ----- the result

  /** After one edit of a file every surviving character that is no newline keeps its line, unless the edit is at
      offset 0, its marker is glued to the text before it, and the count does not come out right all the same. */
  lemma OneEditIsExact(original: string, path: string, e: Edit, mirror: string)
    requires InFile(Fresh(original, path), e)
    ensures var b0 := Fresh(original, path);
            SurvivorsGood(Applied(b0, e), mirror) <==> !MarkerIsGlued(b0, e) || OneLineLost(b0, e)
  {
    var b0 := Fresh(original, path);
    if e.begin > 0 || Anchor(b0, e) < 0 {
      OtherEditsAreGood(original, path, e, mirror);
    } else {
      var b, a := Applied(b0, e), Anchor(b0, e);
      if e.length == 0 {
        InsertedShape(original, path, e);
        HeadInsertion(b, mirror, e.text, a);
        InsertedSurvivors(b, mirror, e.text, a);
      } else {
        ReplacedShape(original, path, e);
        HeadReplacement(b, mirror, e.text, e.length, a);
        ReplacedSurvivors(b, mirror, e.text, e.length, a);
      }
    }
  }

  lemma OneEdit(b: Buffer, e: Edit)
    requires b.Valid() && Admissible(b, e)
    ensures AllAdmissible(b, [e]) && AppliedAll(b, [e]) == Applied(b, e)
    ensures AllTidy(b, [e]) <==> Tidy(b, e)
  {
    assert [e][1..] == [];
    assert AppliedAll(Applied(b, e), []) == Applied(b, e);
  }

  lemma OtherEditsAreGood(original: string, path: string, e: Edit, mirror: string)
    requires InFile(Fresh(original, path), e) && (e.begin > 0 || Anchor(Fresh(original, path), e) < 0)
    ensures SurvivorsGood(Applied(Fresh(original, path), e), mirror)
  {
    var b0 := Fresh(original, path);
    var b := Applied(b0, e);
    OneEdit(b0, e);
    forall o | 0 <= o < |original| && b.cells[o].Keep? && original[o] != '\n'
      ensures Good(b, mirror, o)
    {
      TidyEditsKeepLines(original, path, [e], mirror, o);
    }
  }

  /** Where the anchor is right everything after it is right; where it is not, it is a survivor itself. */
  lemma InsertedSurvivors(b: Buffer, mirror: string, text: string, a: nat)
    requires InsertedAt(b, text, a) && (a == 1 ==> Good(b, mirror, a))
    requires a == 0 ==> b.original[0] != '\n'
    ensures SurvivorsGood(b, mirror) <==> Good(b, mirror, a)
  {
    if Good(b, mirror, a) {
      SurvivorsFollow(b, mirror, a);
    }
  }

  lemma ReplacedSurvivors(b: Buffer, mirror: string, text: string, end: nat, a: nat)
    requires ReplacedAt(b, text, end, a) && (a == end + 1 ==> Good(b, mirror, a))
    requires a == end ==> b.original[end] != '\n'
    ensures SurvivorsGood(b, mirror) <==> Good(b, mirror, a)
  {
    if Good(b, mirror, a) {
      SurvivorsFollow(b, mirror, a);
    }
  }

  lemma SurvivorsFollow(b: Buffer, mirror: string, a: nat)
    requires b.Valid() && a <= |b.original| && Good(b, mirror, a)
    requires forall i :: a <= i < |b.original| ==> b.cells[i].Keep?
    requires forall i :: a < i <= |b.original| ==> b.ins[i] == []
    requires forall i :: 0 <= i < a && b.cells[i].Keep? ==> b.original[i] == '\n'
    ensures SurvivorsGood(b, mirror)
  {
    forall o | 0 <= o < |b.original| && b.cells[o].Keep? && b.original[o] != '\n'
      ensures Good(b, mirror, o)
    {
      RestIsGood(b, mirror, a, o);
    }
  }
}
