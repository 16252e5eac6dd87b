/** An edit whose marker comes to lie in text that has replaced its anchor: exactly when lines are kept all the same. */
module LineAnchors {
  import opened LineReader
  import opened LineMarkers
  import opened LineEdits
  import opened LineFidelity
  import opened LineHeads
  import opened LineExact

  /** The end of the replaced range that the marker comes to lie in. */
  function RangeEnd(b: Buffer, a: nat): nat
    requires b.Valid() && Cuttable(b, a)
  {
    a - 1 + b.cells[a - 1].length
  }

  lemma TextLeavesRange(b: Buffer, e: Edit)
    requires b.Valid() && Editable(b, e) && Swallowed(b, e)
    ensures var a, r := Anchor(b, e), WithText(b, e);
            a == e.begin + e.length + 1 && r.cells[a - 1] == b.cells[a - 1] && r.cells[a] == b.cells[a]
  {
  }

  /** The marker splits the replaced range in two. */
  lemma SwallowedShape(b: Buffer, e: Edit)
    requires b.Valid() && Editable(b, e) && Swallowed(b, e)
    ensures var a := Anchor(b, e);
            Applied(b, e).cells[a] == Replaced(CutTail(b.cells[a - 1]), b.cells[a - 1].length - 1)
  {
    TextLeavesRange(b, e);
    CutCells(WithText(b, e), Anchor(b, e));
  }

  lemma SwallowedIsPinned(b: Buffer, e: Edit)
    requires b.Valid() && InFile(b, e) && Anchor(b, e) >= 0
    ensures var a := Anchor(b, e); EndsPinned(Applied(b, e).ins[a], LineOf(b.original, a), b.path)
  {
    MarkerPins(b, Cut(WithText(b, e), Anchor(b, e)).ins[Anchor(b, e)], e);
  }

  /** One replaced range from `a` to `end`. */
  ghost predicate IsRange(b: Buffer, a: nat, end: nat, text: string)
    requires b.Valid()
  {
    && a < end <= |b.original| && b.cells[a] == Replaced(text, end - a)
    && forall i :: a < i < end ==> b.cells[i].Gone? && b.ins[i] == []
  }

  lemma RangeOver(b: Buffer, x: int, o: nat) returns (start: nat)
    requires InvBut(b, x) && o < |b.original| && b.cells[o].Gone?
    ensures Spans(b, start, o) && RangeInv(b, start)
  {
    assert OffsetInv(b, o, x);
    start :| Spans(b, start, o);
    assert OffsetInv(b, start, x);
  }

  lemma EndIsKept(b: Buffer, a: nat, end: nat, text: string)
    requires InvBut(b, a) && IsRange(b, a, end, text) && end < |b.original|
    ensures !b.cells[end].Gone?
  {
    if b.cells[end].Gone? {
      var start := RangeOver(b, a, end);
    }
  }

  /** A survivor behind the marker with no other marker in between: right exactly if the end of the range is. */
  lemma SurvivorIffRangeEnd(b: Buffer, a: nat, end: nat, text: string, mirror: string, o: nat)
    requires InvBut(b, a) && AllEnded(b) && IsRange(b, a, end, text)
    requires o < |b.original| && b.cells[o].Keep? && b.original[o] != '\n' && PinOf(b, o) == a
    ensures end <= o && Quiet(b.ins[end]) && (Good(b, mirror, o) <==> Good(b, mirror, end))
  {
    NoPinsSince(b, o);
    assert end <= o;
    EndIsKept(b, a, end, text);
    GoodIffEarlier(b, a, mirror, end, o);
  }

  lemma RangeIsRead(b: Buffer, mirror: string, a: nat, end: nat, text: string)
    requires b.Valid() && IsRange(b, a, end, text)
    ensures ReadTo(b, mirror, end) == Read(ReadTo(b, mirror, a), Lift(text) + b.ins[end])
  {
    ReadAfterReplaced(b, mirror, a, end);
  }

  /** The replaced text behind the marker leads from the line of the marker to the line of the range's end. */
  lemma RangeEndIff(b: Buffer, mirror: string, a: nat, end: nat, text: string, line: int)
    requires b.Valid() && AllEnded(b) && a <= end <= |b.original| && Quiet(b.ins[end])
    requires ReadTo(b, mirror, end) == Read(ReadTo(b, mirror, a), Lift(text) + b.ins[end])
    ensures At(ReadTo(b, mirror, end), b.path, line) <==> At(ReadTo(b, mirror, a), b.path, line - LinesIn(text))
  {
    ReadToIsSettled(b, mirror, a);
    RangeReads(ReadTo(b, mirror, a), ReadTo(b, mirror, end), text, b.ins[end], b.path, line);
  }

  lemma RangeReads(r: Reader, r': Reader, text: string, t: seq<Sym>, file: string, line: int)
    requires !r.pending && Quiet(t) && r' == Read(r, Lift(text) + t)
    ensures At(r', file, line) <==> At(r, file, line - LinesIn(text))
  {
    ReplacedReads(r, r', text, t, file, line - LinesIn(text), line);
  }

  /** The lines of the text behind the marker at `a` lead to `line'`: from the `line` that the marker gives or, if the
      marker is missed, from the line after the one it ends. */
  ghost predicate LeadsTo(b: Buffer, mirror: string, a: nat, text: string, line: int, line': int)
    requires b.Valid() && a <= |b.original|
  {
    if PinMet(b, a) then line + LinesIn(text) == line'
    else AtMarker(b, mirror, a).file == b.path && AtMarker(b, mirror, a).line + 1 + LinesIn(text) == line'
  }

  /** The text behind the marker at `a` makes up the count. */
  ghost predicate MakesUp(b: Buffer, mirror: string, a: nat, end: nat, text: string)
    requires b.Valid() && a <= end <= |b.original|
  {
    LeadsTo(b, mirror, a, text, LineOf(b.original, a), LineOf(b.original, end))
  }

  lemma LeadsToIff(b: Buffer, mirror: string, a: nat, text: string, line: nat, line': int)
    requires b.Valid() && AllEnded(b) && a <= |b.original| && EndsPinned(b.ins[a], line, b.path)
    ensures At(ReadTo(b, mirror, a), b.path, line' - LinesIn(text)) <==> LeadsTo(b, mirror, a, text, line, line')
  {
    MarkedPinReads(b, mirror, a, line);
  }

  lemma RangeEndLeadsTo(b: Buffer, mirror: string, a: nat, end: nat, text: string, line: nat, line': int)
    requires b.Valid() && AllEnded(b) && IsRange(b, a, end, text) && Quiet(b.ins[end])
    requires EndsPinned(b.ins[a], line, b.path)
    ensures At(ReadTo(b, mirror, end), b.path, line') <==> LeadsTo(b, mirror, a, text, line, line')
  {
    RangeIsRead(b, mirror, a, end, text);
    RangeEndIff(b, mirror, a, end, text, line');
    LeadsToIff(b, mirror, a, text, line, line');
  }

  lemma SurvivorBehindMarker(b: Buffer, a: nat, end: nat, text: string, mirror: string, o: nat)
    requires InvBut(b, a) && AllEnded(b) && IsRange(b, a, end, text)
    requires EndsPinned(b.ins[a], LineOf(b.original, a), b.path)
    requires o < |b.original| && b.cells[o].Keep? && b.original[o] != '\n' && PinOf(b, o) == a
    ensures Good(b, mirror, o) <==> MakesUp(b, mirror, a, end, text)
  {
    SurvivorIffRangeEnd(b, a, end, text, mirror, o);
    RangeEndLeadsTo(b, mirror, a, end, text, LineOf(b.original, a), LineOf(b.original, end));
  }

  lemma SwallowedRange(b: Buffer, e: Edit)
    requires BufferInv(b) && Editable(b, e) && Swallowed(b, e)
    ensures var a := Anchor(b, e); IsRange(Applied(b, e), a, RangeEnd(b, a), CutTail(b.cells[a - 1]))
  {
    SwallowedShape(b, e);
    SpoiltAt(b, e);
    assert OffsetInv(Applied(b, e), Anchor(b, e), Anchor(b, e));
  }

  /** Of the survivors whose last marker this is: they are read right if and only if the replaced text behind it makes
      up the count. */
  lemma SwallowedAnchorIff(b: Buffer, e: Edit, mirror: string, o: nat)
    requires BufferInv(b) && AllEnded(b) && Editable(b, e) && Swallowed(b, e)
    requires var r := Applied(b, e);
             o < |b.original| && r.cells[o].Keep? && b.original[o] != '\n' && PinOf(r, o) == Anchor(b, e)
    ensures var a, r := Anchor(b, e), Applied(b, e);
            && a < RangeEnd(b, a) <= |b.original|
            && (Good(r, mirror, o) <==> MakesUp(r, mirror, a, RangeEnd(b, a), CutTail(b.cells[a - 1])))
  {
    var a := Anchor(b, e);
    SwallowedRange(b, e);
    SwallowedIsPinned(b, e);
    SpoiltAt(b, e);
    EditKeepsEnded(b, e);
    SurvivorBehindMarker(Applied(b, e), a, RangeEnd(b, a), CutTail(b.cells[a - 1]), mirror, o);
  }

  lemma SpoiltAt(b: Buffer, e: Edit)
    requires BufferInv(b) && Editable(b, e) && Swallowed(b, e)
    ensures InvBut(Applied(b, e), Anchor(b, e))
  {
    EditKeepsRest(b, e);
    var r, a := Applied(b, e), Anchor(b, e);
    forall o | 0 <= o <= |b.original|
      ensures OffsetInv(r, o, a)
    {
      assert OffsetInv(r, o, Spoilt(b, e));
    }
  }

  lemma MetMakesUp(b: Buffer, mirror: string, a: nat, end: nat, text: string)
    requires b.Valid() && a <= end <= |b.original| && PinMet(b, a)
    ensures MakesUp(b, mirror, a, end, text) <==> LinesIn(text) == LinesIn(b.original[a..end])
  {
    LineOfStep(b.original, a, end);
  }

  /** The marker of an edit not at offset 0 is always met. */
  lemma SwallowedInsideIff(b: Buffer, e: Edit, mirror: string, o: nat)
    requires BufferInv(b) && AllEnded(b) && Editable(b, e) && Swallowed(b, e) && e.begin > 0
    requires var r := Applied(b, e);
             o < |b.original| && r.cells[o].Keep? && b.original[o] != '\n' && PinOf(r, o) == Anchor(b, e)
    ensures var a := Anchor(b, e);
            && a < RangeEnd(b, a) <= |b.original|
            && (Good(Applied(b, e), mirror, o) <==>
                  LinesIn(CutTail(b.cells[a - 1])) == LinesIn(b.original[a..RangeEnd(b, a)]))
  {
    SwallowedAnchorIff(b, e, mirror, o);
    OwnNewlineIsMet(b, e);
    var a := Anchor(b, e);
    MetMakesUp(Applied(b, e), mirror, a, RangeEnd(b, a), CutTail(b.cells[a - 1]));
  }

  /** All other survivors are read right exactly as after any edit. */
  lemma OthersAreUnharmed(b: Buffer, e: Edit, mirror: string, o: nat)
    requires BufferInv(b) && AllEnded(b) && Editable(b, e)
    requires var r := Applied(b, e);
             o < |b.original| && r.cells[o].Keep? && b.original[o] != '\n' && PinOf(r, o) != Anchor(b, e)
    ensures var r := Applied(b, e);
            Good(r, mirror, o) <==> PinMet(r, PinOf(r, o)) || CountComesOut(r, mirror, PinOf(r, o))
  {
    var r := Applied(b, e);
    EditKeepsRest(b, e);
    EditKeepsEnded(b, e);
    if Spoilt(b, e) >= 0 {
      MarkerIsPin(b, e);
      NoPinsSince(r, o);
    }
    SurvivorIff(r, Spoilt(b, e), mirror, o);
  }
}
