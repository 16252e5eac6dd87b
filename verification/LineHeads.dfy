/** Markers that stand on lines of their own: exactly when they do, and edits that keep it so. */
module LineHeads {
  import opened LineReader
  import opened LineMarkers
  import opened LineEdits
  import opened LineFidelity

  // ----- texts side by side

  lemma MetConcat(start: bool, s: seq<Sym>, t: seq<Sym>)
    ensures Met(start, s + t) <==> Met(start, s) && Met(StartAfter(start, s), t)
  {
    var all := s + t;
    forall i | 0 <= i < |s|
      ensures all[i] == s[i] && all[..i] == s[..i]
    {
    }
    forall i | 0 <= i < |t|
      ensures all[|s| + i] == t[i] && StartAfter(start, all[..|s| + i]) == StartAfter(StartAfter(start, s), t[..i])
    {
      assert all[..|s| + i] == s + t[..i];
      StartConcat(start, s, t[..i]);
    }
    if Met(start, s) && Met(StartAfter(start, s), t) {
      forall i | 0 <= i < |all| && all[i].Mark?
        ensures StartAfter(start, all[..i])
      {
        if i >= |s| {
          assert all[|s| + (i - |s|)] == t[i - |s|];
        }
      }
    }
  }

  lemma MetGrows(s: seq<Sym>)
    ensures Met(false, s) ==> Met(true, s)
  {
    forall i | 0 <= i < |s|
      ensures StartAfter(false, s[..i]) ==> StartAfter(true, s[..i])
    {
      StartGrows(s[..i]);
    }
  }

  lemma PlainIsMet(start: bool, s: seq<Sym>)
    requires Plain(s)
    ensures Met(start, s)
  {
  }

  // ----- the rendered file, piece by piece

  /** Piece `n` begins at the start of a line. */
  ghost function StartOf(pieces: seq<seq<Sym>>, n: nat): bool
    requires n <= |pieces|
  {
    if n == 0 then true else StartAfter(StartOf(pieces, n - 1), pieces[n - 1])
  }

  lemma {:induction false} StartOfJoined(pieces: seq<seq<Sym>>, n: nat)
    requires n < |pieces|
    ensures StartAfter(true, Joined(pieces, n)) == StartOf(pieces, n + 1)
  {
    if n > 0 {
      StartOfJoined(pieces, n - 1);
      StartConcat(true, Joined(pieces, n - 1), pieces[n]);
    }
  }

  ghost predicate PieceMet(pieces: seq<seq<Sym>>, k: nat)
    requires k < |pieces|
  {
    Met(StartOf(pieces, k), pieces[k])
  }

  lemma OwnLinesStep(pieces: seq<seq<Sym>>, n: nat)
    requires 0 < n < |pieces|
    ensures OwnLines(Joined(pieces, n)) <==> OwnLines(Joined(pieces, n - 1)) && PieceMet(pieces, n)
  {
    StartOfJoined(pieces, n - 1);
    MetConcat(true, Joined(pieces, n - 1), pieces[n]);
  }

  /** Every marker of a file has only blanks before it on its line if and only if that holds in every piece, begun as
      the pieces before it leave off. */
  lemma {:induction false} OwnLinesIffPiecesMet(pieces: seq<seq<Sym>>, n: nat)
    requires n < |pieces|
    ensures OwnLines(Joined(pieces, n)) <==> forall k :: 0 <= k <= n ==> PieceMet(pieces, k)
  {
    if n > 0 {
      OwnLinesIffPiecesMet(pieces, n - 1);
      OwnLinesStep(pieces, n);
    } else {
      assert PieceMet(pieces, 0) <==> Met(true, pieces[0]);
    }
  }

  // ----- edits that keep markers on lines of their own

  /** Some marker at offset `o` relies on what stands before that offset. */
  ghost predicate Bare(b: Buffer, o: nat)
    requires b.Valid() && o <= |b.original|
  {
    !Met(false, b.ins[o])
  }

  /** The text replaces everything up to offset `o`, and the file then is at the start of a line. */
  ghost predicate HeadReplaced(b: Buffer, o: nat)
    requires b.Valid() && 0 < o <= |b.original|
  {
    b.cells[0].Replaced? && b.cells[0].length == o && StartAfter(true, b.ins[0] + Lift(b.cells[0].text))
  }

  /** The file is at the start of a line before offset `o`, whatever is still inserted. */
  ghost predicate Guarded(b: Buffer, o: nat)
    requires b.Valid() && 0 < o <= |b.original|
  {
    (b.cells[o - 1].Keep? && b.original[o - 1] == '\n') || HeadReplaced(b, o)
  }

  ghost predicate TidyAt(b: Buffer, o: nat)
    requires b.Valid() && o <= |b.original|
  {
    Met(true, b.ins[o]) && (o > 0 && Bare(b, o) ==> Guarded(b, o))
  }

  ghost predicate TidyInv(b: Buffer)
    requires b.Valid()
  {
    forall o :: 0 <= o <= |b.original| ==> TidyAt(b, o)
  }

  /** A text that leaves a line start one: it is blank, or only blanks follow its last newline. */
  ghost predicate KeepsStart(text: string) {
    StartAfter(true, Lift(text))
  }

  /** The marker of an edit at offset 0, which brings no newline, will be at the start of a line. */
  ghost predicate HeadTidy(b: Buffer, e: Edit)
    requires b.Valid() && InFile(b, e)
  {
    var a := Anchor(b, e);
    e.begin == 0 && a >= 0 ==>
      var r := Cut(WithText(b, e), a);
      StartAfter(true, r.ins[a]) && (a == 0 || StartAfter(false, r.ins[a]) || Guarded(r, a))
  }

  /** The edit leaves the start of the line of every such marker alone: no newline before one is replaced, nothing that
      ends inside a line is put before one, and the same of a blank text that replaces all before one. */
  ghost predicate SparesHeads(b: Buffer, e: Edit)
    requires b.Valid() && InFile(b, e)
  {
    && (forall o :: 0 < o <= |b.original| && Bare(b, o) ==> !(e.begin < o <= e.begin + e.length))
    && (e.length == 0 && e.before && Bare(b, e.begin) ==> KeepsStart(e.text))
    && (e.length == 0 && e.begin == 0 && HoldsUp(b) ==>
          (StartAfter(false, Lift(b.cells[0].text)) || KeepsStart(e.text)) && !(Anchor(b, e) == 1 && b.cells[1].Gone?))
  }

  /** A text has replaced everything before such a marker. */
  ghost predicate HoldsUp(b: Buffer)
    requires b.Valid()
  {
    && b.original != "" && b.cells[0].Replaced? && 0 < b.cells[0].length <= |b.original|
    && Bare(b, b.cells[0].length)
  }

  ghost predicate Tidy(b: Buffer, e: Edit)
    requires b.Valid() && InFile(b, e)
  {
    HeadTidy(b, e) && SparesHeads(b, e)
  }

  // ----- the text of an edit and its marker

  lemma ComposedShape(b: Buffer, e: Edit, start: bool)
    requires InFile(b, e)
    ensures Met(start, Composed(b, e))
    ensures e.length == 0 && KeepsStart(e.text) ==> StartAfter(true, Composed(b, e))
  {
    if e.length == 0 && '\n' in e.text {
      var lead: seq<Sym> := [NL, Mark(LineOf(b.original, e.begin), "tapa:" + b.path), NL];
      LeadIsMet(start, lead);
      PlainIsMet(true, Lift(e.text));
      MetConcat(start, lead, Lift(e.text));
      StartConcat(true, lead, Lift(e.text));
    } else {
      PlainIsMet(start, Composed(b, e));
    }
  }

  lemma LeadIsMet(start: bool, lead: seq<Sym>)
    requires |lead| == 3 && lead[0] == NL && lead[2] == NL
    ensures Met(start, lead) && StartAfter(start, lead)
  {
    assert lead[..1] == [NL];
    assert StartAfter(start, lead[..1]);
  }

  lemma MarkerShape(b: Buffer, e: Edit, start: bool)
    requires InFile(b, e) && Anchor(b, e) >= 0
    ensures var m := ResnapMarker(b, e); StartAfter(start, m) && (e.begin > 0 || start ==> Met(start, m))
  {
    var m := ResnapMarker(b, e);
    if e.begin > 0 {
      LeadIsMet(start, m);
    } else {
      assert m[..0] == [];
    }
  }

  /** Of a blank text, what was at the start of a line before it still is. */
  lemma ThroughBlank(x: bool, t: seq<Sym>)
    ensures StartAfter(x, t) == if StartAfter(false, t) then true else x && StartAfter(true, t)
  {
    StartGrows(t);
  }

  // ----- inserted text

  lemma InsertedIsMet(b: Buffer, e: Edit)
    requires b.Valid() && InFile(b, e) && e.length == 0 && TidyAt(b, e.begin) && SparesHeads(b, e)
    ensures Met(true, WithText(b, e).ins[e.begin])
    ensures Bare(WithText(b, e), e.begin) ==> Bare(b, e.begin)
  {
    var was, s := b.ins[e.begin], Composed(b, e);
    ComposedShape(b, e, true);
    ComposedShape(b, e, false);
    MetGrows(was);
    if e.before {
      MetConcat(true, s, was);
      MetConcat(false, s, was);
    } else {
      ComposedShape(b, e, StartAfter(true, was));
      ComposedShape(b, e, StartAfter(false, was));
      MetConcat(true, was, s);
      MetConcat(false, was, s);
    }
  }

  /** What is inserted at offset 0 leaves the end of a text that replaces all before a marker where it was. */
  lemma HeadStaysReplaced(b: Buffer, e: Edit, o: nat)
    requires b.Valid() && InFile(b, e) && e.length == 0 && e.begin == 0 && 0 < o <= |b.original| && HeadReplaced(b, o)
    requires StartAfter(false, Lift(b.cells[0].text)) || KeepsStart(e.text)
    ensures HeadReplaced(WithText(b, e), o)
  {
    var was, s, t := b.ins[0], Composed(b, e), Lift(b.cells[0].text);
    ComposedShape(b, e, true);
    StartConcat(true, was, t);
    StartConcat(true, WithText(b, e).ins[0], t);
    StartConcat(true, s, was);
    StartConcat(true, was, s);
    ThroughBlank(StartAfter(true, was), t);
    ThroughBlank(StartAfter(true, WithText(b, e).ins[0]), t);
  }

  lemma InsertedTextIsTidy(b: Buffer, e: Edit, o: nat)
    requires b.Valid() && InFile(b, e) && e.length == 0 && o <= |b.original|
    requires TidyAt(b, o) && SparesHeads(b, e)
    ensures TidyAt(WithText(b, e), o)
  {
    if o == e.begin {
      InsertedIsMet(b, e);
    }
    if o > 0 && Bare(b, o) && e.begin == 0 && HeadReplaced(b, o) {
      HeadStaysReplaced(b, e, o);
    }
  }

  // ----- replaced text

  lemma ReplacedTextIsTidy(b: Buffer, e: Edit, o: nat)
    requires b.Valid() && Editable(b, e) && e.length > 0 && o <= |b.original|
    requires TidyAt(b, o) && SparesHeads(b, e)
    ensures TidyAt(WithText(b, e), o)
  {
    var r := WithText(b, e);
    if o > 0 && Bare(b, o) {
      assert !(e.begin <= o - 1 < e.begin + e.length);
      assert r.cells[o - 1] == b.cells[o - 1];
      assert HeadReplaced(b, o) ==> r.cells[0] == b.cells[0];
    }
  }

  lemma TextIsTidy(b: Buffer, e: Edit)
    requires b.Valid() && Editable(b, e) && TidyInv(b) && SparesHeads(b, e)
    ensures TidyInv(WithText(b, e))
  {
    forall o | 0 <= o <= |b.original|
      ensures TidyAt(WithText(b, e), o)
    {
      assert TidyAt(b, o);
      if e.length == 0 {
        InsertedTextIsTidy(b, e, o);
      } else {
        ReplacedTextIsTidy(b, e, o);
      }
    }
  }

  // ----- the marker of an edit

  /** Only an edit whose marker comes to lie in replaced text cuts a range. */
  lemma CutMeansSwallowed(b: Buffer, e: Edit)
    requires b.Valid() && Editable(b, e) && Anchor(b, e) >= 0 && Cuttable(WithText(b, e), Anchor(b, e))
    ensures Swallowed(b, e) && Anchor(b, e) == e.begin + e.length + 1
  {
    assert WithText(b, e).cells[Anchor(b, e)] == b.cells[Anchor(b, e)];
  }

  lemma CutIsTidy(b: Buffer, a: nat)
    requires b.Valid() && TidyInv(b) && (Cuttable(b, a) && a == 1 ==> !HoldsUp(b))
    ensures TidyInv(Cut(b, a))
  {
    forall o | 0 <= o <= |b.original|
      ensures TidyAt(Cut(b, a), o)
    {
      assert TidyAt(b, o);
      if Cuttable(b, a) {
        CutCells(b, a);
      }
    }
  }

  lemma NothingHeldUp(b: Buffer, e: Edit)
    requires b.Valid() && Editable(b, e) && SparesHeads(b, e) && Anchor(b, e) == 1 && Cuttable(WithText(b, e), 1)
    ensures !HoldsUp(WithText(b, e))
  {
    CutMeansSwallowed(b, e);
  }

  /** A marker put at `a` leaves every other offset tidy. */
  lemma MarkerElsewhere(b: Buffer, a: nat, m: seq<Sym>, o: nat)
    requires b.Valid() && a <= |b.original| && o <= |b.original| && o != a && TidyAt(b, o)
    requires StartAfter(true, m) && (a == 0 ==> StartAfter(false, m))
    ensures TidyAt(Put(b, a, b.ins[a] + m), o)
  {
    if a == 0 && o > 0 && HeadReplaced(b, o) {
      var t := Lift(b.cells[0].text);
      StartConcat(true, b.ins[0], t);
      StartConcat(true, b.ins[0] + m, t);
      StartConcat(true, b.ins[0], m);
      ThroughBlank(StartAfter(true, b.ins[0]), m);
      ThroughBlank(StartAfter(true, b.ins[0]), t);
      ThroughBlank(true, t);
    }
  }

  lemma MarkerAtItsPlace(r: Buffer, a: nat, m: seq<Sym>, own: bool)
    requires r.Valid() && a <= |r.original| && TidyAt(r, a) && Met(true, m) && (own ==> Met(false, m))
    requires !own ==> StartAfter(true, r.ins[a]) && (a == 0 || StartAfter(false, r.ins[a]) || Guarded(r, a))
    ensures TidyAt(Put(r, a, r.ins[a] + m), a)
  {
    MetConcat(true, r.ins[a], m);
    MetConcat(false, r.ins[a], m);
    assert a > 0 && Guarded(r, a) ==> Guarded(Put(r, a, r.ins[a] + m), a);
  }

  lemma MarkerIsTidy(b: Buffer, e: Edit)
    requires b.Valid() && Editable(b, e) && Anchor(b, e) >= 0 && Tidy(b, e)
    requires TidyInv(Cut(WithText(b, e), Anchor(b, e)))
    ensures TidyInv(Applied(b, e))
  {
    var a, m := Anchor(b, e), ResnapMarker(b, e);
    var r := Cut(WithText(b, e), a);
    MarkerShape(b, e, true);
    MarkerShape(b, e, false);
    forall o | 0 <= o <= |b.original|
      ensures TidyAt(Put(r, a, r.ins[a] + m), o)
    {
      assert TidyAt(r, o);
      if o == a {
        MarkerAtItsPlace(r, a, m, e.begin > 0);
      } else {
        MarkerElsewhere(r, a, m, o);
      }
    }
  }

  lemma EditIsTidy(b: Buffer, e: Edit)
    requires b.Valid() && Editable(b, e) && TidyInv(b) && Tidy(b, e)
    ensures TidyInv(Applied(b, e))
  {
    TextIsTidy(b, e);
    if Anchor(b, e) >= 0 {
      if Anchor(b, e) == 1 && Cuttable(WithText(b, e), 1) {
        NothingHeldUp(b, e);
      }
      CutIsTidy(WithText(b, e), Anchor(b, e));
      MarkerIsTidy(b, e);
    }
  }

  // ----- tidy buffers have their markers on lines of their own

  lemma {:induction false} NothingBetween(pieces: seq<seq<Sym>>, m: nat, n: nat)
    requires m <= n <= |pieces| && forall k :: m <= k < n ==> pieces[k] == []
    ensures StartOf(pieces, n) == StartOf(pieces, m)
  {
    if m < n {
      NothingBetween(pieces, m, n - 1);
    }
  }

  lemma HeaderPiece(b: Buffer)
    requires b.Valid()
    ensures StartOf(Pieces(b), 1) == StartAfter(true, b.ins[0])
    ensures PieceMet(Pieces(b), 0) <==> Met(true, b.ins[0])
  {
    var header: seq<Sym> := [Mark(HEADER_LINE, b.path), NL];
    assert header[..0] == [];
    StartConcat(true, header, b.ins[0]);
    MetConcat(true, header, b.ins[0]);
    assert Pieces(b)[0] == header + b.ins[0];
    assert StartOf(Pieces(b), 0);
  }

  lemma ReplacedHeadStarts(b: Buffer, o: nat)
    requires BufferInv(b) && 0 < o <= |b.original| && HeadReplaced(b, o)
    ensures StartAfter(StartOf(Pieces(b), o), Emit(b, o - 1))
  {
    var pieces, t := Pieces(b), Lift(b.cells[0].text);
    assert OffsetInv(b, 0, -1);
    HeaderPiece(b);
    StartConcat(true, b.ins[0], t);
    if o > 1 {
      GonePieces(b, 0, o);
      NothingBetween(pieces, 2, o);
      assert StartOf(pieces, 2) == StartAfter(StartOf(pieces, 1), pieces[1]);
      assert Emit(b, o - 1) == [];
    }
  }

  lemma GuardedStarts(b: Buffer, o: nat)
    requires BufferInv(b) && 0 < o <= |b.original| && Guarded(b, o)
    ensures StartAfter(StartOf(Pieces(b), o), Emit(b, o - 1))
  {
    if HeadReplaced(b, o) {
      ReplacedHeadStarts(b, o);
    }
  }

  lemma TidyPiece(b: Buffer, k: nat)
    requires BufferInv(b) && 0 < k <= |b.original| && TidyAt(b, k)
    ensures PieceMet(Pieces(b), k)
  {
    var start, kept := StartOf(Pieces(b), k), Emit(b, k - 1);
    PlainIsMet(start, kept);
    MetConcat(start, kept, b.ins[k]);
    MetGrows(b.ins[k]);
    assert Pieces(b)[k] == kept + b.ins[k];
    if Bare(b, k) {
      GuardedStarts(b, k);
    }
  }

  lemma TidyOwnsLines(b: Buffer)
    requires BufferInv(b) && TidyInv(b)
    ensures OwnLines(Output(b))
  {
    forall k | 0 <= k <= |b.original|
      ensures PieceMet(Pieces(b), k)
    {
      assert TidyAt(b, k);
      if k == 0 {
        HeaderPiece(b);
      } else {
        TidyPiece(b, k);
      }
    }
    OwnLinesIffPiecesMet(Pieces(b), |b.original|);
  }

  // ----- any sequence of tidy edits

  ghost predicate AllTidy(b: Buffer, edits: seq<Edit>)
    requires b.Valid() && AllAdmissible(b, edits)
    decreases |edits|
  {
    edits == [] || (Tidy(b, edits[0]) && AllTidy(Applied(b, edits[0]), edits[1..]))
  }

  lemma {:induction false} EditsAreTidy(b: Buffer, edits: seq<Edit>)
    requires BufferInv(b) && TidyInv(b) && AllAdmissible(b, edits) && AllTidy(b, edits)
    ensures BufferInv(AppliedAll(b, edits)) && TidyInv(AppliedAll(b, edits))
    decreases |edits|
  {
    if edits != [] {
      EditKeepsInv(b, edits[0]);
      EditIsTidy(b, edits[0]);
      EditsAreTidy(Applied(b, edits[0]), edits[1..]);
    }
  }

  lemma FreshIsTidy(original: string, path: string)
    ensures TidyInv(Fresh(original, path))
  {
  }

  /** After any admissible edits, each of them tidy when it is made, a reader of the rendered file gives every surviving
      character that is no newline its original file and line. */
  lemma TidyEditsKeepLines(original: string, path: string, edits: seq<Edit>, mirror: string, o: nat)
    requires AllAdmissible(Fresh(original, path), edits) && AllTidy(Fresh(original, path), edits)
    requires o < |original| && AppliedAll(Fresh(original, path), edits).cells[o].Keep? && original[o] != '\n'
    ensures Good(AppliedAll(Fresh(original, path), edits), mirror, o)
  {
    FreshInv(original, path);
    FreshIsTidy(original, path);
    EditsAreTidy(Fresh(original, path), edits);
    TidyOwnsLines(AppliedAll(Fresh(original, path), edits));
    SurvivorsKeepTheirLines(original, path, edits, mirror, o);
  }
}
