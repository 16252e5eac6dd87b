/** A mirrored source file under rewrite: the edits made to it and the `#line` markers that follow them. */
module LineMarkers {
  import opened LineReader

  // ----- the buffer

  /** What became of an original character: kept, the first of a replaced range, or a later one of it. */
  datatype Cell = Keep | Replaced(text: string, length: nat) | Gone

  /** `ins[o]` is what was inserted before original offset `o`. */
  datatype Buffer = Buffer(original: string, path: string, cells: seq<Cell>, ins: seq<seq<Sym>>) {
    ghost predicate Valid() {
      |cells| == |original| && |ins| == |original| + 1
    }
  }

  /** A replacement, or with `length` 0 an insertion: `before` or after everything inserted at its offset so far. */
  datatype Edit = Edit(begin: nat, length: nat, text: string, before: bool)

  function Fresh(original: string, path: string): Buffer {
    Buffer(original, path, seq(|original|, _ => Keep), seq(|original| + 1, _ => []))
  }

  /** The line of original offset `o`, from 1. */
  function LineOf(original: string, o: nat): nat
    requires o <= |original|
  {
    1 + LinesIn(original[..o])
  }

  /** A multi-line insertion opens with a marker that gives it the identity `tapa:<path>`. */
  function SyntheticLead(b: Buffer, begin: nat, text: string): seq<Sym>
    requires begin <= |b.original|
  {
    if '\n' !in text then Lift(text)
    else [NL, Mark(LineOf(b.original, begin), "tapa:" + b.path), NL] + Lift(text)
  }

  predicate InFile(b: Buffer, e: Edit) {
    e.begin + e.length <= |b.original|
  }

  function Composed(b: Buffer, e: Edit): seq<Sym>
    requires InFile(b, e)
  {
    if e.length == 0 then SyntheticLead(b, e.begin, e.text) else Lift(e.text)
  }

  /** Where the re-snap marker of `e` goes, if it gets one. */
  function Anchor(b: Buffer, e: Edit): (a: int)
    requires InFile(b, e)
    ensures a == -1 || e.begin <= a < |b.original|
  {
    var end := e.begin + e.length;
    if LinesIn(b.original[e.begin..end]) == Newlines(Composed(b, e)) then -1
    else if end == |b.original| then -1
    else if b.original[end] == '\n' then (if end + 1 == |b.original| then -1 else end + 1)
    else end
  }

  function ResnapMarker(b: Buffer, e: Edit): seq<Sym>
    requires InFile(b, e) && Anchor(b, e) >= 0
  {
    (if e.begin > 0 then [NL] else []) + [Mark(LineOf(b.original, Anchor(b, e)), b.path), NL]
  }

  function Put(b: Buffer, at: nat, s: seq<Sym>): (r: Buffer)
    requires b.Valid() && at <= |b.original|
    ensures r.Valid() && r.original == b.original && r.path == b.path && r.cells == b.cells
    ensures forall o :: 0 <= o <= |b.original| ==> r.ins[o] == if o == at then s else b.ins[o]
  {
    b.(ins := b.ins[at := s])
  }

  function Insert(b: Buffer, at: nat, s: seq<Sym>, before: bool): (r: Buffer)
    requires b.Valid() && at <= |b.original|
    ensures r.Valid() && r.original == b.original && r.path == b.path && r.cells == b.cells
  {
    Put(b, at, if before then s + b.ins[at] else b.ins[at] + s)
  }

  function Replace(b: Buffer, begin: nat, length: nat, text: string): (r: Buffer)
    requires b.Valid() && length > 0 && begin + length <= |b.original|
    ensures r.Valid() && r.original == b.original && r.path == b.path && r.ins == b.ins
  {
    b.(cells := seq(|b.cells|, i requires 0 <= i < |b.cells| =>
                      if i == begin then Replaced(text, length)
                      else if begin < i < begin + length then Gone else b.cells[i]))
  }

  // ----- offsets inside replaced text

  /** Offset `a` is the second of a replaced range, and the text that stands there has a character for every later
      offset of the range. */
  predicate Cuttable(b: Buffer, a: nat)
    requires b.Valid()
  {
    && 0 < a < |b.original| && b.cells[a].Gone?
    && b.cells[a - 1].Replaced? && 2 <= b.cells[a - 1].length <= |b.cells[a - 1].text| + 1
  }

  /** The text before offset `a`, and the text from there on: the rewriter counts such an offset from the end. */
  function CutHead(c: Cell): string
    requires c.Replaced? && 2 <= c.length <= |c.text| + 1
  {
    c.text[..|c.text| + 1 - c.length]
  }

  function CutTail(c: Cell): (t: string)
    requires c.Replaced? && 2 <= c.length <= |c.text| + 1
    ensures |t| == c.length - 1 && CutHead(c) + t == c.text
  {
    c.text[|c.text| + 1 - c.length..]
  }

  /** The same file with the range cut in two at `a`, so that something can be inserted there. */
  function Cut(b: Buffer, a: nat): (r: Buffer)
    requires b.Valid()
    ensures r.Valid() && r.original == b.original && r.path == b.path && r.ins == b.ins
  {
    if !Cuttable(b, a) then b
    else
      var c := b.cells[a - 1];
      b.(cells := b.cells[a - 1 := Replaced(CutHead(c), 1)][a := Replaced(CutTail(c), c.length - 1)])
  }

  // ----- one edit

  /** The text of an edit alone. */
  function WithText(b: Buffer, e: Edit): (r: Buffer)
    requires b.Valid() && InFile(b, e)
    ensures r.Valid() && r.original == b.original && r.path == b.path
  {
    if e.length == 0 then Insert(b, e.begin, Composed(b, e), e.before) else Replace(b, e.begin, e.length, e.text)
  }

  /** One edit: the text, then the marker when the line count changed. */
  function Applied(b: Buffer, e: Edit): (r: Buffer)
    requires b.Valid() && InFile(b, e)
    ensures r.Valid() && r.original == b.original && r.path == b.path
  {
    if Anchor(b, e) < 0 then WithText(b, e)
    else Insert(Cut(WithText(b, e), Anchor(b, e)), Anchor(b, e), ResnapMarker(b, e), false)
  }

  // ----- rendering

  function Emit(b: Buffer, o: nat): seq<Sym>
    requires b.Valid() && o < |b.original|
  {
    match b.cells[o]
    case Keep => [Ch(b.original[o])]
    case Replaced(text, _) => Lift(text)
    case Gone => []
  }

  const HEADER_LINE: nat := 1

  /** What offset `o - 1` became, and what is inserted before offset `o`. */
  function Piece(b: Buffer, o: nat): seq<Sym>
    requires b.Valid() && 0 < o <= |b.original|
  {
    Emit(b, o - 1) + b.ins[o]
  }

  /** The file as a list of pieces, one per original offset and one more. */
  function Pieces(b: Buffer): (p: seq<seq<Sym>>)
    requires b.Valid()
    ensures |p| == |b.original| + 1
    ensures p[0] == [Mark(HEADER_LINE, b.path), NL] + b.ins[0]
    ensures forall o :: 0 < o <= |b.original| ==> p[o] == Piece(b, o)
  {
    seq(|b.original| + 1, o requires 0 <= o <= |b.original| =>
      if o == 0 then [Mark(HEADER_LINE, b.path), NL] + b.ins[0] else Piece(b, o))
  }

  function Joined(pieces: seq<seq<Sym>>, n: nat): seq<Sym>
    requires n < |pieces|
  {
    if n == 0 then pieces[0] else Joined(pieces, n - 1) + pieces[n]
  }

  /** The rendered file. */
  function Output(b: Buffer): seq<Sym>
    requires b.Valid()
  {
    Joined(Pieces(b), |b.original|)
  }

  /** The reader as it enters piece `n`. */
  function ReadBefore(r: Reader, pieces: seq<seq<Sym>>, n: nat): Reader
    requires n <= |pieces|
  {
    if n == 0 then r else Read(ReadBefore(r, pieces, n - 1), pieces[n - 1])
  }

  /** What the reader takes offset `o` of the file rendered at `mirror` to be. */
  function ReadTo(b: Buffer, mirror: string, o: nat): Reader
    requires b.Valid() && o <= |b.original|
  {
    ReadBefore(Opened(mirror), Pieces(b), o + 1)
  }

  /** Reading piece by piece is reading the rendered file. */
  lemma {:induction false} ReadsJoined(r: Reader, pieces: seq<seq<Sym>>, n: nat)
    requires n < |pieces|
    ensures ReadBefore(r, pieces, n + 1) == Read(r, Joined(pieces, n))
  {
    if n > 0 {
      ReadsJoined(r, pieces, n - 1);
      ReadConcat(r, Joined(pieces, n - 1), pieces[n]);
    }
  }

  /** Where a marker goes and what it says depend on the original file only. */
  lemma SameAnchor(b: Buffer, b': Buffer, e: Edit)
    requires InFile(b, e) && b'.original == b.original && b'.path == b.path
    ensures Composed(b', e) == Composed(b, e) && Anchor(b', e) == Anchor(b, e)
    ensures Anchor(b, e) >= 0 ==> ResnapMarker(b', e) == ResnapMarker(b, e)
  {
  }

  lemma JoinedStep(pieces: seq<seq<Sym>>, n: nat)
    requires n < |pieces|
    ensures Joined(pieces, n) == if n == 0 then pieces[0] else Joined(pieces, n - 1) + pieces[n]
  {
  }

  class TreeFileBuffer {
    const original: string
    const path: string
    var cells: seq<Cell>
    var ins: seq<seq<Sym>>
    var hadEdits: bool

    constructor (original: string, path: string)
      ensures View() == Fresh(original, path) && View().Valid() && !hadEdits
    {
      this.original, this.path := original, path;
      cells, ins := seq(|original|, _ => Keep), seq(|original| + 1, _ => []);
      hadEdits := false;
    }

    function View(): Buffer
      reads this
    {
      Buffer(original, path, cells, ins)
    }

    /** The text of an edit: `InsertTextAfter`, `InsertTextBefore` or `ReplaceText` of the rewriter. */
    method Rewrite(e: Edit)
      requires View().Valid() && InFile(View(), e)
      modifies `cells, `ins
      ensures View() == WithText(old(View()), e)
    {
      if e.length > 0 {
        cells := Replace(View(), e.begin, e.length, e.text).cells;
        return;
      }
      var composed := Composed(View(), e);
      if e.before {
        ins := ins[e.begin := composed + ins[e.begin]];
      } else {
        ins := ins[e.begin := ins[e.begin] + composed];
      }
    }

    /** `InsertTextAfter` of the rewriter, which can come to lie in text already replaced. */
    method InsertMarker(at: nat, marker: seq<Sym>)
      requires View().Valid() && at <= |original|
      modifies `cells, `ins
      ensures View() == Insert(Cut(old(View()), at), at, marker, false)
    {
      cells := Cut(View(), at).cells;
      ins := ins[at := ins[at] + marker];
    }

    /** Where the marker of an edit goes: behind it, or behind the newline that ends its line; -1 for none. */
    method MarkerOffset(e: Edit) returns (at: int)
      requires InFile(View(), e)
      ensures at == Anchor(View(), e)
    {
      var end := e.begin + e.length;
      if LinesIn(original[e.begin..end]) == Newlines(Composed(View(), e)) {
        return -1;
      }
      if end == |original| {
        return -1;
      }
      if original[end] != '\n' {
        return end;
      }
      return if end + 1 == |original| then -1 else end + 1;
    }

    /** The marker of an edit whose text has been written, if it needs one. */
    method ResnapAfterEdit(e: Edit, ghost b: Buffer)
      requires b.Valid() && InFile(b, e) && View() == WithText(b, e)
      modifies `cells, `ins, `hadEdits
      ensures View() == Applied(b, e) && hadEdits
    {
      hadEdits := true;
      SameAnchor(b, View(), e);
      var at := MarkerOffset(e);
      if at < 0 {
        return;
      }
      var marker := [Mark(LineOf(original, at), path), NL];
      if e.begin > 0 {
        marker := [NL] + marker;
      }
      assert marker == ResnapMarker(b, e);
      InsertMarker(at, marker);
    }

    method ApplyEdit(e: Edit)
      requires View().Valid() && InFile(View(), e)
      modifies `cells, `ins, `hadEdits
      ensures View() == Applied(old(View()), e) && View().Valid() && hadEdits
    {
      Rewrite(e);
      ResnapAfterEdit(e, old(View()));
    }

    method Render() returns (out: seq<Sym>)
      requires View().Valid()
      ensures out == if hadEdits then Output(View()) else Lift(original)
    {
      if !hadEdits {
        return Lift(original);
      }
      out := WritePieces(Pieces(View()));
    }
  }

  /** Writes the pieces out one after the other. */
  method WritePieces(pieces: seq<seq<Sym>>) returns (out: seq<Sym>)
    requires |pieces| >= 1
    ensures out == Joined(pieces, |pieces| - 1)
  {
    JoinedStep(pieces, 0);
    out := pieces[0];
    for n := 1 to |pieces|
      invariant out == Joined(pieces, n - 1)
    {
      JoinedStep(pieces, n);
      out := out + pieces[n];
    }
  }
}
