/** Edits and markers together keep every surviving character on its original line. */
module LineFidelity {
  import opened LineReader
  import opened LineMarkers
  import opened LineEdits

  // ----- what the reader makes of it

  /** Every marker of a text, begun at the start of a line or not, has only blanks before it on its line. */
  ghost predicate Met(start: bool, s: seq<Sym>) {
    forall i :: 0 <= i < |s| && s[i].Mark? ==> StartAfter(start, s[..i])
  }

  /** The same of a whole file. */
  ghost predicate OwnLines(s: seq<Sym>) {
    Met(true, s)
  }

  ghost predicate At(r: Reader, file: string, line: int) {
    !r.pending && r.file == file && r.line == line
  }

  /** The reader gives offset `o` its original file and line. */
  ghost predicate Good(b: Buffer, mirror: string, o: nat)
    requires b.Valid() && o <= |b.original|
  {
    At(ReadTo(b, mirror, o), b.path, LineOf(b.original, o))
  }

  /** Every marker of `s` is met at the start of a line by a reader that enters `s` as `r`. */
  ghost predicate MetAtStart(r: Reader, s: seq<Sym>) {
    forall i :: 0 <= i < |s| && s[i].Mark? ==> ReadN(r, s, i).start
  }

  ghost predicate AllMetAtStart(r: Reader, pieces: seq<seq<Sym>>, n: nat)
    requires n < |pieces|
  {
    forall k :: 0 <= k <= n ==> MetAtStart(ReadBefore(r, pieces, k), pieces[k])
  }

  lemma OwnLinesMetAtStart(r: Reader, before: seq<Sym>, s: seq<Sym>)
    requires OwnLines(before + s) && r.start
    ensures MetAtStart(Read(r, before), s)
  {
    forall i | 0 <= i < |s| && s[i].Mark?
      ensures ReadN(Read(r, before), s, i).start
    {
      ReadConcatN(r, before, s, i);
      StartIs(r, before + s, |before| + i);
      assert (before + s)[|before| + i] == s[i];
    }
  }

  lemma OwnLinesPrefix(whole: seq<Sym>, a: seq<Sym>)
    requires a <= whole && OwnLines(whole)
    ensures OwnLines(a)
  {
    forall i | 0 <= i < |a| && a[i].Mark?
      ensures StartAfter(true, a[..i])
    {
      assert whole[i] == a[i] && whole[..i] == a[..i];
    }
  }

  lemma StillPrefix(a: seq<Sym>, b: seq<Sym>, c: seq<Sym>, whole: seq<Sym>)
    requires a <= b && whole == b + c
    ensures a <= whole
  {
  }

  lemma {:induction false} JoinedGrows(pieces: seq<seq<Sym>>, k: nat, n: nat)
    requires k <= n < |pieces|
    ensures Joined(pieces, k) <= Joined(pieces, n)
  {
    if k < n {
      JoinedGrows(pieces, k, n - 1);
      StillPrefix(Joined(pieces, k), Joined(pieces, n - 1), pieces[n], Joined(pieces, n));
    }
  }

  lemma OwnLinesUpTo(pieces: seq<seq<Sym>>, k: nat, n: nat)
    requires k <= n < |pieces| && OwnLines(Joined(pieces, n))
    ensures OwnLines(Joined(pieces, k))
  {
    JoinedGrows(pieces, k, n);
    OwnLinesPrefix(Joined(pieces, n), Joined(pieces, k));
  }

  lemma PieceMetAtStart(r: Reader, pieces: seq<seq<Sym>>, k: nat)
    requires k < |pieces| && OwnLines(Joined(pieces, k)) && r.start
    ensures MetAtStart(ReadBefore(r, pieces, k), pieces[k])
  {
    if k == 0 {
      assert [] + pieces[0] == pieces[0];
      OwnLinesMetAtStart(r, [], pieces[0]);
    } else {
      ReadsJoined(r, pieces, k - 1);
      OwnLinesMetAtStart(r, Joined(pieces, k - 1), pieces[k]);
    }
  }

  lemma OwnLinesAllMet(r: Reader, pieces: seq<seq<Sym>>, n: nat)
    requires n < |pieces| && OwnLines(Joined(pieces, n)) && r.start
    ensures AllMetAtStart(r, pieces, n)
  {
    forall k | 0 <= k <= n
      ensures MetAtStart(ReadBefore(r, pieces, k), pieces[k])
    {
      OwnLinesUpTo(pieces, k, n);
      PieceMetAtStart(r, pieces, k);
    }
  }

  /** Whatever came before, a marker met at the start of a line settles what follows. */
  lemma ReadDirective(r: Reader, s: seq<Sym>, i: nat)
    requires i < |s| - 1 && s[i].Mark? && s[i + 1] == NL && ReadN(r, s, i).start
    ensures ReadN(r, s, i + 2) == Reader(s[i].file, s[i].line, true, false, 0, "")
  {
    assert ReadN(r, s, i + 1) == ReadSym(ReadN(r, s, i), s[i]);
  }

  lemma {:induction false} ReadQuiet(r: Reader, s: seq<Sym>, i: nat, n: nat)
    requires i <= n <= |s| && !ReadN(r, s, i).pending && forall j :: i <= j < n ==> s[j].Ch? && s[j] != NL
    ensures var r0, r' := ReadN(r, s, i), ReadN(r, s, n); !r'.pending && r'.file == r0.file && r'.line == r0.line
  {
    if i < n {
      ReadQuiet(r, s, i, n - 1);
    }
  }

  lemma ReadPinned(r: Reader, before: seq<Sym>, s: seq<Sym>, line: nat, file: string)
    requires EndsPinned(s, line, file) && MetAtStart(r, before + s)
    ensures At(Read(r, before + s), file, line)
  {
    var i :| 0 <= i < |s| - 1 && s[i] == Mark(line, file) && s[i + 1] == NL && Quiet(s[i + 2..]);
    var all, k := before + s, |before| + i;
    assert all[k] == s[i] && all[k + 1] == s[i + 1];
    ReadDirective(r, all, k);
    forall j | k + 2 <= j < |all|
      ensures all[j].Ch? && all[j] != NL
    {
      assert all[j] == s[i + 2..][j - k - 2];
    }
    ReadQuiet(r, all, k + 2, |all|);
  }

  lemma PinnedIsGood(b: Buffer, mirror: string, o: nat)
    requires b.Valid() && o <= |b.original|
    requires AllMetAtStart(Opened(mirror), Pieces(b), |b.original|)
    requires EndsPinned(b.ins[o], LineOf(b.original, o), b.path)
    ensures Good(b, mirror, o)
  {
    var r := ReadBefore(Opened(mirror), Pieces(b), o);
    assert MetAtStart(r, Pieces(b)[o]);
    var before := if o == 0 then [Mark(HEADER_LINE, b.path), NL] else Emit(b, o - 1);
    assert Pieces(b)[o] == before + b.ins[o];
    ReadPinned(r, before, b.ins[o], LineOf(b.original, o), b.path);
  }

  lemma LineOfStep(original: string, o: nat, n: nat)
    requires o <= n <= |original|
    ensures LineOf(original, n) == LineOf(original, o) + LinesIn(original[o..n])
  {
    assert original[..n] == original[..o] + original[o..n];
    LinesInConcat(original[..o], original[o..n]);
  }

  /** Characters with the right number of newlines lead from a line to a line. */
  lemma PlainStep(r: Reader, s: seq<Sym>, t: seq<Sym>, file: string, line: int, lines: nat)
    requires At(r, file, line) && Plain(s) && Quiet(t) && Newlines(s) == lines
    ensures At(Read(r, s + t), file, line + lines)
  {
    NewlinesConcat(s, t);
    NewlinesOfQuiet(t);
    ReadPlain(r, s + t);
  }

  lemma KeepStep(b: Buffer, mirror: string, o: nat)
    requires b.Valid() && o < |b.original| && b.cells[o].Keep? && Good(b, mirror, o) && Quiet(b.ins[o + 1])
    ensures Good(b, mirror, o + 1)
  {
    var kept := [Ch(b.original[o])];
    assert kept == Lift(b.original[o..o + 1]);
    NewlinesOfLift(b.original[o..o + 1]);
    LineOfStep(b.original, o, o + 1);
    assert Pieces(b)[o + 1] == kept + b.ins[o + 1];
    PlainStep(ReadTo(b, mirror, o), kept, b.ins[o + 1], b.path, LineOf(b.original, o), LinesIn(b.original[o..o + 1]));
  }

  lemma {:induction false} ReadOverNothing(r: Reader, pieces: seq<seq<Sym>>, m: nat, n: nat)
    requires m <= n <= |pieces|
    requires forall i :: m <= i < n ==> pieces[i] == []
    ensures ReadBefore(r, pieces, n) == ReadBefore(r, pieces, m)
  {
    if m < n {
      ReadOverNothing(r, pieces, m, n - 1);
    }
  }

  /** One piece, then nothing, then one piece more. */
  lemma ReadAcross(r: Reader, pieces: seq<seq<Sym>>, o: nat, end: nat, s: seq<Sym>, t: seq<Sym>)
    requires o + 1 < end < |pieces| && pieces[o + 1] == s && pieces[end] == t
    requires forall i :: o + 1 < i < end ==> pieces[i] == []
    ensures ReadBefore(r, pieces, end + 1) == Read(ReadBefore(r, pieces, o + 1), s + t)
  {
    ReadOverNothing(r, pieces, o + 2, end);
    ReadConcat(ReadBefore(r, pieces, o + 1), s, t);
  }

  lemma GonePieces(b: Buffer, o: nat, end: nat)
    requires b.Valid() && o + 1 < end <= |b.original|
    requires forall i :: o < i < end ==> b.cells[i].Gone? && b.ins[i] == []
    ensures Pieces(b)[o + 1] == Emit(b, o) && Pieces(b)[end] == b.ins[end]
    ensures forall i :: o + 1 < i < end ==> Pieces(b)[i] == []
  {
    forall i | o + 1 < i < end
      ensures Pieces(b)[i] == []
    {
      assert b.cells[i - 1].Gone? && b.ins[i] == [];
    }
    assert b.cells[end - 1].Gone? && Piece(b, end) == b.ins[end];
    assert b.ins[o + 1] == [] && Piece(b, o + 1) == Emit(b, o);
  }

  lemma ReadAfterReplaced(b: Buffer, mirror: string, o: nat, end: nat)
    requires b.Valid() && o < end <= |b.original|
    requires forall i :: o < i < end ==> b.cells[i].Gone? && b.ins[i] == []
    ensures ReadTo(b, mirror, end) == Read(ReadTo(b, mirror, o), Emit(b, o) + b.ins[end])
  {
    if end > o + 1 {
      GonePieces(b, o, end);
      ReadAcross(Opened(mirror), Pieces(b), o, end, Emit(b, o), b.ins[end]);
    } else {
      assert Pieces(b)[end] == Emit(b, o) + b.ins[end];
    }
  }

  lemma ReplacedStep(b: Buffer, mirror: string, o: nat, end: nat)
    requires b.Valid() && o < end <= |b.original| && b.cells[o].Replaced? && Good(b, mirror, o)
    requires forall i :: o < i < end ==> b.cells[i].Gone? && b.ins[i] == []
    requires LinesIn(b.cells[o].text) == LinesIn(b.original[o..end]) && Quiet(b.ins[end])
    ensures Good(b, mirror, end)
  {
    ReadAfterReplaced(b, mirror, o, end);
    NewlinesOfLift(b.cells[o].text);
    LineOfStep(b.original, o, end);
    PlainStep(ReadTo(b, mirror, o), Emit(b, o), b.ins[end], b.path, LineOf(b.original, o), LinesIn(b.original[o..end]));
  }

  lemma HeaderIsGood(b: Buffer, mirror: string)
    requires b.Valid() && Quiet(b.ins[0])
    ensures Good(b, mirror, 0)
  {
    assert b.original[..0] == "";
    var s := [Mark(HEADER_LINE, b.path), NL] + b.ins[0];
    assert ReadTo(b, mirror, 0) == Read(ReadBefore(Opened(mirror), Pieces(b), 0), s);
    ReadDirective(Opened(mirror), s, 0);
    forall j | 2 <= j < |s|
      ensures s[j].Ch? && s[j] != NL
    {
      assert s[j] == b.ins[0][j - 2];
    }
    ReadQuiet(Opened(mirror), s, 2, |s|);
  }

  /** At every offset that is not inside replaced text the reader is right, or the offset is excused. */
  lemma {:induction false} GoodOrExcused(b: Buffer, mirror: string, o: nat)
    requires BufferInv(b) && o <= |b.original| && (o < |b.original| ==> !b.cells[o].Gone?)
    requires AllMetAtStart(Opened(mirror), Pieces(b), |b.original|)
    ensures Good(b, mirror, o) || Excused(b, o)
    decreases o, 1
  {
    assert OffsetInv(b, o, -1);
    if EndsPinned(b.ins[o], LineOf(b.original, o), b.path) {
      PinnedIsGood(b, mirror, o);
    } else if Quiet(b.ins[o]) && !Excused(b, o) {
      if o == 0 {
        HeaderIsGood(b, mirror);
      } else {
        GoodAfterQuiet(b, mirror, o);
      }
    }
  }

  lemma AfterKept(b: Buffer, mirror: string, o: nat, end: nat)
    requires b.Valid() && o + 1 == end < |b.original| && b.cells[o].Keep? && Quiet(b.ins[end])
    requires Good(b, mirror, o) || Excused(b, o)
    ensures Good(b, mirror, end)
  {
    KeepStep(b, mirror, o);
  }

  lemma AfterReplaced(b: Buffer, mirror: string, o: nat, end: nat)
    requires b.Valid() && o < end < |b.original| && b.cells[o].Replaced?
    requires forall i :: o < i < end ==> b.cells[i].Gone? && b.ins[i] == []
    requires LinesIn(b.cells[o].text) == LinesIn(b.original[o..end]) && Quiet(b.ins[end])
    requires Good(b, mirror, o) || Excused(b, o)
    ensures Good(b, mirror, end)
  {
    assert o + 1 < end ==> b.ins[o + 1] == [];
    ReplacedStep(b, mirror, o, end);
  }

  /** `start` is a kept character or a replaced range, and ends where `o` begins. */
  ghost predicate Ends(b: Buffer, start: nat, o: nat)
    requires b.Valid() && start < o <= |b.original|
  {
    || (b.cells[start].Keep? && start + 1 == o)
    || (b.cells[start].Replaced? && start + b.cells[start].length == o && RangeInv(b, start))
  }

  /** The same, and it keeps the count. */
  ghost predicate EndsAt(b: Buffer, start: nat, o: nat)
    requires b.Valid() && start < o <= |b.original|
  {
    Ends(b, start, o) && (b.cells[start].Replaced? ==> Counts(b, b.cells[start].text, start, o))
  }

  lemma ReplacedBoundary(b: Buffer, mirror: string, start: nat, o: nat)
    requires b.Valid() && start < o < |b.original| && b.cells[start].Replaced? && start + b.cells[start].length == o
    requires RangeInv(b, start) && Counts(b, b.cells[start].text, start, o)
    requires Quiet(b.ins[o]) && !Excused(b, o)
    requires Good(b, mirror, start) || Excused(b, start)
    ensures Good(b, mirror, o)
  {
    AfterReplaced(b, mirror, start, o);
  }

  lemma BoundaryStep(b: Buffer, mirror: string, start: nat, o: nat)
    requires b.Valid() && start < o < |b.original| && EndsAt(b, start, o)
    requires Quiet(b.ins[o]) && !Excused(b, o)
    requires Good(b, mirror, start) || Excused(b, start)
    ensures Good(b, mirror, o)
  {
    if b.cells[start].Keep? {
      AfterKept(b, mirror, start, o);
    } else {
      ReplacedBoundary(b, mirror, start, o);
    }
  }

  lemma {:induction false} GoodAfterQuiet(b: Buffer, mirror: string, o: nat)
    requires BufferInv(b) && 0 < o < |b.original| && !b.cells[o].Gone?
    requires AllMetAtStart(Opened(mirror), Pieces(b), |b.original|)
    requires Quiet(b.ins[o]) && !Excused(b, o)
    ensures Good(b, mirror, o)
    decreases o, 0
  {
    var start := LastBoundary(b, -1, o);
    GoodOrExcused(b, mirror, start);
    BoundaryStep(b, mirror, start, o);
  }

  /** The kept character or replaced range that ends where `o` begins. */
  lemma LastBoundary(b: Buffer, x: int, o: nat) returns (start: nat)
    requires InvBut(b, x) && 0 < o <= |b.original| && (o < |b.original| ==> !b.cells[o].Gone?)
    ensures start < o && !b.cells[start].Gone? && Ends(b, start, o) && (start != x ==> EndsAt(b, start, o))
  {
    assert OffsetInv(b, o - 1, x);
    if b.cells[o - 1].Gone? {
      start :| Spans(b, start, o - 1);
      assert OffsetInv(b, start, x);
    } else {
      start := o - 1;
    }
  }

  // ----- the result

  /** After any admissible edits, if every marker has a line of its own, a reader of the rendered file gives every
      surviving character that is no newline its original file and line. */
  lemma SurvivorsKeepTheirLines(original: string, path: string, edits: seq<Edit>, mirror: string, o: nat)
    requires AllAdmissible(Fresh(original, path), edits)
    requires OwnLines(Output(AppliedAll(Fresh(original, path), edits)))
    requires o < |original| && AppliedAll(Fresh(original, path), edits).cells[o].Keep? && original[o] != '\n'
    ensures At(ReadTo(AppliedAll(Fresh(original, path), edits), mirror, o), path, LineOf(original, o))
  {
    var b := AppliedAll(Fresh(original, path), edits);
    FreshInv(original, path);
    EditsKeepInv(Fresh(original, path), edits);
    OwnLinesAllMet(Opened(mirror), Pieces(b), |original|);
    GoodOrExcused(b, mirror, o);
  }
}
