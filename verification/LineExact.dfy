/** Exactly which characters are read right after any edits, markers that are missed included. */
module LineExact {
  import opened LineReader
  import opened LineMarkers
  import opened LineEdits
  import opened LineFidelity
  import opened LineHeads

  // ----- a directive is always ended

  /** A newline follows a marker at `i`. */
  ghost predicate EndedAt(s: seq<Sym>, i: nat)
    requires i < |s|
  {
    s[i].Mark? ==> i + 1 < |s| && s[i + 1] == NL
  }

  ghost predicate Ended(s: seq<Sym>) {
    forall i :: 0 <= i < |s| ==> EndedAt(s, i)
  }

  ghost predicate AllEnded(b: Buffer)
    requires b.Valid()
  {
    forall o :: 0 <= o <= |b.original| ==> Ended(b.ins[o])
  }

  lemma EndedConcat(s: seq<Sym>, t: seq<Sym>)
    requires Ended(s) && Ended(t)
    ensures Ended(s + t)
  {
    var all := s + t;
    forall i | 0 <= i < |all|
      ensures EndedAt(all, i)
    {
      if i < |s| {
        assert EndedAt(s, i);
      } else {
        assert EndedAt(t, i - |s|);
      }
    }
  }

  lemma PlainIsEnded(s: seq<Sym>)
    requires Plain(s)
    ensures Ended(s)
  {
  }

  lemma ComposedIsEnded(b: Buffer, e: Edit)
    requires InFile(b, e)
    ensures Ended(Composed(b, e))
  {
    if e.length == 0 && '\n' in e.text {
      PlainIsEnded(Lift(e.text));
      EndedConcat([NL, Mark(LineOf(b.original, e.begin), "tapa:" + b.path), NL], Lift(e.text));
    } else {
      PlainIsEnded(Composed(b, e));
    }
  }

  lemma PutKeepsEnded(b: Buffer, at: nat, s: seq<Sym>)
    requires b.Valid() && AllEnded(b) && at <= |b.original| && Ended(s)
    ensures AllEnded(Put(b, at, s))
  {
  }

  lemma TextKeepsEnded(b: Buffer, e: Edit)
    requires b.Valid() && InFile(b, e) && AllEnded(b)
    ensures AllEnded(WithText(b, e))
  {
    if e.length == 0 {
      ComposedIsEnded(b, e);
      EndedConcat(b.ins[e.begin], Composed(b, e));
      EndedConcat(Composed(b, e), b.ins[e.begin]);
      PutKeepsEnded(b, e.begin, Beside(b.ins[e.begin], Composed(b, e), e.before));
    }
  }

  lemma EditKeepsEnded(b: Buffer, e: Edit)
    requires b.Valid() && InFile(b, e) && AllEnded(b)
    ensures AllEnded(Applied(b, e))
  {
    TextKeepsEnded(b, e);
    if Anchor(b, e) >= 0 {
      var a, m := Anchor(b, e), ResnapMarker(b, e);
      var r := Cut(WithText(b, e), a);
      EndedConcat(r.ins[a], m);
      PutKeepsEnded(r, a, r.ins[a] + m);
    }
  }

  lemma {:induction false} EditsKeepEnded(b: Buffer, edits: seq<Edit>)
    requires b.Valid() && AllEnded(b) && AllAdmissible(b, edits)
    ensures AllEnded(AppliedAll(b, edits))
    decreases |edits|
  {
    if edits != [] {
      EditKeepsEnded(b, edits[0]);
      EditsKeepEnded(Applied(b, edits[0]), edits[1..]);
    }
  }

  lemma {:induction false} PendingAfterMark(r: Reader, s: seq<Sym>, n: nat)
    requires n <= |s| && !r.pending && Ended(s)
    ensures ReadN(r, s, n).pending ==> n > 0 && s[n - 1].Mark?
  {
    if n > 0 {
      PendingAfterMark(r, s, n - 1);
      assert n > 1 ==> EndedAt(s, n - 2);
    }
  }

  lemma ReadEnded(r: Reader, s: seq<Sym>)
    requires !r.pending && Ended(s)
    ensures !Read(r, s).pending
  {
    PendingAfterMark(r, s, |s|);
    assert s != [] ==> EndedAt(s, |s| - 1);
  }

  lemma PieceIsEnded(b: Buffer, k: nat)
    requires b.Valid() && AllEnded(b) && k <= |b.original|
    ensures Ended(Pieces(b)[k])
  {
    if k == 0 {
      EndedConcat([Mark(HEADER_LINE, b.path), NL], b.ins[0]);
    } else {
      PlainIsEnded(Emit(b, k - 1));
      EndedConcat(Emit(b, k - 1), b.ins[k]);
    }
  }

  lemma {:induction false} JoinedIsEnded(pieces: seq<seq<Sym>>, k: nat)
    requires k < |pieces| && forall j :: 0 <= j <= k ==> Ended(pieces[j])
    ensures Ended(Joined(pieces, k))
  {
    if k > 0 {
      JoinedIsEnded(pieces, k - 1);
      EndedConcat(Joined(pieces, k - 1), pieces[k]);
    }
  }

  lemma FileIsEnded(b: Buffer, k: nat)
    requires b.Valid() && AllEnded(b) && k <= |b.original|
    ensures Ended(Joined(Pieces(b), k))
  {
    forall j | 0 <= j <= k
      ensures Ended(Pieces(b)[j])
    {
      PieceIsEnded(b, j);
    }
    JoinedIsEnded(Pieces(b), k);
  }

  lemma ReadToIsSettled(b: Buffer, mirror: string, o: nat)
    requires b.Valid() && AllEnded(b) && o <= |b.original|
    ensures !ReadTo(b, mirror, o).pending
  {
    FileIsEnded(b, o);
    ReadsJoined(Opened(mirror), Pieces(b), o);
    ReadEnded(Opened(mirror), Joined(Pieces(b), o));
  }

  // ----- between pins, right and wrong are handed on

  /** Where a marker stands, or the file begins. */
  ghost predicate IsPin(b: Buffer, o: nat)
    requires b.Valid() && o <= |b.original|
  {
    o == 0 || !Quiet(b.ins[o])
  }

  /** The last pin at or before `o`. */
  ghost function PinOf(b: Buffer, o: nat): (p: nat)
    requires b.Valid() && o <= |b.original|
    ensures p <= o && IsPin(b, p)
  {
    if IsPin(b, o) then o else PinOf(b, o - 1)
  }

  lemma PlainStepIff(r: Reader, s: seq<Sym>, t: seq<Sym>, file: string, line: int, lines: nat)
    requires !r.pending && Plain(s) && Quiet(t) && Newlines(s) == lines
    ensures At(Read(r, s + t), file, line + lines) <==> At(r, file, line)
  {
    NewlinesConcat(s, t);
    NewlinesOfQuiet(t);
    ReadPlain(r, s + t);
  }

  lemma KeepIff(b: Buffer, mirror: string, o: nat)
    requires b.Valid() && AllEnded(b) && o < |b.original| && b.cells[o].Keep? && Quiet(b.ins[o + 1])
    ensures Good(b, mirror, o + 1) <==> Good(b, mirror, o)
  {
    var kept := [Ch(b.original[o])];
    assert kept == Lift(b.original[o..o + 1]);
    NewlinesOfLift(b.original[o..o + 1]);
    LineOfStep(b.original, o, o + 1);
    ReadToIsSettled(b, mirror, o);
    assert Pieces(b)[o + 1] == kept + b.ins[o + 1];
    PlainStepIff(ReadTo(b, mirror, o), kept, b.ins[o + 1], b.path, LineOf(b.original, o), LinesIn(b.original[o..o + 1]));
  }

  lemma ReplacedIff(b: Buffer, mirror: string, o: nat, end: nat)
    requires b.Valid() && AllEnded(b) && o < end <= |b.original| && b.cells[o].Replaced?
    requires forall i :: o < i < end ==> b.cells[i].Gone? && b.ins[i] == []
    requires LinesIn(b.cells[o].text) == LinesIn(b.original[o..end]) && Quiet(b.ins[end])
    ensures Good(b, mirror, end) <==> Good(b, mirror, o)
  {
    ReadAfterReplaced(b, mirror, o, end);
    ReadToIsSettled(b, mirror, o);
    LineOfStep(b.original, o, end);
    ReplacedReads(ReadTo(b, mirror, o), ReadTo(b, mirror, end), b.cells[o].text, b.ins[end], b.path,
                  LineOf(b.original, o), LineOf(b.original, end));
  }

  lemma ReplacedReads(r: Reader, r': Reader, text: string, t: seq<Sym>, file: string, line: int, line': int)
    requires !r.pending && Quiet(t) && r' == Read(r, Lift(text) + t) && line' == line + LinesIn(text)
    ensures At(r', file, line') <==> At(r, file, line)
  {
    NewlinesOfLift(text);
    PlainStepIff(r, Lift(text), t, file, line, LinesIn(text));
  }

  lemma BoundaryIff(b: Buffer, mirror: string, start: nat, o: nat)
    requires b.Valid() && AllEnded(b) && start < o < |b.original| && EndsAt(b, start, o)
    requires Quiet(b.ins[o]) && !Excused(b, o)
    ensures Good(b, mirror, o) <==> Good(b, mirror, start)
  {
    if b.cells[start].Keep? {
      KeepIff(b, mirror, start);
    } else {
      ReplacedIff(b, mirror, start, o);
    }
  }

  /** Before an offset where no marker stands, nothing is excused. */
  lemma NotExcusedBefore(b: Buffer, start: nat, o: nat)
    requires b.Valid() && start < o < |b.original| && Ends(b, start, o) && Quiet(b.ins[o])
    ensures !Excused(b, start)
  {
    if start + 1 < o {
      assert b.ins[start + 1] == [];
    }
    assert Quiet(b.ins[start + 1]);
  }

  /** No marker stands after `m` and up to `o`. */
  ghost predicate NoPinsBetween(b: Buffer, m: nat, o: nat)
    requires b.Valid() && o <= |b.original|
  {
    forall i :: m < i <= o ==> Quiet(b.ins[i])
  }

  lemma NotPast(b: Buffer, m: nat, start: nat, o: nat)
    requires b.Valid() && m < o <= |b.original| && !b.cells[m].Gone? && start < o && Ends(b, start, o)
    ensures m <= start
  {
  }

  /** From `o` back to what ends there. */
  lemma OneBack(b: Buffer, x: int, mirror: string, m: nat, o: nat) returns (start: nat)
    requires InvBut(b, x) && AllEnded(b) && m < o < |b.original| && !(m <= x < o)
    requires !b.cells[m].Gone? && !b.cells[o].Gone? && !Excused(b, o) && Quiet(b.ins[o])
    ensures m <= start < o && !b.cells[start].Gone? && !Excused(b, start)
    ensures Good(b, mirror, o) <==> Good(b, mirror, start)
  {
    start := LastBoundary(b, x, o);
    NotPast(b, m, start, o);
    NotExcusedBefore(b, start, o);
    BoundaryIff(b, mirror, start, o);
  }

  lemma {:induction false} GoodIffEarlier(b: Buffer, x: int, mirror: string, m: nat, o: nat)
    requires InvBut(b, x) && AllEnded(b) && m <= o < |b.original| && !(m <= x < o)
    requires !b.cells[m].Gone? && !b.cells[o].Gone? && !Excused(b, o) && NoPinsBetween(b, m, o)
    ensures Good(b, mirror, o) <==> Good(b, mirror, m)
    ensures !Excused(b, m)
    decreases o
  {
    if m < o {
      var start := OneBack(b, x, mirror, m, o);
      GoodIffEarlier(b, x, mirror, m, start);
    }
  }

  lemma {:induction false} NoPinsSince(b: Buffer, o: nat)
    requires b.Valid() && o <= |b.original|
    ensures NoPinsBetween(b, PinOf(b, o), o)
  {
    if !IsPin(b, o) {
      NoPinsSince(b, o - 1);
    }
  }

  lemma NothingInsideReplaced(b: Buffer, x: int, o: nat)
    requires InvBut(b, x) && o < |b.original| && b.cells[o].Gone?
    ensures o > 0 && b.ins[o] == []
  {
    assert OffsetInv(b, o, x);
    var start: nat :| Spans(b, start, o);
    assert OffsetInv(b, start, x);
  }

  lemma PinIsKept(b: Buffer, x: int, p: nat)
    requires InvBut(b, x) && p < |b.original| && IsPin(b, p)
    ensures !b.cells[p].Gone?
  {
    if b.cells[p].Gone? {
      NothingInsideReplaced(b, x, p);
    }
  }

  lemma GoodIffPinIsGood(b: Buffer, x: int, mirror: string, o: nat)
    requires InvBut(b, x) && AllEnded(b) && o < |b.original| && !b.cells[o].Gone? && !Excused(b, o)
    requires !(PinOf(b, o) <= x < o)
    ensures Good(b, mirror, o) <==> Good(b, mirror, PinOf(b, o))
    ensures !Excused(b, PinOf(b, o))
  {
    PinIsKept(b, x, PinOf(b, o));
    NoPinsSince(b, o);
    GoodIffEarlier(b, x, mirror, PinOf(b, o), o);
  }

  // ----- at a pin

  /** The index of the last marker. */
  ghost function LastMark(s: seq<Sym>): (i: int)
    ensures -1 <= i < |s| && (i >= 0 ==> s[i].Mark?)
    ensures forall j :: i < j < |s| ==> !s[j].Mark?
  {
    if s == [] then -1 else if s[|s| - 1].Mark? then |s| - 1 else LastMark(s[..|s| - 1])
  }

  ghost function ToLastMark(s: seq<Sym>): seq<Sym> {
    s[..if LastMark(s) < 0 then 0 else LastMark(s)]
  }

  /** The file up to offset `o`, what is inserted there not counted. */
  ghost function TextBefore(b: Buffer, o: nat): seq<Sym>
    requires b.Valid() && o <= |b.original|
  {
    if o == 0 then [Mark(HEADER_LINE, b.path), NL] else Joined(Pieces(b), o - 1) + Emit(b, o - 1)
  }

  ghost function BeforeMarker(b: Buffer, p: nat): seq<Sym>
    requires b.Valid() && p <= |b.original|
  {
    TextBefore(b, p) + ToLastMark(b.ins[p])
  }

  /** The last marker at `p` has only blanks before it on its line. */
  ghost predicate PinMet(b: Buffer, p: nat)
    requires b.Valid() && p <= |b.original|
  {
    StartAfter(true, BeforeMarker(b, p))
  }

  /** The reader as it comes to the last marker at `p`. */
  ghost function AtMarker(b: Buffer, mirror: string, p: nat): Reader
    requires b.Valid() && p <= |b.original|
  {
    Read(Opened(mirror), BeforeMarker(b, p))
  }

  /** A missed marker only ends the line it is on; that can make up for a line that was taken away. */
  ghost predicate CountComesOut(b: Buffer, mirror: string, p: nat)
    requires b.Valid() && p <= |b.original|
  {
    var r := AtMarker(b, mirror, p);
    r.file == b.path && r.line + 1 == LineOf(b.original, p)
  }

  lemma ReadMarker(r: Reader, line: nat, file: string)
    requires !r.pending
    ensures Read(r, [Mark(line, file), NL]) ==
              if r.start then Reader(file, line, true, false, 0, "") else Reader(r.file, r.line + 1, true, false, 0, "")
  {
    var s := [Mark(line, file), NL];
    assert ReadN(r, s, 1) == ReadSym(ReadN(r, s, 0), s[0]);
    assert ReadN(r, s, 2) == ReadSym(ReadN(r, s, 1), s[1]);
  }

  /** A marker met at the start of a line counts; anywhere else it only ends the line. */
  lemma ReadLastMarker(r: Reader, before: seq<Sym>, line: nat, file: string, quiet: seq<Sym>)
    requires Quiet(quiet) && !Read(r, before).pending
    ensures var r0, r' := Read(r, before), Read(r, before + ([Mark(line, file), NL] + quiet));
            if r0.start then At(r', file, line) else At(r', r0.file, r0.line + 1)
  {
    var r0 := Read(r, before);
    ReadConcat(r, before, [Mark(line, file), NL] + quiet);
    ReadConcat(r0, [Mark(line, file), NL], quiet);
    ReadMarker(r0, line, file);
    NewlinesOfQuiet(quiet);
    ReadPlain(Read(r0, [Mark(line, file), NL]), quiet);
  }

  lemma SplitAtMark(s: seq<Sym>, line: nat, file: string) returns (quiet: seq<Sym>)
    requires EndsPinned(s, line, file)
    ensures Quiet(quiet) && s == ToLastMark(s) + ([Mark(line, file), NL] + quiet)
  {
    var i :| 0 <= i < |s| - 1 && s[i] == Mark(line, file) && s[i + 1] == NL && Quiet(s[i + 2..]);
    quiet := s[i + 2..];
    LastMarkIs(s, i);
    assert s[i..i + 2] == [Mark(line, file), NL];
    assert s == s[..i] + (s[i..i + 2] + s[i + 2..]);
  }

  lemma LastMarkIs(s: seq<Sym>, i: nat)
    requires i < |s| - 1 && s[i].Mark? && s[i + 1] == NL && Quiet(s[i + 2..])
    ensures LastMark(s) == i
  {
    assert forall j :: i + 2 <= j < |s| ==> s[j] == s[i + 2..][j - i - 2];
  }

  lemma ReadToIs(b: Buffer, mirror: string, p: nat)
    requires b.Valid() && p <= |b.original|
    ensures ReadTo(b, mirror, p) == Read(Opened(mirror), TextBefore(b, p) + b.ins[p])
  {
    ReadsJoined(Opened(mirror), Pieces(b), p);
    if p > 0 {
      assert Pieces(b)[p] == Emit(b, p - 1) + b.ins[p];
      Regroup(Joined(Pieces(b), p - 1), Emit(b, p - 1), b.ins[p]);
    }
  }

  lemma EndedPrefix(s: seq<Sym>, i: nat)
    requires Ended(s) && i < |s| && s[i].Mark?
    ensures Ended(s[..i])
  {
    forall j | 0 <= j < i
      ensures EndedAt(s[..i], j)
    {
      assert EndedAt(s, j);
    }
  }

  lemma TextBeforeIsEnded(b: Buffer, p: nat)
    requires b.Valid() && AllEnded(b) && p <= |b.original|
    ensures Ended(TextBefore(b, p))
  {
    if p == 0 {
      HeaderIsEnded(b.path);
    } else {
      FileIsEnded(b, p - 1);
      PlainIsEnded(Emit(b, p - 1));
      EndedConcat(Joined(Pieces(b), p - 1), Emit(b, p - 1));
    }
  }

  lemma HeaderIsEnded(path: string)
    ensures Ended([Mark(HEADER_LINE, path), NL])
  {
  }

  lemma BeforeMarkerIsEnded(b: Buffer, p: nat)
    requires b.Valid() && AllEnded(b) && p <= |b.original|
    ensures Ended(BeforeMarker(b, p))
  {
    if LastMark(b.ins[p]) >= 0 {
      EndedPrefix(b.ins[p], LastMark(b.ins[p]));
    }
    TextBeforeIsEnded(b, p);
    EndedConcat(TextBefore(b, p), ToLastMark(b.ins[p]));
  }

  /** The reader comes to the marker with no directive open, and at the start of a line exactly if the marker is met. */
  lemma AtMarkerIs(b: Buffer, mirror: string, p: nat)
    requires b.Valid() && AllEnded(b) && p <= |b.original|
    ensures !AtMarker(b, mirror, p).pending && (AtMarker(b, mirror, p).start <==> PinMet(b, p))
  {
    BeforeMarkerIsEnded(b, p);
    ReadEnded(Opened(mirror), BeforeMarker(b, p));
    ReadStart(Opened(mirror), BeforeMarker(b, p));
  }

  lemma MarkedPinReads(b: Buffer, mirror: string, p: nat, line: nat)
    requires b.Valid() && AllEnded(b) && p <= |b.original| && EndsPinned(b.ins[p], line, b.path)
    ensures var r0 := AtMarker(b, mirror, p);
            if PinMet(b, p) then At(ReadTo(b, mirror, p), b.path, line)
            else At(ReadTo(b, mirror, p), r0.file, r0.line + 1)
  {
    var quiet := SplitAtMark(b.ins[p], line, b.path);
    AtMarkerIs(b, mirror, p);
    ReadLastMarker(Opened(mirror), BeforeMarker(b, p), line, b.path, quiet);
    ReadToIs(b, mirror, p);
    Regroup(TextBefore(b, p), ToLastMark(b.ins[p]), [Mark(line, b.path), NL] + quiet);
  }

  lemma Regroup(s: seq<Sym>, t: seq<Sym>, u: seq<Sym>)
    ensures s + (t + u) == (s + t) + u
  {
  }

  lemma HeaderIsMet(b: Buffer)
    requires b.Valid() && Quiet(b.ins[0])
    ensures PinMet(b, 0)
  {
    assert LastMark(b.ins[0]) == -1;
    assert BeforeMarker(b, 0) == [Mark(HEADER_LINE, b.path), NL];
  }

  lemma PinIff(b: Buffer, x: int, mirror: string, p: nat)
    requires InvBut(b, x) && AllEnded(b) && p < |b.original| && IsPin(b, p) && !Excused(b, p)
    ensures Good(b, mirror, p) <==> PinMet(b, p) || CountComesOut(b, mirror, p)
  {
    assert OffsetInv(b, p, x);
    if Quiet(b.ins[p]) {
      HeaderIsGood(b, mirror);
      HeaderIsMet(b);
    } else {
      MarkedPinReads(b, mirror, p, LineOf(b.original, p));
    }
  }

  lemma SurvivorIff(b: Buffer, x: int, mirror: string, o: nat)
    requires InvBut(b, x) && AllEnded(b) && o < |b.original| && b.cells[o].Keep? && b.original[o] != '\n'
    requires !(PinOf(b, o) <= x < o)
    ensures Good(b, mirror, o) <==> PinMet(b, PinOf(b, o)) || CountComesOut(b, mirror, PinOf(b, o))
  {
    GoodIffPinIsGood(b, x, mirror, o);
    PinIff(b, x, mirror, PinOf(b, o));
  }

  // ----- the result

  /** After any admissible edits, a surviving character that is no newline is read on its line if and only if the last
      marker before it has only blanks before it on its line, or is missed and the count comes out right all the same. */
  lemma SurvivorIsReadRightIff(original: string, path: string, edits: seq<Edit>, mirror: string, o: nat)
    requires AllAdmissible(Fresh(original, path), edits)
    requires o < |original| && AppliedAll(Fresh(original, path), edits).cells[o].Keep? && original[o] != '\n'
    ensures var b := AppliedAll(Fresh(original, path), edits);
            Good(b, mirror, o) <==> PinMet(b, PinOf(b, o)) || CountComesOut(b, mirror, PinOf(b, o))
  {
    FreshInv(original, path);
    EditsKeepInv(Fresh(original, path), edits);
    EditsKeepEnded(Fresh(original, path), edits);
    SurvivorIff(AppliedAll(Fresh(original, path), edits), -1, mirror, o);
  }

  // ----- one more edit

  lemma {:induction false} SameJoined(p: seq<seq<Sym>>, q: seq<seq<Sym>>, n: nat)
    requires n < |p| && n < |q| && forall k :: 0 <= k <= n ==> p[k] == q[k]
    ensures Joined(p, n) == Joined(q, n)
  {
    if n > 0 {
      SameJoined(p, q, n - 1);
    }
  }

  lemma PutKeepsTextBefore(b: Buffer, a: nat, s: seq<Sym>)
    requires b.Valid() && a <= |b.original|
    ensures TextBefore(Put(b, a, s), a) == TextBefore(b, a)
  {
    var r := Put(b, a, s);
    if a > 0 {
      forall k | 0 <= k <= a - 1
        ensures Pieces(r)[k] == Pieces(b)[k]
      {
        if k > 0 {
          assert Piece(r, k) == Piece(b, k);
        }
      }
      SameJoined(Pieces(r), Pieces(b), a - 1);
    }
  }

  /** What comes before a marker put at `a`. */
  lemma BeforeNewMarker(b: Buffer, a: nat, s: seq<Sym>, mark: Sym)
    requires b.Valid() && a <= |b.original| && mark.Mark?
    ensures BeforeMarker(Put(b, a, s + [mark, NL]), a) == TextBefore(b, a) + s
  {
    var t := s + [mark, NL];
    assert t[|s|] == mark && t[|s| + 1] == NL && t[|s| + 2..] == [];
    LastMarkIs(t, |s|);
    assert t[..|s|] == s;
    PutKeepsTextBefore(b, a, t);
  }

  /** The marker of an edit not at offset 0 brings its own newline and is always met. */
  lemma OwnNewlineIsMet(b: Buffer, e: Edit)
    requires b.Valid() && InFile(b, e) && e.begin > 0 && Anchor(b, e) >= 0
    ensures PinMet(Applied(b, e), Anchor(b, e))
  {
    var a := Anchor(b, e);
    var r, m := Cut(WithText(b, e), a), ResnapMarker(b, e);
    assert r.ins[a] + m == (r.ins[a] + [NL]) + [m[1], NL];
    BeforeNewMarker(r, a, r.ins[a] + [NL], m[1]);
    StartAfterNewline(true, TextBefore(r, a) + (r.ins[a] + [NL]));
  }

  /** What the marker of an edit at offset 0 will stand behind leaves off at the start of a line. All of it is known
      before the edit. */
  ghost predicate HeadMet(b: Buffer, e: Edit)
    requires b.Valid() && InFile(b, e) && Anchor(b, e) >= 0
  {
    var a := Anchor(b, e);
    var r := Cut(WithText(b, e), a);
    StartAfter(true, TextBefore(r, a) + r.ins[a])
  }

  /** Whatever was edited before, the marker of the next edit at offset 0 is met if and only if that is so. */
  lemma NextHeadIsMetIff(b: Buffer, e: Edit)
    requires b.Valid() && InFile(b, e) && e.begin == 0 && Anchor(b, e) >= 0
    ensures PinMet(Applied(b, e), Anchor(b, e)) <==> HeadMet(b, e)
  {
    var a := Anchor(b, e);
    var r, m := Cut(WithText(b, e), a), ResnapMarker(b, e);
    assert m == [m[0], NL];
    BeforeNewMarker(r, a, r.ins[a], m[0]);
  }

  lemma MarkerIsPin(b: Buffer, e: Edit)
    requires b.Valid() && InFile(b, e) && Anchor(b, e) >= 0
    ensures IsPin(Applied(b, e), Anchor(b, e))
  {
    MarkerPins(b, Cut(WithText(b, e), Anchor(b, e)).ins[Anchor(b, e)], e);
  }

  /** After such an edit the character at its anchor is read right if and only if the marker is met or the count comes
      out right all the same. */
  lemma NextHeadIsReadRightIff(b: Buffer, e: Edit, mirror: string)
    requires BufferInv(b) && AllEnded(b) && Editable(b, e) && e.begin == 0
    requires Anchor(b, e) >= 0 && b.original[Anchor(b, e)] != '\n'
    ensures var a, r := Anchor(b, e), Applied(b, e);
            Good(r, mirror, a) <==> HeadMet(b, e) || CountComesOut(r, mirror, a)
  {
    EditKeepsRest(b, e);
    EditKeepsEnded(b, e);
    NextHeadIsMetIff(b, e);
    MarkerIsPin(b, e);
    PinIff(Applied(b, e), Spoilt(b, e), mirror, Anchor(b, e));
  }
}
