/** What any edits leave at every offset of a file: nothing that ends a line, or a marker, or an excuse. */
module LineEdits {
  import opened LineReader
  import opened LineMarkers

  // ----- which edits are considered

  /** The range touches no earlier edit and spans no earlier insertion or marker. A marker that will come to lie in
      replaced text falls on one of its characters. */
  ghost predicate Editable(b: Buffer, e: Edit)
    requires b.Valid()
  {
    && InFile(b, e)
    && (forall o :: e.begin <= o < e.begin + e.length ==> b.cells[o].Keep?)
    && (forall o :: e.begin < o < e.begin + e.length ==> b.ins[o] == [])
    && (e.length == 0 && e.begin < |b.original| ==> !b.cells[e.begin].Gone?)
    && (Swallowed(b, e) ==> Cuttable(b, Anchor(b, e)))
  }

  /** The marker will come to lie in text that has replaced its anchor. */
  predicate Swallowed(b: Buffer, e: Edit)
    requires b.Valid() && InFile(b, e)
  {
    Anchor(b, e) >= 0 && b.cells[Anchor(b, e)].Gone?
  }

  /** The replaced text behind such a marker has as many lines as what it replaced, or what follows it does not
      depend on them. */
  ghost predicate TailCounts(b: Buffer, a: nat)
    requires b.Valid() && Cuttable(b, a)
  {
    var c := b.cells[a - 1];
    var end := a - 1 + c.length;
    end <= |b.original| && Counts(b, CutTail(c), a, end)
  }

  ghost predicate Admissible(b: Buffer, e: Edit)
    requires b.Valid()
  {
    Editable(b, e) && (Swallowed(b, e) ==> TailCounts(b, Anchor(b, e)))
  }

  ghost predicate AllAdmissible(b: Buffer, edits: seq<Edit>)
    requires b.Valid()
    decreases |edits|
  {
    edits == [] || (Admissible(b, edits[0]) && AllAdmissible(Applied(b, edits[0]), edits[1..]))
  }

  function AppliedAll(b: Buffer, edits: seq<Edit>): (r: Buffer)
    requires b.Valid() && AllAdmissible(b, edits)
    ensures r.Valid() && r.original == b.original && r.path == b.path
    decreases |edits|
  {
    if edits == [] then b else AppliedAll(Applied(b, edits[0]), edits[1..])
  }

  // ----- what the edits leave at every offset

  /** No line ends and no marker stands in `s`. */
  ghost predicate Quiet(s: seq<Sym>) {
    forall i :: 0 <= i < |s| ==> s[i].Ch? && s[i] != NL
  }

  /** The last marker of `s` is `Mark(line, file)`, a newline ends it, and only characters of the next line follow. */
  ghost predicate EndsPinned(s: seq<Sym>, line: nat, file: string) {
    exists i :: 0 <= i < |s| - 1 && s[i] == Mark(line, file) && s[i + 1] == NL && Quiet(s[i + 2..])
  }

  /** Nothing but a newline depends on the line number here: the next line is pinned again, or there is none. */
  ghost predicate Excused(b: Buffer, o: nat)
    requires b.Valid() && o <= |b.original|
  {
    || o == |b.original|
    || (b.original[o] == '\n' && (o + 1 == |b.original| || !Quiet(b.ins[o + 1])))
  }

  ghost predicate InsertedInv(b: Buffer, o: nat)
    requires b.Valid() && o <= |b.original|
  {
    Quiet(b.ins[o]) || EndsPinned(b.ins[o], LineOf(b.original, o), b.path) || Excused(b, o)
  }

  /** A text that stands for the original from `o` to `end` keeps the count, or nothing depends on it. */
  ghost predicate Counts(b: Buffer, text: string, o: nat, end: nat)
    requires b.Valid() && o <= end <= |b.original|
  {
    LinesIn(text) == LinesIn(b.original[o..end]) || !Quiet(b.ins[end]) || Excused(b, end)
  }

  ghost predicate RangeInv(b: Buffer, o: nat)
    requires b.Valid() && o < |b.original| && b.cells[o].Replaced?
  {
    var end := o + b.cells[o].length;
    o < end <= |b.original| && forall i :: o < i < end ==> b.cells[i].Gone? && b.ins[i] == []
  }

  ghost predicate ReplacedInv(b: Buffer, o: nat)
    requires b.Valid() && o < |b.original| && b.cells[o].Replaced?
  {
    RangeInv(b, o) && Counts(b, b.cells[o].text, o, o + b.cells[o].length)
  }

  /** The range replaced at `start` goes over `o`. */
  ghost predicate Spans(b: Buffer, start: nat, o: nat)
    requires b.Valid()
  {
    start < o < |b.original| && b.cells[start].Replaced? && o < start + b.cells[start].length
  }

  ghost predicate GoneInv(b: Buffer, o: nat)
    requires b.Valid() && o < |b.original| && b.cells[o].Gone?
  {
    exists start :: Spans(b, start, o)
  }

  /** What became of the character at `o` is in order; the text replaced at `x` need not keep the count. */
  ghost predicate CellInv(b: Buffer, o: nat, x: int)
    requires b.Valid() && o < |b.original|
  {
    match b.cells[o]
    case Keep => true
    case Replaced(_, _) => RangeInv(b, o) && (o != x ==> ReplacedInv(b, o))
    case Gone => GoneInv(b, o)
  }

  ghost predicate OffsetInv(b: Buffer, o: nat, x: int)
    requires b.Valid() && o <= |b.original|
  {
    InsertedInv(b, o) && (o < |b.original| ==> CellInv(b, o, x))
  }

  ghost predicate InvBut(b: Buffer, x: int) {
    b.Valid() && forall o :: 0 <= o <= |b.original| ==> OffsetInv(b, o, x)
  }

  ghost predicate BufferInv(b: Buffer) {
    InvBut(b, -1)
  }

  lemma FreshInv(original: string, path: string)
    ensures BufferInv(Fresh(original, path))
  {
  }

  // ----- text and markers side by side

  lemma NoiseStays(s: seq<Sym>, t: seq<Sym>)
    ensures !Quiet(s) || !Quiet(t) ==> !Quiet(s + t)
  {
    if i :| 0 <= i < |s| && !(s[i].Ch? && s[i] != NL) {
      assert (s + t)[i] == s[i];
    }
    if i :| 0 <= i < |t| && !(t[i].Ch? && t[i] != NL) {
      assert (s + t)[|s| + i] == t[i];
    }
  }

  lemma PinStaysBefore(s: seq<Sym>, t: seq<Sym>, line: nat, file: string)
    requires EndsPinned(s, line, file) && Quiet(t)
    ensures EndsPinned(s + t, line, file)
  {
    var i :| 0 <= i < |s| - 1 && s[i] == Mark(line, file) && s[i + 1] == NL && Quiet(s[i + 2..]);
    assert (s + t)[i + 2..] == s[i + 2..] + t;
    assert (s + t)[i] == s[i] && (s + t)[i + 1] == NL;
  }

  lemma PinStaysBehind(s: seq<Sym>, t: seq<Sym>, line: nat, file: string)
    requires EndsPinned(t, line, file)
    ensures EndsPinned(s + t, line, file)
  {
    var i :| 0 <= i < |t| - 1 && t[i] == Mark(line, file) && t[i + 1] == NL && Quiet(t[i + 2..]);
    var k := |s| + i;
    assert (s + t)[k] == t[i] && (s + t)[k + 1] == NL && (s + t)[k + 2..] == t[i + 2..];
  }

  lemma MarkerPins(b: Buffer, s: seq<Sym>, e: Edit)
    requires InFile(b, e) && Anchor(b, e) >= 0
    ensures EndsPinned(s + ResnapMarker(b, e), LineOf(b.original, Anchor(b, e)), b.path)
    ensures !Quiet(s + ResnapMarker(b, e))
  {
    var t := s + ResnapMarker(b, e);
    var i := |t| - 2;
    assert t[i] == Mark(LineOf(b.original, Anchor(b, e)), b.path) && t[i + 1] == NL;
    assert t[i + 2..] == [];
  }

  /** `s` with `t` put on one side of it. */
  function Beside(s: seq<Sym>, t: seq<Sym>, before: bool): seq<Sym> {
    if before then t + s else s + t
  }

  lemma QuietBeside(s: seq<Sym>, t: seq<Sym>, before: bool, line: nat, file: string)
    requires Quiet(t)
    ensures Quiet(s) ==> Quiet(Beside(s, t, before))
    ensures EndsPinned(s, line, file) ==> EndsPinned(Beside(s, t, before), line, file)
  {
    if EndsPinned(s, line, file) {
      if before {
        PinStaysBehind(t, s, line, file);
      } else {
        PinStaysBefore(s, t, line, file);
      }
    }
  }

  // ----- something put at one offset

  /** Putting something at one offset keeps every other offset as it was, and no excuse is lost. */
  lemma PutKeepsExcuses(b: Buffer, at: nat, s: seq<Sym>, o: nat)
    requires b.Valid() && at <= |b.original| && o <= |b.original| && Excused(b, o)
    requires !Quiet(b.ins[at]) ==> !Quiet(s)
    ensures Excused(Put(b, at, s), o)
  {
  }

  lemma PutKeepsInserted(b: Buffer, at: nat, s: seq<Sym>, o: nat)
    requires b.Valid() && at <= |b.original| && o <= |b.original| && InsertedInv(b, o) && o != at
    requires !Quiet(b.ins[at]) ==> !Quiet(s)
    ensures InsertedInv(Put(b, at, s), o)
  {
    if Excused(b, o) {
      PutKeepsExcuses(b, at, s, o);
    }
  }

  lemma PutKeepsCounts(b: Buffer, at: nat, s: seq<Sym>, text: string, o: nat, end: nat)
    requires b.Valid() && at <= |b.original| && o <= end <= |b.original| && Counts(b, text, o, end)
    requires !Quiet(b.ins[at]) ==> !Quiet(s)
    ensures Counts(Put(b, at, s), text, o, end)
  {
    if Excused(b, end) {
      PutKeepsExcuses(b, at, s, end);
    }
  }

  lemma PutKeepsRange(b: Buffer, at: nat, s: seq<Sym>, o: nat)
    requires b.Valid() && at <= |b.original| && (at < |b.original| ==> !b.cells[at].Gone?)
    requires o < |b.original| && b.cells[o].Replaced? && RangeInv(b, o)
    ensures RangeInv(Put(b, at, s), o)
  {
  }

  lemma PutKeepsGone(b: Buffer, at: nat, s: seq<Sym>, o: nat)
    requires b.Valid() && at <= |b.original| && o < |b.original| && b.cells[o].Gone? && GoneInv(b, o)
    ensures GoneInv(Put(b, at, s), o)
  {
    var start: nat :| Spans(b, start, o);
    assert Spans(Put(b, at, s), start, o);
  }

  lemma PutKeepsReplaced(b: Buffer, at: nat, s: seq<Sym>, o: nat)
    requires b.Valid() && at <= |b.original| && (at < |b.original| ==> !b.cells[at].Gone?)
    requires o < |b.original| && b.cells[o].Replaced? && ReplacedInv(b, o)
    requires !Quiet(b.ins[at]) ==> !Quiet(s)
    ensures ReplacedInv(Put(b, at, s), o)
  {
    PutKeepsRange(b, at, s, o);
    PutKeepsCounts(b, at, s, b.cells[o].text, o, o + b.cells[o].length);
  }

  lemma PutKeepsCell(b: Buffer, at: nat, s: seq<Sym>, o: nat, x: int)
    requires b.Valid() && at <= |b.original| && (at < |b.original| ==> !b.cells[at].Gone?)
    requires o < |b.original| && CellInv(b, o, x) && (!Quiet(b.ins[at]) ==> !Quiet(s))
    ensures CellInv(Put(b, at, s), o, x)
  {
    match b.cells[o]
    case Keep =>
    case Replaced(_, _) =>
      PutKeepsRange(b, at, s, o);
      if o != x {
        PutKeepsReplaced(b, at, s, o);
      }
    case Gone => PutKeepsGone(b, at, s, o);
  }

  /** What leaves its own offset in order leaves the whole buffer in order. */
  lemma PutKeepsInv(b: Buffer, at: nat, s: seq<Sym>, x: int)
    requires InvBut(b, x) && at <= |b.original| && (at < |b.original| ==> !b.cells[at].Gone?)
    requires !Quiet(b.ins[at]) ==> !Quiet(s)
    requires InsertedInv(Put(b, at, s), at)
    ensures InvBut(Put(b, at, s), x)
  {
    var r := Put(b, at, s);
    forall o | 0 <= o <= |b.original|
      ensures OffsetInv(r, o, x)
    {
      assert OffsetInv(b, o, x);
      if o != at {
        PutKeepsInserted(b, at, s, o);
      }
      if o < |b.original| {
        PutKeepsCell(b, at, s, o, x);
      }
    }
  }

  // ----- a replaced range cut in two, with a marker between

  lemma CutCells(b: Buffer, a: nat)
    requires b.Valid() && Cuttable(b, a)
    ensures var c, r := b.cells[a - 1], Cut(b, a);
            && r.cells[a - 1] == Replaced(CutHead(c), 1) && r.cells[a] == Replaced(CutTail(c), c.length - 1)
            && forall o :: 0 <= o < |b.original| && o != a - 1 && o != a ==> r.cells[o] == b.cells[o]
  {
  }

  lemma CutKeepsRange(b: Buffer, a: nat, s: seq<Sym>, o: nat)
    requires InvBut(b, -1) && Cuttable(b, a) && o < |b.original| && Cut(b, a).cells[o].Replaced?
    ensures RangeInv(Put(Cut(b, a), a, s), o)
  {
    CutCells(b, a);
    var r := Put(Cut(b, a), a, s);
    assert OffsetInv(b, a - 1, -1);
    if o != a - 1 && o != a {
      assert OffsetInv(b, o, -1);
      assert o < a - 1 ==> o + b.cells[o].length <= a - 1;
      forall i | o < i < o + b.cells[o].length
        ensures r.cells[i].Gone? && r.ins[i] == []
      {
        assert b.cells[i].Gone?;
      }
    }
  }

  lemma SameCounts(b: Buffer, b': Buffer, text: string, o: nat, end: nat)
    requires b.Valid() && b'.Valid() && b.original == b'.original && b.ins == b'.ins && o <= end <= |b.original|
    ensures Counts(b', text, o, end) == Counts(b, text, o, end)
  {
  }

  lemma IsReplaced(r: Buffer, o: nat, text: string, end: nat)
    requires r.Valid() && o < end <= |r.original| && r.cells[o] == Replaced(text, end - o) && RangeInv(r, o)
    requires Counts(r, text, o, end)
    ensures ReplacedInv(r, o)
  {
  }

  /** Behind the cut: the count of the tail. */
  lemma CutTailReplaced(b: Buffer, a: nat, s: seq<Sym>)
    requires b.Valid() && Cuttable(b, a) && TailCounts(b, a) && !Quiet(s)
    requires Cut(b, a).cells[a].Replaced? && RangeInv(Put(Cut(b, a), a, s), a)
    ensures ReplacedInv(Put(Cut(b, a), a, s), a)
  {
    var c, b' := b.cells[a - 1], Cut(b, a);
    CutCells(b, a);
    var tail, end := CutTail(c), a - 1 + c.length;
    SameCounts(b, b', tail, a, end);
    PutKeepsCounts(b', a, s, tail, a, end);
    IsReplaced(Put(b', a, s), a, tail, end);
  }

  /** Where a marker now stands, the count before it does not matter. */
  lemma CutHeadReplaced(b: Buffer, a: nat, s: seq<Sym>)
    requires b.Valid() && Cuttable(b, a) && !Quiet(s)
    requires Cut(b, a).cells[a - 1].Replaced? && RangeInv(Put(Cut(b, a), a, s), a - 1)
    ensures ReplacedInv(Put(Cut(b, a), a, s), a - 1)
  {
    CutCells(b, a);
    IsReplaced(Put(Cut(b, a), a, s), a - 1, CutHead(b.cells[a - 1]), a);
  }

  lemma CutOtherReplaced(b: Buffer, a: nat, s: seq<Sym>, o: nat)
    requires b.Valid() && Cuttable(b, a) && !Quiet(s)
    requires o < |b.original| && o != a - 1 && o != a && b.cells[o].Replaced? && ReplacedInv(b, o)
    requires Cut(b, a).cells[o] == b.cells[o] && RangeInv(Put(Cut(b, a), a, s), o)
    ensures ReplacedInv(Put(Cut(b, a), a, s), o)
  {
    var c, b' := b.cells[o], Cut(b, a);
    SameCounts(b, b', c.text, o, o + c.length);
    PutKeepsCounts(b', a, s, c.text, o, o + c.length);
    IsReplaced(Put(b', a, s), o, c.text, o + c.length);
  }

  lemma CutKeepsReplaced(b: Buffer, a: nat, s: seq<Sym>, o: nat)
    requires InvBut(b, -1) && Cuttable(b, a) && o < |b.original| && Cut(b, a).cells[o].Replaced? && !Quiet(s)
    requires o == a ==> TailCounts(b, a)
    ensures ReplacedInv(Put(Cut(b, a), a, s), o)
  {
    CutKeepsRange(b, a, s, o);
    if o == a {
      CutTailReplaced(b, a, s);
    } else if o == a - 1 {
      CutHeadReplaced(b, a, s);
    } else {
      CutCells(b, a);
      assert OffsetInv(b, o, -1);
      CutOtherReplaced(b, a, s, o);
    }
  }

  lemma CutKeepsInserted(b: Buffer, a: nat, s: seq<Sym>, o: nat)
    requires InvBut(b, -1) && Cuttable(b, a) && o <= |b.original| && o != a && !Quiet(s)
    ensures InsertedInv(Put(Cut(b, a), a, s), o)
  {
    assert OffsetInv(b, o, -1);
    assert InsertedInv(Cut(b, a), o);
    PutKeepsInserted(Cut(b, a), a, s, o);
  }

  lemma CutKeepsGone(b: Buffer, a: nat, s: seq<Sym>, o: nat)
    requires InvBut(b, -1) && Cuttable(b, a) && o < |b.original| && Cut(b, a).cells[o].Gone?
    ensures GoneInv(Put(Cut(b, a), a, s), o)
  {
    CutCells(b, a);
    var r := Put(Cut(b, a), a, s);
    assert OffsetInv(b, o, -1);
    var start: nat :| Spans(b, start, o);
    if start == a - 1 {
      assert Spans(r, a, o);
    } else {
      assert b.cells[start].Replaced?;
      assert Spans(r, start, o);
    }
  }

  lemma CutKeepsCell(b: Buffer, a: nat, s: seq<Sym>, o: nat)
    requires InvBut(b, -1) && Cuttable(b, a) && o < |b.original| && !Quiet(s)
    ensures CellInv(Put(Cut(b, a), a, s), o, if TailCounts(b, a) then -1 else a)
  {
    match Cut(b, a).cells[o]
    case Keep =>
    case Replaced(_, _) =>
      CutKeepsRange(b, a, s, o);
      if o != a || TailCounts(b, a) {
        CutKeepsReplaced(b, a, s, o);
      }
    case Gone => CutKeepsGone(b, a, s, o);
  }

  lemma CutKeepsInv(b: Buffer, a: nat, s: seq<Sym>)
    requires BufferInv(b) && Cuttable(b, a) && !Quiet(s) && EndsPinned(s, LineOf(b.original, a), b.path)
    ensures InvBut(Put(Cut(b, a), a, s), if TailCounts(b, a) then -1 else a)
  {
    var r, x := Put(Cut(b, a), a, s), if TailCounts(b, a) then -1 else a;
    forall o | 0 <= o <= |b.original|
      ensures OffsetInv(r, o, x)
    {
      if o != a {
        CutKeepsInserted(b, a, s, o);
      }
      if o < |b.original| {
        CutKeepsCell(b, a, s, o);
      }
    }
  }

  // ----- the marker of an edit

  /** The replaced text that the edit leaves without its count, if any. */
  ghost function Spoilt(b: Buffer, e: Edit): int
    requires b.Valid() && Editable(b, e)
  {
    if Swallowed(b, e) && !TailCounts(b, Anchor(b, e)) then Anchor(b, e) else -1
  }

  ghost function Marked(b: Buffer, e: Edit): (r: Buffer)
    requires b.Valid() && InFile(b, e) && Anchor(b, e) >= 0
    ensures r.Valid() && r.original == b.original && r.path == b.path
  {
    Insert(Cut(b, Anchor(b, e)), Anchor(b, e), ResnapMarker(b, e), false)
  }

  lemma MarkerKeepsInv(b: Buffer, e: Edit)
    requires BufferInv(b) && Editable(b, e) && Anchor(b, e) >= 0
    ensures InvBut(Marked(b, e), Spoilt(b, e)) && !Quiet(Marked(b, e).ins[Anchor(b, e)])
  {
    var a := Anchor(b, e);
    var s := b.ins[a] + ResnapMarker(b, e);
    MarkerPins(b, b.ins[a], e);
    if Swallowed(b, e) {
      CutKeepsInv(b, a, s);
    } else {
      assert Cut(b, a) == b;
      PutKeepsInv(b, a, s, -1);
    }
  }

  lemma {:induction false} NewlinesOfQuiet(s: seq<Sym>)
    ensures Quiet(s) ==> Newlines(s) == 0
    ensures Newlines(s) == 0 && Plain(s) ==> Quiet(s)
  {
    if s != [] {
      NewlinesOfQuiet(s[..|s| - 1]);
    }
  }

  lemma LeadHasNewlines(b: Buffer, begin: nat, text: string)
    requires begin <= |b.original|
    ensures if '\n' in text then Newlines(SyntheticLead(b, begin, text)) > 0 && !Quiet(SyntheticLead(b, begin, text))
            else Quiet(SyntheticLead(b, begin, text)) && Newlines(SyntheticLead(b, begin, text)) == 0
  {
    var s := SyntheticLead(b, begin, text);
    if '\n' in text {
      assert s[0] == NL && s[1].Mark?;
      NewlinesConcat([NL], s[1..]);
      assert [NL] + s[1..] == s;
      assert Newlines([NL]) == 1;
    } else {
      NewlinesOfQuiet(s);
    }
  }

  // ----- insertions

  lemma QuietInsertionKeepsInv(b: Buffer, at: nat, t: seq<Sym>, before: bool)
    requires BufferInv(b) && at <= |b.original| && (at < |b.original| ==> !b.cells[at].Gone?) && Quiet(t)
    ensures BufferInv(Insert(b, at, t, before))
  {
    assert OffsetInv(b, at, -1);
    var s := Beside(b.ins[at], t, before);
    QuietBeside(b.ins[at], t, before, LineOf(b.original, at), b.path);
    NoiseStays(b.ins[at], t);
    NoiseStays(t, b.ins[at]);
    if Excused(b, at) {
      PutKeepsExcuses(b, at, s, at);
    }
    PutKeepsInv(b, at, s, -1);
  }

  /** Anything may be inserted where nothing depends on the line number. */
  lemma ExcusedInsertionKeepsInv(b: Buffer, at: nat, t: seq<Sym>, before: bool, x: int)
    requires InvBut(b, x) && at <= |b.original| && (at < |b.original| ==> !b.cells[at].Gone?) && Excused(b, at)
    ensures InvBut(Insert(b, at, t, before), x)
  {
    var s := Beside(b.ins[at], t, before);
    NoiseStays(b.ins[at], t);
    NoiseStays(t, b.ins[at]);
    PutKeepsExcuses(b, at, s, at);
    PutKeepsInv(b, at, s, x);
  }

  /** Text with its marker right behind it. */
  lemma MarkedInsertionKeepsInv(b: Buffer, e: Edit)
    requires BufferInv(b) && Editable(b, e) && e.length == 0 && Anchor(b, e) == e.begin
    ensures BufferInv(Applied(b, e))
  {
    var a := e.begin;
    var s := Beside(b.ins[a], Composed(b, e), e.before);
    MarkerPins(b, s, e);
    assert !Cuttable(WithText(b, e), a);
    assert Applied(b, e) == Put(b, a, s + ResnapMarker(b, e));
    PutKeepsInv(b, a, s + ResnapMarker(b, e), -1);
  }

  lemma PutsCommute(b: Buffer, i: nat, s: seq<Sym>, j: nat, t: seq<Sym>)
    requires b.Valid() && i <= |b.original| && j <= |b.original| && i != j
    ensures Put(Put(b, i, s), j, t) == Put(Put(b, j, t), i, s)
  {
    assert Put(Put(b, i, s), j, t).ins == Put(Put(b, j, t), i, s).ins;
  }

  lemma CutBesidePut(b: Buffer, i: nat, s: seq<Sym>, a: nat)
    requires b.Valid() && i <= |b.original|
    ensures Cut(Put(b, i, s), a) == Put(Cut(b, a), i, s)
  {
  }

  /** The text of an insertion and a marker at another offset do not get in each other's way. */
  lemma InsertionCommutes(b: Buffer, e: Edit)
    requires b.Valid() && InFile(b, e) && e.length == 0 && Anchor(b, e) >= 0 && Anchor(b, e) != e.begin
    ensures Applied(b, e) == Insert(Marked(b, e), e.begin, Composed(b, e), e.before)
  {
    var a, s := Anchor(b, e), Beside(b.ins[e.begin], Composed(b, e), e.before);
    CutBesidePut(b, e.begin, s, a);
    PutsCommute(Cut(b, a), e.begin, s, a, b.ins[a] + ResnapMarker(b, e));
  }

  lemma SplitInsertionKeepsInv(b: Buffer, e: Edit)
    requires BufferInv(b) && Editable(b, e) && e.length == 0 && Anchor(b, e) >= 0 && Anchor(b, e) != e.begin
    ensures InvBut(Applied(b, e), Spoilt(b, e))
  {
    var m := Marked(b, e);
    MarkerKeepsInv(b, e);
    InsertionCommutes(b, e);
    assert Excused(m, e.begin);
    CutKeepsPlace(b, e);
    ExcusedInsertionKeepsInv(m, e.begin, Composed(b, e), e.before, Spoilt(b, e));
  }

  lemma CutKeepsPlace(b: Buffer, e: Edit)
    requires b.Valid() && Editable(b, e) && Anchor(b, e) >= 0 && e.length == 0
    ensures e.begin < |b.original| ==> !Marked(b, e).cells[e.begin].Gone?
  {
  }

  lemma InsertionKeepsInv(b: Buffer, e: Edit)
    requires BufferInv(b) && Editable(b, e) && e.length == 0
    ensures InvBut(Applied(b, e), Spoilt(b, e))
  {
    LeadHasNewlines(b, e.begin, e.text);
    assert b.original[e.begin..e.begin + e.length] == "";
    if '\n' !in e.text {
      QuietInsertionKeepsInv(b, e.begin, Composed(b, e), e.before);
    } else if Anchor(b, e) < 0 {
      assert Excused(b, e.begin);
      ExcusedInsertionKeepsInv(b, e.begin, Composed(b, e), e.before, -1);
    } else if Anchor(b, e) == e.begin {
      MarkedInsertionKeepsInv(b, e);
    } else {
      SplitInsertionKeepsInv(b, e);
    }
  }

  // ----- replacements

  ghost predicate Kept(b: Buffer, begin: nat, length: nat)
    requires b.Valid() && begin + length <= |b.original|
  {
    forall i :: begin <= i < begin + length ==> b.cells[i].Keep?
  }

  /** The ranges replaced before are left alone by one that covers kept characters only. */
  lemma ReplaceKeepsOther(b: Buffer, begin: nat, length: nat, text: string, o: nat)
    requires b.Valid() && length > 0 && begin + length <= |b.original| && Kept(b, begin, length)
    requires o < |b.original| && b.cells[o].Replaced? && RangeInv(b, o)
    ensures var r := Replace(b, begin, length, text); r.cells[o] == b.cells[o] && RangeInv(r, o)
  {
    var r := Replace(b, begin, length, text);
    assert r.cells[o] == b.cells[o];
    forall i | o < i < o + b.cells[o].length
      ensures r.cells[i].Gone? && r.ins[i] == []
    {
      assert b.cells[i].Gone?;
    }
  }

  lemma ReplaceKeepsCounts(b: Buffer, begin: nat, length: nat, text: string, t: string, o: nat, end: nat)
    requires b.Valid() && length > 0 && begin + length <= |b.original| && o <= end <= |b.original|
    ensures Counts(Replace(b, begin, length, text), t, o, end) == Counts(b, t, o, end)
  {
  }

  lemma ReplaceAddsRange(b: Buffer, begin: nat, length: nat, text: string)
    requires b.Valid() && length > 0 && begin + length <= |b.original|
    requires forall o :: begin < o < begin + length ==> b.ins[o] == []
    ensures var r := Replace(b, begin, length, text); r.cells[begin] == Replaced(text, length) && RangeInv(r, begin)
  {
  }

  lemma ReplaceKeepsGone(b: Buffer, begin: nat, length: nat, text: string, o: nat)
    requires b.Valid() && length > 0 && begin + length <= |b.original| && Kept(b, begin, length)
    requires o < |b.original| && Replace(b, begin, length, text).cells[o].Gone? && (b.cells[o].Gone? ==> GoneInv(b, o))
    ensures GoneInv(Replace(b, begin, length, text), o)
  {
    var r := Replace(b, begin, length, text);
    if begin < o < begin + length {
      assert Spans(r, begin, o);
    } else {
      var start: nat :| Spans(b, start, o);
      assert r.cells[start] == b.cells[start];
      assert Spans(r, start, o);
    }
  }

  lemma ReplaceKeepsCell(b: Buffer, begin: nat, length: nat, text: string, o: nat, x: int)
    requires b.Valid() && length > 0 && begin + length <= |b.original| && Kept(b, begin, length)
    requires o < |b.original| && CellInv(b, o, x) && !(begin <= o < begin + length)
    ensures CellInv(Replace(b, begin, length, text), o, x)
  {
    match b.cells[o]
    case Keep =>
    case Replaced(t, n) =>
      ReplaceKeepsOther(b, begin, length, text, o);
      ReplaceKeepsCounts(b, begin, length, text, t, o, o + n);
    case Gone => ReplaceKeepsGone(b, begin, length, text, o);
  }

  lemma ReplaceMakesCell(b: Buffer, begin: nat, length: nat, text: string, o: nat, x: int)
    requires b.Valid() && length > 0 && begin + length <= |b.original| && Kept(b, begin, length)
    requires forall i :: begin < i < begin + length ==> b.ins[i] == []
    requires Counts(b, text, begin, begin + length) && begin <= o < begin + length
    ensures CellInv(Replace(b, begin, length, text), o, x)
  {
    if o == begin {
      ReplaceAddsRange(b, begin, length, text);
      ReplaceKeepsCounts(b, begin, length, text, text, begin, begin + length);
    } else {
      ReplaceKeepsGone(b, begin, length, text, o);
    }
  }

  lemma ReplaceKeepsInv(b: Buffer, begin: nat, length: nat, text: string, x: int, r: Buffer)
    requires InvBut(b, x) && length > 0 && begin + length <= |b.original| && Kept(b, begin, length)
    requires forall o :: begin < o < begin + length ==> b.ins[o] == []
    requires Counts(b, text, begin, begin + length) && r == Replace(b, begin, length, text)
    ensures InvBut(r, x)
  {
    forall o | 0 <= o <= |b.original|
      ensures OffsetInv(r, o, x)
    {
      assert OffsetInv(b, o, x);
      if begin <= o < begin + length {
        ReplaceMakesCell(b, begin, length, text, o, x);
      } else if o < |b.original| {
        ReplaceKeepsCell(b, begin, length, text, o, x);
      }
    }
  }

  lemma ReplaceLeaves(b: Buffer, begin: nat, length: nat, text: string, o: nat)
    requires b.Valid() && length > 0 && begin + length <= |b.original| && o < |b.original|
    ensures !(begin <= o < begin + length) ==> Replace(b, begin, length, text).cells[o] == b.cells[o]
    ensures begin <= o < begin + length ==>
              Replace(b, begin, length, text).cells[o] == if o == begin then Replaced(text, length) else Gone
  {
  }

  lemma SameBuffer(b: Buffer, b': Buffer)
    requires b.original == b'.original && b.path == b'.path && b.ins == b'.ins && |b.cells| == |b'.cells|
    requires forall o :: 0 <= o < |b.cells| ==> b.cells[o] == b'.cells[o]
    ensures b == b'
  {
    assert b.cells == b'.cells;
  }

  /** Cutting a replaced range and replacing another one do not get in each other's way. */
  lemma CutBesideReplace(b: Buffer, begin: nat, length: nat, text: string, a: nat)
    requires b.Valid() && length > 0 && begin + length <= a < |b.original| && Kept(b, begin, length)
    requires b.cells[a].Gone? ==> Cuttable(b, a)
    ensures Cut(Replace(b, begin, length, text), a) == Replace(Cut(b, a), begin, length, text)
    ensures Kept(Cut(b, a), begin, length)
  {
    ReplaceLeaves(b, begin, length, text, a);
    if Cuttable(b, a) {
      CutThenReplace(b, begin, length, text, a);
    }
  }

  lemma CutThenReplace(b: Buffer, begin: nat, length: nat, text: string, a: nat)
    requires b.Valid() && length > 0 && begin + length < a < |b.original| && Kept(b, begin, length) && Cuttable(b, a)
    ensures Cut(Replace(b, begin, length, text), a) == Replace(Cut(b, a), begin, length, text)
    ensures Kept(Cut(b, a), begin, length)
  {
    var l, r := Cut(Replace(b, begin, length, text), a), Replace(Cut(b, a), begin, length, text);
    ReplaceLeaves(b, begin, length, text, a);
    ReplaceLeaves(b, begin, length, text, a - 1);
    CutCells(b, a);
    CutCells(Replace(b, begin, length, text), a);
    forall o | 0 <= o < |b.original|
      ensures l.cells[o] == r.cells[o]
    {
      ReplaceLeaves(b, begin, length, text, o);
      ReplaceLeaves(Cut(b, a), begin, length, text, o);
    }
    SameBuffer(l, r);
  }

  /** Nor do the text of a replacement and its marker. */
  lemma ReplacementCommutes(b: Buffer, e: Edit)
    requires b.Valid() && Editable(b, e) && e.length > 0 && Anchor(b, e) >= 0
    ensures Kept(Marked(b, e), e.begin, e.length)
    ensures forall o :: e.begin < o < e.begin + e.length ==> Marked(b, e).ins[o] == []
    ensures Applied(b, e) == Replace(Marked(b, e), e.begin, e.length, e.text)
  {
    CutBesideReplace(b, e.begin, e.length, e.text, Anchor(b, e));
  }

  lemma UnmarkedCounts(b: Buffer, e: Edit)
    requires b.Valid() && InFile(b, e) && e.length > 0 && Anchor(b, e) < 0
    ensures Counts(b, e.text, e.begin, e.begin + e.length)
  {
    NewlinesOfLift(e.text);
  }

  lemma MarkedCounts(b: Buffer, e: Edit)
    requires b.Valid() && InFile(b, e) && Anchor(b, e) >= 0 && !Quiet(Marked(b, e).ins[Anchor(b, e)])
    ensures Counts(Marked(b, e), e.text, e.begin, e.begin + e.length)
  {
    var end := e.begin + e.length;
    if Anchor(b, e) != end {
      assert Anchor(b, e) == end + 1 && b.original[end] == '\n';
      assert Excused(Marked(b, e), end);
    }
  }

  /** The buffer takes the text of a replacement. */
  ghost predicate Takes(m: Buffer, e: Edit) {
    && m.Valid() && InFile(m, e) && e.length > 0 && Kept(m, e.begin, e.length)
    && (forall o :: e.begin < o < e.begin + e.length ==> m.ins[o] == [])
    && Counts(m, e.text, e.begin, e.begin + e.length)
  }

  lemma TextKeepsInv(m: Buffer, e: Edit, x: int, r: Buffer)
    requires Takes(m, e) && InvBut(m, x) && r == Replace(m, e.begin, e.length, e.text)
    ensures InvBut(r, x)
  {
    ReplaceKeepsInv(m, e.begin, e.length, e.text, x, r);
  }

  lemma UnmarkedTakes(b: Buffer, e: Edit)
    requires b.Valid() && Editable(b, e) && e.length > 0 && Anchor(b, e) < 0
    ensures Takes(b, e)
  {
    UnmarkedCounts(b, e);
  }

  lemma MarkedTakes(b: Buffer, e: Edit)
    requires b.Valid() && Editable(b, e) && e.length > 0 && Anchor(b, e) >= 0
    requires !Quiet(Marked(b, e).ins[Anchor(b, e)])
    ensures Takes(Marked(b, e), e)
  {
    MarkedCounts(b, e);
    ReplacementCommutes(b, e);
  }

  lemma ReplacementKeepsInv(b: Buffer, e: Edit)
    requires BufferInv(b) && Editable(b, e) && e.length > 0
    ensures InvBut(Applied(b, e), Spoilt(b, e))
  {
    if Anchor(b, e) < 0 {
      UnmarkedTakes(b, e);
      TextKeepsInv(b, e, -1, Applied(b, e));
    } else {
      MarkerKeepsInv(b, e);
      MarkedTakes(b, e);
      ReplacementCommutes(b, e);
      TextKeepsInv(Marked(b, e), e, Spoilt(b, e), Applied(b, e));
    }
  }

  // ----- any edits

  /** An edit leaves everything in order, except for the replaced text that its marker comes to lie in. */
  lemma EditKeepsRest(b: Buffer, e: Edit)
    requires BufferInv(b) && Editable(b, e)
    ensures InvBut(Applied(b, e), Spoilt(b, e))
  {
    if e.length == 0 {
      InsertionKeepsInv(b, e);
    } else {
      ReplacementKeepsInv(b, e);
    }
  }

  lemma EditKeepsInv(b: Buffer, e: Edit)
    requires BufferInv(b) && Admissible(b, e)
    ensures BufferInv(Applied(b, e))
  {
    EditKeepsRest(b, e);
  }

  lemma {:induction false} EditsKeepInv(b: Buffer, edits: seq<Edit>)
    requires BufferInv(b) && AllAdmissible(b, edits)
    ensures BufferInv(AppliedAll(b, edits))
    decreases |edits|
  {
    if edits != [] {
      EditKeepsInv(b, edits[0]);
      EditsKeepInv(Applied(b, edits[0]), edits[1..]);
    }
  }
}
