/** Edits of the expanded tokens of one macro invocation. */
module MacroSplice {
  import opened Wrappers

  /** `loc` is the token's place in translation-unit order. */
  datatype Token = Token(loc: int, text: string)

  /** The tokens with an edit slot before each one and one after the last; `dropped` are the indices replaced. */
  datatype Splice = Splice(tokens: seq<Token>, slots: seq<string>, dropped: set<nat>) {
    /** Token locations are distinct and in order. */
    ghost predicate Valid() {
      && |slots| == |tokens| + 1
      && (forall i, j :: 0 <= i < j < |tokens| ==> tokens[i].loc < tokens[j].loc)
      && (forall i :: i in dropped ==> i < |tokens|)
    }
  }

  datatype Edit =
    | InsertBefore(loc: int, text: string)
    | InsertAfter(loc: int, text: string)
    | Replace(begin: int, end: int, text: string)
    | DropTokens(first: nat, last: nat, text: string)

  // ----- what an anchor denotes

  ghost predicate FirstAtOrAfter(tokens: seq<Token>, loc: int, i: nat) {
    && i < |tokens| && loc <= tokens[i].loc
    && forall j :: 0 <= j < i ==> tokens[j].loc < loc
  }

  ghost predicate LastAtOrBefore(tokens: seq<Token>, loc: int, i: nat) {
    && i < |tokens| && tokens[i].loc <= loc
    && forall j :: i < j < |tokens| ==> loc < tokens[j].loc
  }

  /** Neither before the first recorded token nor past the last one. */
  predicate Inside(tokens: seq<Token>, loc: int) {
    tokens != [] && tokens[0].loc <= loc <= tokens[|tokens| - 1].loc
  }

  /** The lower bound of `loc` by binary search. */
  method IndexAtOrAfter(s: Splice, loc: int) returns (r: Option<nat>)
    requires s.Valid()
    ensures r.Some? <==> Inside(s.tokens, loc)
    ensures r.Some? ==> FirstAtOrAfter(s.tokens, loc, r.value)
  {
    if s.tokens == [] || loc < s.tokens[0].loc {
      return None;
    }
    var lo, hi := 0, |s.tokens|;
    while lo < hi
      invariant 0 <= lo <= hi <= |s.tokens|
      invariant forall j :: 0 <= j < lo ==> s.tokens[j].loc < loc
      invariant forall j :: hi <= j < |s.tokens| ==> loc <= s.tokens[j].loc
    {
      var mid := (lo + hi) / 2;
      if s.tokens[mid].loc < loc {
        lo := mid + 1;
      } else {
        hi := mid;
      }
    }
    if lo == |s.tokens| {
      return None;
    }
    return Some(lo);
  }

  method IndexAtOrBefore(s: Splice, loc: int) returns (r: Option<nat>)
    requires s.Valid()
    ensures r.Some? <==> Inside(s.tokens, loc)
    ensures r.Some? ==> LastAtOrBefore(s.tokens, loc, r.value)
  {
    var after := IndexAtOrAfter(s, loc);
    if after.None? {
      return None;
    }
    if s.tokens[after.value].loc == loc {
      return after;
    }
    if after.value == 0 {
      return None;
    }
    return Some(after.value - 1);
  }

  // ----- edits

  /** `text` joined to what a slot holds already. */
  function Appended(piece: string, text: string): string {
    if piece != "" && piece[|piece| - 1] != '\n' then piece + " " + text else piece + text
  }

  function AppendedAt(s: Splice, slot: nat, text: string): (r: Splice)
    requires s.Valid() && slot <= |s.tokens|
    ensures r.Valid()
  {
    s.(slots := s.slots[slot := Appended(s.slots[slot], text)])
  }

  function Range(first: nat, last: nat): (r: set<nat>)
    ensures forall i :: i in r <==> first <= i <= last
  {
    if first > last then {} else if last == 0 then {0} else Range(first, last - 1) + {last}
  }

  function DroppedRange(s: Splice, first: nat, last: nat, text: string): (r: Splice)
    requires s.Valid() && first <= last < |s.tokens|
    ensures r.Valid()
  {
    AppendedAt(s.(dropped := s.dropped + Range(first, last)), first, text)
  }

  ghost predicate CanDrop(s: Splice, first: nat, last: nat) {
    first <= last < |s.tokens| && Range(first, last) !! s.dropped
  }

  /** The tokens an edit replaces, if it may be made. */
  ghost predicate Replaces(s: Splice, e: Edit, first: nat, last: nat) {
    match e
    case Replace(begin, end, _) =>
      && Inside(s.tokens, begin) && Inside(s.tokens, end)
      && FirstAtOrAfter(s.tokens, begin, first) && LastAtOrBefore(s.tokens, end, last)
      && CanDrop(s, first, last)
    case DropTokens(f, l, _) => f == first && l == last && CanDrop(s, first, last)
    case _ => false
  }

  /** `s'` is what edit `e` makes of `s`. */
  ghost predicate Step(s: Splice, e: Edit, s': Splice)
    requires s.Valid()
  {
    match e
    case InsertBefore(loc, text) =>
      Inside(s.tokens, loc) && exists at: nat :: FirstAtOrAfter(s.tokens, loc, at) && s' == AppendedAt(s, at, text)
    case InsertAfter(loc, text) =>
      Inside(s.tokens, loc) && exists at: nat :: LastAtOrBefore(s.tokens, loc, at) && s' == AppendedAt(s, at + 1, text)
    case Replace(_, _, text) =>
      exists first, last :: Replaces(s, e, first, last) && s' == DroppedRange(s, first, last, text)
    case DropTokens(_, _, text) =>
      exists first, last :: Replaces(s, e, first, last) && s' == DroppedRange(s, first, last, text)
  }

  ghost predicate Accepts(s: Splice, e: Edit)
    requires s.Valid()
  {
    exists s' :: Step(s, e, s')
  }

  // ----- rendering

  function SlotPiece(piece: string): string {
    if piece == "" || IsSpace(piece[|piece| - 1]) then piece else piece + " "
  }

  function KeptPiece(s: Splice, i: nat): string
    requires i < |s.tokens|
  {
    if i in s.dropped then "" else s.tokens[i].text + " "
  }

  /** The text of slot 0, then for every token its own text and that of the slot after it. */
  function Piece(s: Splice, i: nat): string
    requires |s.slots| == |s.tokens| + 1 && i <= |s.tokens|
  {
    if i == 0 then SlotPiece(s.slots[0]) else KeptPiece(s, i - 1) + SlotPiece(s.slots[i])
  }

  function Pieces(s: Splice): (p: seq<string>)
    requires |s.slots| == |s.tokens| + 1
    ensures |p| == |s.tokens| + 1
  {
    PiecesTo(s, |s.tokens| + 1)
  }

  function PiecesTo(s: Splice, n: nat): (p: seq<string>)
    requires |s.slots| == |s.tokens| + 1 && n <= |s.tokens| + 1
    ensures |p| == n
  {
    if n == 0 then [] else PiecesTo(s, n - 1) + [Piece(s, n - 1)]
  }

  lemma {:induction false} PieceAt(s: Splice, n: nat, i: nat)
    requires |s.slots| == |s.tokens| + 1 && i < n <= |s.tokens| + 1
    ensures PiecesTo(s, n)[i] == Piece(s, i)
  {
    if i < n - 1 {
      PieceAt(s, n - 1, i);
    }
  }

  function Joined<T>(pieces: seq<seq<T>>, n: nat): seq<T>
    requires n <= |pieces|
  {
    if n == 0 then [] else Joined(pieces, n - 1) + pieces[n - 1]
  }

  method JoinPieces(pieces: seq<string>) returns (out: string)
    ensures out == Joined(pieces, |pieces|)
  {
    out := "";
    for i := 0 to |pieces|
      invariant out == Joined(pieces, i)
    {
      out := out + pieces[i];
    }
  }

  function Rendered(s: Splice): string
    requires |s.slots| == |s.tokens| + 1
  {
    Trimmed(Joined(Pieces(s), |s.tokens| + 1))
  }

  function Trimmed(out: string): string {
    if out != "" && out[|out| - 1] == ' ' then Trimmed(out[..|out| - 1]) else out
  }

  method TrimTrailing(text: string) returns (out: string)
    ensures out == Trimmed(text)
  {
    out := text;
    while out != "" && out[|out| - 1] == ' '
      invariant Trimmed(out) == Trimmed(text)
      decreases |out|
    {
      out := out[..|out| - 1];
    }
  }

  predicate IsSpace(c: char) {
    c == ' ' || c == '\n'
  }

  class ExpansionSplice {
    const tokens: seq<Token>
    var slots: seq<string>
    var dropped: set<nat>
    var edited: bool

    constructor (tokens: seq<Token>)
      requires forall i, j :: 0 <= i < j < |tokens| ==> tokens[i].loc < tokens[j].loc
      ensures View() == Splice(tokens, seq(|tokens| + 1, _ => ""), {}) && View().Valid() && !edited
    {
      this.tokens := tokens;
      slots, dropped, edited := seq(|tokens| + 1, _ => ""), {}, false;
    }

    function View(): Splice
      reads this
    {
      Splice(tokens, slots, dropped)
    }

    method Append(slot: nat, text: string)
      requires View().Valid() && slot <= |tokens|
      modifies `slots, `edited
      ensures View() == AppendedAt(old(View()), slot, text) && View().Valid() && edited
    {
      var piece := slots[slot];
      if piece != "" && piece[|piece| - 1] != '\n' {
        piece := piece + " ";
      }
      piece := piece + text;
      slots := slots[slot := piece];
      edited := true;
    }

    method Insert(before: bool, loc: int, text: string) returns (ok: bool)
      requires View().Valid()
      modifies `slots, `edited
      ensures var e := if before then InsertBefore(loc, text) else InsertAfter(loc, text);
              if ok then Step(old(View()), e, View()) else !Accepts(old(View()), e) && View() == old(View())
      ensures View().Valid() && edited == (old(edited) || ok)
    {
      if before {
        var at := IndexAtOrAfter(View(), loc);
        if at.None? {
          return false;
        }
        Append(at.value, text);
      } else {
        var at := IndexAtOrBefore(View(), loc);
        if at.None? {
          return false;
        }
        Append(at.value + 1, text);
      }
      return true;
    }

    method ReplaceRange(begin: int, end: int, text: string) returns (ok: bool)
      requires View().Valid()
      modifies `slots, `dropped, `edited
      ensures var e := Replace(begin, end, text);
              if ok then Step(old(View()), e, View()) else !Accepts(old(View()), e) && View() == old(View())
      ensures View().Valid() && edited == (old(edited) || ok)
    {
      var first := IndexAtOrAfter(View(), begin);
      var last := IndexAtOrBefore(View(), end);
      if first.None? || last.None? || first.value > last.value {
        NoRange(View(), Replace(begin, end, text));
        return false;
      }
      ok := Drop(first.value, last.value, text);
      if ok {
        assert Replaces(old(View()), Replace(begin, end, text), first.value, last.value);
      } else {
        RangeIsUnique(View(), Replace(begin, end, text), first.value, last.value);
      }
    }

    method Render() returns (out: string)
      requires View().Valid()
      ensures out == Rendered(View())
    {
      out := JoinPieces(Pieces(View()));
      out := TrimTrailing(out);
    }

    method Drop(first: nat, last: nat, text: string) returns (ok: bool)
      requires View().Valid()
      modifies `slots, `dropped, `edited
      ensures ok <==> CanDrop(old(View()), first, last)
      ensures View() == if ok then DroppedRange(old(View()), first, last, text) else old(View())
      ensures View().Valid() && edited == (old(edited) || ok)
    {
      if first > last || last >= |tokens| {
        return false;
      }
      for i := first to last + 1
        invariant forall j :: first <= j < i ==> j !in dropped
      {
        if i in dropped {
          assert i in Range(first, last);
          return false;
        }
      }
      dropped := dropped + Range(first, last);
      Append(first, text);
      return true;
    }
  }

  lemma AnchorsAreUnique(tokens: seq<Token>, loc: int, i: nat, j: nat)
    ensures FirstAtOrAfter(tokens, loc, i) && FirstAtOrAfter(tokens, loc, j) ==> i == j
    ensures LastAtOrBefore(tokens, loc, i) && LastAtOrBefore(tokens, loc, j) ==> i == j
  {
  }

  lemma RangeIsUnique(s: Splice, e: Edit, first: nat, last: nat)
    requires s.Valid() && e.Replace? && !CanDrop(s, first, last)
    requires FirstAtOrAfter(s.tokens, e.begin, first) && LastAtOrBefore(s.tokens, e.end, last)
    ensures !Accepts(s, e)
  {
    forall f: nat, l: nat
      ensures !Replaces(s, e, f, l)
    {
      AnchorsAreUnique(s.tokens, e.begin, first, f);
      AnchorsAreUnique(s.tokens, e.end, last, l);
    }
  }

  lemma NoRange(s: Splice, e: Edit)
    requires s.Valid() && e.Replace?
    requires !Inside(s.tokens, e.begin) || !Inside(s.tokens, e.end) ||
             exists f, l :: FirstAtOrAfter(s.tokens, e.begin, f) && LastAtOrBefore(s.tokens, e.end, l) && f > l
    ensures !Accepts(s, e)
  {
    if Inside(s.tokens, e.begin) && Inside(s.tokens, e.end) {
      var f, l :| FirstAtOrAfter(s.tokens, e.begin, f) && LastAtOrBefore(s.tokens, e.end, l) && f > l;
      RangeIsUnique(s, e, f, l);
    }
  }

  // ----- what is rendered, word by word

  /** The words that end in a text so far, and the word in progress. */
  datatype Scan = Scan(words: seq<string>, word: string) {
    function Finished(): seq<string> {
      if word == "" then words else words + [word]
    }

    function Next(c: char): Scan {
      if IsSpace(c) then Scan(Finished(), "") else Scan(words, word + [c])
    }
  }

  function ScanTo(text: string, n: nat): Scan
    requires n <= |text|
  {
    if n == 0 then Scan([], "") else ScanTo(text, n - 1).Next(text[n - 1])
  }

  /** The maximal runs of characters that are neither blank nor newline. */
  function Words(text: string): seq<string> {
    ScanTo(text, |text|).Finished()
  }

  predicate Closed(text: string) {
    text == "" || IsSpace(text[|text| - 1])
  }

  lemma {:induction false} ScanPrefix(a: string, b: string, n: nat)
    requires n <= |a| && n <= |b| && forall i :: 0 <= i < n ==> a[i] == b[i]
    ensures ScanTo(a, n) == ScanTo(b, n)
  {
    if n > 0 {
      ScanPrefix(a, b, n - 1);
    }
  }

  lemma {:induction false} ScanConcat(a: string, b: string, n: nat)
    requires Closed(a) && n <= |b|
    ensures ScanTo(a + b, |a| + n) == Scan(Words(a) + ScanTo(b, n).words, ScanTo(b, n).word)
  {
    if n == 0 {
      ScanPrefix(a, a + b, |a|);
    } else {
      ScanConcat(a, b, n - 1);
      assert (a + b)[|a| + n - 1] == b[n - 1];
    }
  }

  /** Text that ends in a blank or a newline never runs into what follows. */
  lemma WordsConcat(a: string, b: string)
    requires Closed(a)
    ensures Words(a + b) == Words(a) + Words(b)
  {
    ScanConcat(a, b, |b|);
  }

  lemma WordsIgnoreTrailing(a: string, c: char)
    requires IsSpace(c)
    ensures Words(a + [c]) == Words(a)
  {
    ScanPrefix(a, a + [c], |a|);
  }

  lemma {:induction false} WordsOfTrimmed(out: string)
    ensures Words(Trimmed(out)) == Words(out)
    decreases |out|
  {
    if out != "" && out[|out| - 1] == ' ' {
      WordsOfTrimmed(out[..|out| - 1]);
      assert out == out[..|out| - 1] + [' '];
      WordsIgnoreTrailing(out[..|out| - 1], ' ');
    }
  }

  /** Texts that share a slot keep their words, in order of arrival. */
  lemma WordsOfAppended(piece: string, text: string)
    ensures Words(Appended(piece, text)) == Words(piece) + Words(text)
  {
    if piece != "" && piece[|piece| - 1] != '\n' {
      WordsConcat(piece + " ", text);
      WordsIgnoreTrailing(piece, ' ');
    } else {
      WordsConcat(piece, text);
    }
  }

  /** The words that slots and kept tokens contribute, in place. */
  function WordsAt(s: Splice, i: nat): seq<string>
    requires |s.slots| == |s.tokens| + 1 && i <= |s.tokens|
  {
    if i == 0 then Words(s.slots[0])
    else (if i - 1 in s.dropped then [] else Words(s.tokens[i - 1].text)) + Words(s.slots[i])
  }

  function PieceWords(s: Splice): (w: seq<seq<string>>)
    requires |s.slots| == |s.tokens| + 1
    ensures |w| == |s.tokens| + 1
    ensures forall i :: 0 <= i < |w| ==> w[i] == WordsAt(s, i)
  {
    seq(|s.tokens| + 1, i requires 0 <= i <= |s.tokens| => WordsAt(s, i))
  }

  lemma SlotPieceWords(piece: string)
    ensures Words(SlotPiece(piece)) == Words(piece)
    ensures Closed(SlotPiece(piece))
  {
    WordsIgnoreTrailing(piece, ' ');
  }

  lemma KeptPieceWords(s: Splice, i: nat)
    requires i < |s.tokens|
    ensures Words(KeptPiece(s, i)) == if i in s.dropped then [] else Words(s.tokens[i].text)
    ensures Closed(KeptPiece(s, i))
  {
    if i !in s.dropped {
      WordsIgnoreTrailing(s.tokens[i].text, ' ');
    }
  }

  lemma PieceHasItsWords(s: Splice, n: nat)
    requires |s.slots| == |s.tokens| + 1 && n <= |s.tokens|
    ensures Words(Piece(s, n)) == WordsAt(s, n) && Closed(Piece(s, n))
  {
    SlotPieceWords(s.slots[n]);
    if n > 0 {
      KeptPieceWords(s, n - 1);
      WordsConcat(KeptPiece(s, n - 1), SlotPiece(s.slots[n]));
    }
  }

  lemma {:induction false} WordsOfJoined(pieces: seq<string>, words: seq<seq<string>>, n: nat)
    requires n <= |pieces| == |words|
    requires forall i :: 0 <= i < n ==> Closed(pieces[i]) && Words(pieces[i]) == words[i]
    ensures Closed(Joined(pieces, n)) && Words(Joined(pieces, n)) == Joined(words, n)
  {
    if n > 0 {
      WordsOfJoined(pieces, words, n - 1);
      WordsConcat(Joined(pieces, n - 1), pieces[n - 1]);
    }
  }

  /** Rendering gives every kept token once, in the original order, with the words of each slot at its anchor, and
      nothing else; no two of them run together. */
  lemma RenderKeepsTokens(s: Splice)
    requires s.Valid()
    ensures Words(Rendered(s)) == Joined(PieceWords(s), |s.tokens| + 1)
  {
    forall i | 0 <= i <= |s.tokens|
      ensures Closed(Pieces(s)[i]) && Words(Pieces(s)[i]) == PieceWords(s)[i]
    {
      PieceAt(s, |s.tokens| + 1, i);
      PieceHasItsWords(s, i);
    }
    WordsOfJoined(Pieces(s), PieceWords(s), |s.tokens| + 1);
    WordsOfTrimmed(Joined(Pieces(s), |s.tokens| + 1));
  }

  // ----- kept tokens, character by character

  lemma {:induction false} JoinedGrows(pieces: seq<string>, m: nat, n: nat)
    requires m <= n <= |pieces|
    ensures Joined(pieces, m) <= Joined(pieces, n)
  {
    if m < n {
      JoinedGrows(pieces, m, n - 1);
    }
  }

  lemma {:induction false} TrimmedLosesBlanks(out: string)
    ensures Trimmed(out) <= out && forall k :: |Trimmed(out)| <= k < |out| ==> out[k] == ' '
    decreases |out|
  {
    if out != "" && out[|out| - 1] == ' ' {
      TrimmedLosesBlanks(out[..|out| - 1]);
    }
  }

  /** Where the text of token `i` begins in the rendered text. */
  function TokenStart(s: Splice, i: nat): nat
    requires |s.slots| == |s.tokens| + 1 && i < |s.tokens|
  {
    |Joined(Pieces(s), i + 1)|
  }

  /** `text` stands at `at` in `out`, with a blank after it unless it ends `out`. */
  ghost predicate Verbatim(out: string, at: nat, text: string) {
    at + |text| <= |out| && out[at..at + |text|] == text && (at + |text| < |out| ==> out[at + |text|] == ' ')
  }

  /** A kept token stands in the rendered text as it is spelled, blanks inside it included. */
  lemma TokenStandsVerbatim(s: Splice, i: nat)
    requires |s.slots| == |s.tokens| + 1 && i < |s.tokens| && i !in s.dropped
    requires s.tokens[i].text != "" && s.tokens[i].text[|s.tokens[i].text| - 1] != ' '
    ensures Verbatim(Rendered(s), TokenStart(s, i), s.tokens[i].text)
  {
    var pieces, rest := KeptTokenPiece(s, i);
    TextInRendered(pieces, i + 1, s.tokens[i].text, rest);
  }

  lemma KeptTokenPiece(s: Splice, i: nat) returns (pieces: seq<string>, rest: string)
    requires |s.slots| == |s.tokens| + 1 && i < |s.tokens| && i !in s.dropped
    ensures pieces == Pieces(s) && |pieces| == |s.tokens| + 1 && pieces[i + 1] == s.tokens[i].text + " " + rest
  {
    rest := PieceOfKept(s, i);
    pieces := ThePieces(s, i + 1);
  }

  lemma ThePieces(s: Splice, i: nat) returns (pieces: seq<string>)
    requires |s.slots| == |s.tokens| + 1 && i <= |s.tokens|
    ensures pieces == Pieces(s) && |pieces| == |s.tokens| + 1 && pieces[i] == Piece(s, i)
  {
    pieces := PiecesTo(s, |s.tokens| + 1);
    PieceAt(s, |s.tokens| + 1, i);
  }

  lemma PieceOfKept(s: Splice, i: nat) returns (rest: string)
    requires |s.slots| == |s.tokens| + 1 && i < |s.tokens| && i !in s.dropped
    ensures Piece(s, i + 1) == s.tokens[i].text + " " + rest
  {
    rest := SlotPiece(s.slots[i + 1]);
  }

  lemma TextInRendered(pieces: seq<string>, n: nat, text: string, rest: string)
    requires n < |pieces| && pieces[n] == text + " " + rest && text != "" && text[|text| - 1] != ' '
    ensures Verbatim(Trimmed(Joined(pieces, |pieces|)), |Joined(pieces, n)|, text)
  {
    TextInJoined(pieces, n, text, rest);
    TextInTrimmed(Joined(pieces, |pieces|), |Joined(pieces, n)|, text);
  }

  /** Kept tokens stand in their original order. */
  lemma TokensStandInOrder(s: Splice, i: nat, j: nat)
    requires |s.slots| == |s.tokens| + 1 && i < j < |s.tokens| && i !in s.dropped
    ensures TokenStart(s, i) + |s.tokens[i].text| < TokenStart(s, j)
  {
    var pieces, rest := KeptTokenPiece(s, i);
    TextEndsBefore(pieces, i + 1, s.tokens[i].text, rest, j + 1);
  }

  lemma TextEndsBefore(pieces: seq<string>, n: nat, text: string, rest: string, m: nat)
    requires n < m <= |pieces| && pieces[n] == text + " " + rest
    ensures |Joined(pieces, n)| + |text| < |Joined(pieces, m)|
  {
    TextInJoined(pieces, n, text, rest);
    JoinedGrows(pieces, n + 1, m);
  }

  /** `text` stands at `at` in `out`, followed by a blank. */
  ghost predicate StandsAt(out: string, at: nat, text: string) {
    at + |text| < |out| && out[at..at + |text|] == text && out[at + |text|] == ' '
  }

  lemma TextInJoined(pieces: seq<string>, n: nat, text: string, rest: string)
    requires n < |pieces| && pieces[n] == text + " " + rest
    ensures StandsAt(Joined(pieces, |pieces|), |Joined(pieces, n)|, text)
    ensures |Joined(pieces, n)| + |text| < |Joined(pieces, n + 1)|
  {
    JoinedGrows(pieces, n + 1, |pieces|);
    StandsInSum(Joined(pieces, n), text, rest, Joined(pieces, |pieces|));
  }

  lemma StandsInSum(before: string, text: string, rest: string, out: string)
    requires before + (text + " " + rest) <= out
    ensures StandsAt(out, |before|, text)
  {
    var sum := before + (text + " " + rest);
    assert sum[|before|..|before| + |text|] == text && sum[|before| + |text|] == ' ';
    assert forall k :: 0 <= k < |sum| ==> out[k] == sum[k];
  }

  lemma TextInTrimmed(out: string, at: nat, text: string)
    requires StandsAt(out, at, text) && text != "" && text[|text| - 1] != ' '
    ensures Verbatim(Trimmed(out), at, text)
  {
    TrimmedLosesBlanks(out);
    assert out[at..at + |text|][|text| - 1] == out[at + |text| - 1];
    assert at + |text| <= |Trimmed(out)|;
    assert Trimmed(out)[at..at + |text|] == out[at..at + |text|];
  }
}
