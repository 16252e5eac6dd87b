/** What any sequence of edits makes of the tokens of one macro invocation, told by the edits alone. */
module MacroRuns {
  import opened MacroSplice

  // ----- what one edit asks for

  /** Token `i` lies in the range that `e` replaces. */
  predicate Wants(tokens: seq<Token>, e: Edit, i: nat)
    requires i < |tokens|
  {
    match e
    case Replace(begin, end, _) => begin <= tokens[i].loc <= end
    case DropTokens(first, last, _) => first <= i <= last
    case _ => false
  }

  ghost function Asked(tokens: seq<Token>, e: Edit): (r: set<nat>)
    ensures forall i: nat :: i in r <==> i < |tokens| && Wants(tokens, e, i)
  {
    set i: nat | i < |tokens| && Wants(tokens, e, i)
  }

  /** The anchors of `e` are inside the invocation, and a range is not empty. */
  ghost predicate Anchored(tokens: seq<Token>, e: Edit) {
    match e
    case InsertBefore(loc, _) => Inside(tokens, loc)
    case InsertAfter(loc, _) => Inside(tokens, loc)
    case Replace(begin, end, _) => Inside(tokens, begin) && Inside(tokens, end) && Asked(tokens, e) != {}
    case DropTokens(first, last, _) => first <= last < |tokens|
  }

  /** `e` may join the edits accepted so far: no token is replaced twice. */
  ghost predicate Admits(tokens: seq<Token>, log: seq<Edit>, e: Edit) {
    Anchored(tokens, e) && forall k :: 0 <= k < |log| ==> Asked(tokens, log[k]) !! Asked(tokens, e)
  }

  /** The edits that are accepted, of `edits` made in turn. */
  ghost function Log(tokens: seq<Token>, edits: seq<Edit>): seq<Edit> {
    if edits == [] then []
    else
      var e := edits[|edits| - 1];
      var log := Log(tokens, edits[..|edits| - 1]);
      if Admits(tokens, log, e) then log + [e] else log
  }

  /** The text of `e` goes into slot `at`. */
  ghost predicate GoesTo(tokens: seq<Token>, e: Edit, at: nat) {
    match e
    case InsertBefore(loc, _) => FirstAtOrAfter(tokens, loc, at)
    case InsertAfter(loc, _) => at > 0 && LastAtOrBefore(tokens, loc, at - 1)
    case Replace(begin, _, _) => FirstAtOrAfter(tokens, begin, at)
    case DropTokens(first, _, _) => at == first
  }

  /** The texts that go into slot `at`, in order of arrival. */
  ghost function Texts(tokens: seq<Token>, log: seq<Edit>, at: nat): seq<string> {
    if log == [] then []
    else
      var e := log[|log| - 1];
      Texts(tokens, log[..|log| - 1], at) + if GoesTo(tokens, e, at) then [e.text] else []
  }

  function Composed(texts: seq<string>): string {
    if texts == [] then "" else Appended(Composed(texts[..|texts| - 1]), texts[|texts| - 1])
  }

  /** Token `i` lies in the range of some edit of `log`. */
  ghost predicate IsWanted(tokens: seq<Token>, log: seq<Edit>, i: nat)
    requires i < |tokens|
  {
    exists k :: 0 <= k < |log| && Wants(tokens, log[k], i)
  }

  ghost function Dropped(tokens: seq<Token>, log: seq<Edit>): (r: set<nat>)
    ensures forall i: nat :: i in r <==> i < |tokens| && IsWanted(tokens, log, i)
  {
    set i: nat | i < |tokens| && IsWanted(tokens, log, i)
  }

  // ----- runs

  /** The edits in turn, a rejected one leaving everything as it was. */
  ghost predicate Runs(s: Splice, edits: seq<Edit>, s': Splice)
    requires s.Valid()
    decreases |edits|
  {
    if edits == [] then s' == s
    else exists mid ::
        Valid(mid) && Runs(s, edits[..|edits| - 1], mid) && Next(mid, edits[|edits| - 1], s')
  }

  ghost predicate Valid(s: Splice) {
    s.Valid()
  }

  ghost predicate Next(s: Splice, e: Edit, s': Splice)
    requires s.Valid()
  {
    if Accepts(s, e) then Step(s, e, s') else s' == s
  }

  /** The splice is what the edits of `log` make of a fresh one, and their ranges share no token. */
  ghost predicate Shows(s: Splice, log: seq<Edit>) {
    && s.Valid()
    && s.dropped == Dropped(s.tokens, log)
    && (forall at :: 0 <= at <= |s.tokens| ==> s.slots[at] == Composed(Texts(s.tokens, log, at)))
    && (forall j, k :: 0 <= j < k < |log| ==> Asked(s.tokens, log[j]) !! Asked(s.tokens, log[k]))
  }

  lemma RangeIsAsked(s: Splice, e: Edit, first: nat, last: nat)
    requires s.Valid() && Replaces(s, e, first, last)
    ensures Range(first, last) == Asked(s.tokens, e) && Anchored(s.tokens, e)
    ensures Asked(s.tokens, e) !! s.dropped && GoesTo(s.tokens, e, first)
  {
    assert forall i :: 0 <= i < |s.tokens| ==> (i in Range(first, last) <==> Wants(s.tokens, e, i));
    assert first in Range(first, last);
  }

  lemma AskedIsRange(s: Splice, e: Edit) returns (first: nat, last: nat)
    requires s.Valid() && (e.Replace? || e.DropTokens?) && Anchored(s.tokens, e) && Asked(s.tokens, e) !! s.dropped
    ensures Replaces(s, e, first, last)
  {
    if e.DropTokens? {
      first, last := e.first, e.last;
    } else {
      first := FirstToken(s, e.begin);
      last := LastToken(s, e.end);
      var i :| i in Asked(s.tokens, e);
      assert first <= i <= last;
    }
    assert forall i :: 0 <= i < |s.tokens| ==> (i in Range(first, last) <==> Wants(s.tokens, e, i));
  }

  lemma FirstToken(s: Splice, loc: int) returns (i: nat)
    requires s.Valid() && Inside(s.tokens, loc)
    ensures FirstAtOrAfter(s.tokens, loc, i)
  {
    i := 0;
    while s.tokens[i].loc < loc
      invariant i < |s.tokens| && forall j :: 0 <= j < i ==> s.tokens[j].loc < loc
    {
      i := i + 1;
    }
  }

  lemma LastToken(s: Splice, loc: int) returns (i: nat)
    requires s.Valid() && Inside(s.tokens, loc)
    ensures LastAtOrBefore(s.tokens, loc, i)
  {
    i := |s.tokens| - 1;
    while loc < s.tokens[i].loc
      invariant 0 <= i < |s.tokens| && forall j :: i < j < |s.tokens| ==> loc < s.tokens[j].loc
    {
      i := i - 1;
    }
  }

  lemma AskedIsUndropped(s: Splice, log: seq<Edit>, e: Edit)
    requires Shows(s, log)
    ensures Asked(s.tokens, e) !! s.dropped <==> forall k :: 0 <= k < |log| ==> Asked(s.tokens, log[k]) !! Asked(s.tokens, e)
  {
    if Asked(s.tokens, e) !! s.dropped {
      forall k | 0 <= k < |log|
        ensures Asked(s.tokens, log[k]) !! Asked(s.tokens, e)
      {
        assert Asked(s.tokens, log[k]) <= s.dropped;
      }
    } else {
      var i :| i in Asked(s.tokens, e) && i in s.dropped;
      var k :| 0 <= k < |log| && Wants(s.tokens, log[k], i);
      assert i in Asked(s.tokens, log[k]);
    }
  }

  lemma AcceptedIsAdmitted(s: Splice, log: seq<Edit>, e: Edit)
    requires Shows(s, log) && Accepts(s, e)
    ensures Admits(s.tokens, log, e)
  {
    AskedIsUndropped(s, log, e);
    var s' :| Step(s, e, s');
    if e.Replace? || e.DropTokens? {
      var first, last :| Replaces(s, e, first, last) && s' == DroppedRange(s, first, last, e.text);
      RangeIsAsked(s, e, first, last);
    } else {
      NothingAsked(s.tokens, e);
    }
  }

  lemma NothingAsked(tokens: seq<Token>, e: Edit)
    requires e.InsertBefore? || e.InsertAfter?
    ensures Asked(tokens, e) == {}
  {
  }

  lemma AdmittedIsAccepted(s: Splice, log: seq<Edit>, e: Edit)
    requires Shows(s, log) && Admits(s.tokens, log, e)
    ensures Accepts(s, e)
  {
    AskedIsUndropped(s, log, e);
    match e
    case InsertBefore(loc, text) =>
      var at := FirstToken(s, loc);
      assert Step(s, e, AppendedAt(s, at, text));
    case InsertAfter(loc, text) =>
      var at := LastToken(s, loc);
      assert Step(s, e, AppendedAt(s, at + 1, text));
    case _ =>
      var first, last := AskedIsRange(s, e);
      assert Step(s, e, DroppedRange(s, first, last, e.text));
  }

  /** Whether an edit is accepted depends on the ranges accepted before, and on nothing else. */
  lemma AcceptsIffAdmits(s: Splice, log: seq<Edit>, e: Edit)
    requires Shows(s, log)
    ensures Accepts(s, e) <==> Admits(s.tokens, log, e)
  {
    if Accepts(s, e) {
      AcceptedIsAdmitted(s, log, e);
    }
    if Admits(s.tokens, log, e) {
      AdmittedIsAccepted(s, log, e);
    }
  }

  /** What an edit that goes into slot `at` makes of a splice. */
  ghost function Edited(s: Splice, e: Edit, at: nat): Splice
    requires s.Valid() && at <= |s.tokens|
  {
    Splice(s.tokens, s.slots[at := Appended(s.slots[at], e.text)], s.dropped + Asked(s.tokens, e))
  }

  lemma InsertIs(s: Splice, e: Edit, at: nat)
    requires s.Valid() && (e.InsertBefore? || e.InsertAfter?) && at <= |s.tokens|
    ensures AppendedAt(s, at, e.text) == Edited(s, e, at)
  {
    NothingAsked(s.tokens, e);
    assert s.dropped + {} == s.dropped;
  }

  lemma ReplaceIs(s: Splice, e: Edit, first: nat, last: nat)
    requires s.Valid() && Replaces(s, e, first, last)
    ensures DroppedRange(s, first, last, e.text) == Edited(s, e, first) && GoesTo(s.tokens, e, first)
  {
    RangeIsAsked(s, e, first, last);
  }

  /** What an accepted edit does, whatever its kind. */
  lemma StepIs(s: Splice, e: Edit, s': Splice) returns (at: nat)
    requires s.Valid() && Step(s, e, s')
    ensures at <= |s.tokens| && GoesTo(s.tokens, e, at) && s' == Edited(s, e, at)
  {
    match e
    case InsertBefore(loc, text) =>
      at :| FirstAtOrAfter(s.tokens, loc, at) && s' == AppendedAt(s, at, text);
      InsertIs(s, e, at);
    case InsertAfter(loc, text) =>
      var last: nat :| LastAtOrBefore(s.tokens, loc, last) && s' == AppendedAt(s, last + 1, text);
      at := last + 1;
      InsertIs(s, e, at);
    case _ =>
      var first, last :| Replaces(s, e, first, last) && s' == DroppedRange(s, first, last, e.text);
      ReplaceIs(s, e, first, last);
      at := first;
  }

  lemma GoesToOnePlace(tokens: seq<Token>, e: Edit, at: nat, other: nat)
    requires GoesTo(tokens, e, at) && GoesTo(tokens, e, other)
    ensures at == other
  {
  }

  lemma OneTextMore(tokens: seq<Token>, log: seq<Edit>, e: Edit, at: nat)
    ensures Texts(tokens, log + [e], at) == Texts(tokens, log, at) + if GoesTo(tokens, e, at) then [e.text] else []
  {
    assert (log + [e])[..|log|] == log;
  }

  lemma OneComposedMore(texts: seq<string>, text: string)
    ensures Composed(texts + [text]) == Appended(Composed(texts), text)
  {
    assert (texts + [text])[..|texts|] == texts;
  }

  lemma OneDroppedMore(tokens: seq<Token>, log: seq<Edit>, e: Edit)
    ensures Dropped(tokens, log + [e]) == Dropped(tokens, log) + Asked(tokens, e)
  {
    var more := log + [e];
    forall i: nat | i < |tokens|
      ensures IsWanted(tokens, more, i) <==> IsWanted(tokens, log, i) || Wants(tokens, e, i)
    {
      assert forall k :: 0 <= k < |log| ==> more[k] == log[k];
      assert more[|log|] == e;
    }
  }

  lemma SlotsShowOneMore(s: Splice, log: seq<Edit>, e: Edit, at: nat)
    requires Shows(s, log) && at <= |s.tokens| && GoesTo(s.tokens, e, at)
    ensures forall i :: 0 <= i <= |s.tokens| ==>
              s.slots[at := Appended(s.slots[at], e.text)][i] == Composed(Texts(s.tokens, log + [e], i))
  {
    forall i | 0 <= i <= |s.tokens|
      ensures s.slots[at := Appended(s.slots[at], e.text)][i] == Composed(Texts(s.tokens, log + [e], i))
    {
      OneTextMore(s.tokens, log, e, i);
      if GoesTo(s.tokens, e, i) {
        GoesToOnePlace(s.tokens, e, at, i);
        OneComposedMore(Texts(s.tokens, log, i), e.text);
      } else {
        assert Texts(s.tokens, log, i) + [] == Texts(s.tokens, log, i);
      }
    }
  }

  lemma OneEditMore(s: Splice, log: seq<Edit>, e: Edit, s': Splice)
    requires Shows(s, log) && Next(s, e, s')
    ensures s'.tokens == s.tokens && Shows(s', if Admits(s.tokens, log, e) then log + [e] else log)
  {
    AcceptsIffAdmits(s, log, e);
    if Admits(s.tokens, log, e) {
      var at := StepIs(s, e, s');
      SlotsShowOneMore(s, log, e, at);
      OneDroppedMore(s.tokens, log, e);
    }
  }

  ghost predicate Fresh(s: Splice) {
    s.Valid() && s.dropped == {} && forall i :: 0 <= i <= |s.tokens| ==> s.slots[i] == ""
  }

  /** Over any sequence of edits: those accepted are the ones whose range meets no range accepted before; the tokens
      dropped are exactly the tokens of their ranges; every slot holds the accepted texts anchored there, in order. */
  lemma {:induction false} RunShowsItsLog(s: Splice, edits: seq<Edit>, s': Splice)
    requires Fresh(s) && Runs(s, edits, s')
    ensures s'.tokens == s.tokens && Shows(s', Log(s.tokens, edits))
    decreases |edits|
  {
    if edits != [] {
      var front := edits[..|edits| - 1];
      var mid :| Valid(mid) && Runs(s, front, mid) && Next(mid, edits[|edits| - 1], s');
      RunShowsItsLog(s, front, mid);
      OneEditMore(mid, Log(s.tokens, front), edits[|edits| - 1], s');
    }
  }

  // ----- what a run renders

  lemma {:induction false} WordsOfComposed(texts: seq<string>)
    ensures Words(Composed(texts)) == Joined(WordsOfEach(texts), |texts|)
  {
    if texts != [] {
      var n := |texts| - 1;
      WordsOfComposed(texts[..n]);
      WordsOfAppended(Composed(texts[..n]), texts[n]);
      JoinedPrefix(WordsOfEach(texts[..n]), WordsOfEach(texts), n);
    }
  }

  function WordsOfEach(texts: seq<string>): (w: seq<seq<string>>)
    ensures |w| == |texts| && forall i :: 0 <= i < |w| ==> w[i] == Words(texts[i])
  {
    seq(|texts|, i requires 0 <= i < |texts| => Words(texts[i]))
  }

  lemma {:induction false} JoinedPrefix<T>(a: seq<seq<T>>, b: seq<seq<T>>, n: nat)
    requires n <= |a| && n <= |b| && forall i :: 0 <= i < n ==> a[i] == b[i]
    ensures Joined(a, n) == Joined(b, n)
  {
    if n > 0 {
      JoinedPrefix(a, b, n - 1);
    }
  }

  /** The words due around token `i - 1`: its own unless it lies in an accepted range, then those of the texts anchored
      behind it. */
  ghost function DueAt(tokens: seq<Token>, log: seq<Edit>, i: nat): seq<string>
    requires i <= |tokens|
  {
    var texts := Texts(tokens, log, i);
    (if i == 0 || i - 1 in Dropped(tokens, log) then [] else Words(tokens[i - 1].text))
    + Joined(WordsOfEach(texts), |texts|)
  }

  /** All of them, in order. */
  ghost function Due(tokens: seq<Token>, log: seq<Edit>, n: nat): seq<string>
    requires n <= |tokens| + 1
  {
    if n == 0 then [] else Due(tokens, log, n - 1) + DueAt(tokens, log, n - 1)
  }

  lemma WordsAtAreDue(s: Splice, log: seq<Edit>, i: nat)
    requires Shows(s, log) && i <= |s.tokens|
    ensures WordsAt(s, i) == DueAt(s.tokens, log, i)
  {
    var texts := Texts(s.tokens, log, i);
    WordsOfComposed(texts);
    assert s.slots[i] == Composed(texts);
    assert i == 0 ==> [] + Words(s.slots[0]) == Words(s.slots[0]);
  }

  lemma {:induction false} PieceWordsAreDue(s: Splice, log: seq<Edit>, n: nat)
    requires Shows(s, log) && n <= |s.tokens| + 1
    ensures Joined(PieceWords(s), n) == Due(s.tokens, log, n)
  {
    if n > 0 {
      PieceWordsAreDue(s, log, n - 1);
      WordsAtAreDue(s, log, n - 1);
    }
  }

  /** The rendered text of any run, word by word, from the edits alone. */
  lemma RunRenders(s: Splice, edits: seq<Edit>, s': Splice)
    requires Fresh(s) && Runs(s, edits, s')
    ensures s'.Valid() && Words(Rendered(s')) == Due(s.tokens, Log(s.tokens, edits), |s.tokens| + 1)
  {
    RunShowsItsLog(s, edits, s');
    PieceWordsAreDue(s', Log(s.tokens, edits), |s.tokens| + 1);
    RenderKeepsTokens(s');
  }
}
