/** A preprocessor's view of a source file: characters, `#line` directives, and the file and line they give to what
    follows, as section 19.4 of ISO/IEC 14882:2017 has it.

    One marker symbol stands for the text of one `#line N "file"` directive, without the newline that ends it. It is a
    directive if only white space stands before it on its line, and otherwise it is not. */
module LineReader {

  datatype Sym = Ch(c: char) | Mark(line: nat, file: string)

  const NL: Sym := Ch('\n')

  function Lift(text: string): (s: seq<Sym>)
    ensures |s| == |text| && forall i :: 0 <= i < |s| ==> s[i] == Ch(text[i])
  {
    seq(|text|, i requires 0 <= i < |text| => Ch(text[i]))
  }

  function Newlines(s: seq<Sym>): nat {
    if s == [] then 0 else Newlines(s[..|s| - 1]) + if s[|s| - 1] == NL then 1 else 0
  }

  /** The newlines of a text. */
  function LinesIn(text: string): nat {
    if text == "" then 0 else LinesIn(text[..|text| - 1]) + if text[|text| - 1] == '\n' then 1 else 0
  }

  lemma {:induction false} NewlinesOfLift(text: string)
    ensures Newlines(Lift(text)) == LinesIn(text)
  {
    if text != "" {
      NewlinesOfLift(text[..|text| - 1]);
      assert Lift(text)[..|text| - 1] == Lift(text[..|text| - 1]);
    }
  }

  lemma {:induction false} LinesInConcat(a: string, b: string)
    ensures LinesIn(a + b) == LinesIn(a) + LinesIn(b)
  {
    if b == "" {
      assert a + b == a;
    } else {
      assert (a + b)[..|a + b| - 1] == a + b[..|b| - 1];
      LinesInConcat(a, b[..|b| - 1]);
    }
  }

  // ----- the reader

  /** White space other than a newline. */
  predicate IsBlank(c: char) {
    c == ' ' || c == '\t' || c == '\U{000B}' || c == '\U{000C}'
  }

  /** `start`: nothing but blanks of the current line read yet. `pending`: the current line is a directive. */
  datatype Reader = Reader(file: string, line: int, start: bool, pending: bool, next: int, nextFile: string)

  function Opened(file: string): Reader {
    Reader(file, 1, true, false, 0, "")
  }

  function ReadSym(r: Reader, s: Sym): Reader {
    match s
    case Mark(line, file) =>
      if r.start then r.(start := false, pending := true, next := line, nextFile := file) else r.(start := false)
    case Ch(c) =>
      if c == '\n' then
        if r.pending then Reader(r.nextFile, r.next, true, false, 0, "")
        else Reader(r.file, r.line + 1, true, false, 0, "")
      else if IsBlank(c) then r
      else r.(start := false)
  }

  /** After the first `n` symbols of `s`. */
  function ReadN(r: Reader, s: seq<Sym>, n: nat): Reader
    requires n <= |s|
  {
    if n == 0 then r else ReadSym(ReadN(r, s, n - 1), s[n - 1])
  }

  function Read(r: Reader, s: seq<Sym>): Reader {
    ReadN(r, s, |s|)
  }

  lemma {:induction false} ReadPrefix(r: Reader, s: seq<Sym>, t: seq<Sym>, n: nat)
    requires n <= |s| && n <= |t| && forall i :: 0 <= i < n ==> s[i] == t[i]
    ensures ReadN(r, s, n) == ReadN(r, t, n)
  {
    if n > 0 {
      ReadPrefix(r, s, t, n - 1);
    }
  }

  lemma {:induction false} ReadConcatN(r: Reader, a: seq<Sym>, b: seq<Sym>, n: nat)
    requires n <= |b|
    ensures ReadN(r, a + b, |a| + n) == ReadN(Read(r, a), b, n)
  {
    if n == 0 {
      ReadPrefix(r, a, a + b, |a|);
    } else {
      ReadConcatN(r, a, b, n - 1);
      assert (a + b)[|a| + n - 1] == b[n - 1];
    }
  }

  lemma ReadConcat(r: Reader, a: seq<Sym>, b: seq<Sym>)
    ensures Read(r, a + b) == Read(Read(r, a), b)
  {
    ReadConcatN(r, a, b, |b|);
  }

  lemma {:induction false} NewlinesConcat(a: seq<Sym>, b: seq<Sym>)
    ensures Newlines(a + b) == Newlines(a) + Newlines(b)
  {
    if b == [] {
      assert a + b == a;
    } else {
      assert (a + b)[..|a + b| - 1] == a + b[..|b| - 1];
      NewlinesConcat(a, b[..|b| - 1]);
    }
  }

  ghost predicate Plain(s: seq<Sym>) {
    forall i :: 0 <= i < |s| ==> s[i].Ch?
  }

  /** Characters advance the line number by their newlines and keep the file. */
  lemma {:induction false} ReadPlainN(r: Reader, s: seq<Sym>, n: nat)
    requires Plain(s) && !r.pending && n <= |s|
    ensures var r' := ReadN(r, s, n); !r'.pending && r'.file == r.file && r'.line == r.line + Newlines(s[..n])
  {
    if n > 0 {
      ReadPlainN(r, s, n - 1);
      assert s[..n][..n - 1] == s[..n - 1];
    }
  }

  lemma ReadPlain(r: Reader, s: seq<Sym>)
    requires Plain(s) && !r.pending
    ensures !Read(r, s).pending && Read(r, s).file == r.file && Read(r, s).line == r.line + Newlines(s)
  {
    ReadPlainN(r, s, |s|);
    assert s[..|s|] == s;
  }

  // ----- the start of a line

  /** Whether a text leaves off at the start of a line, blanks not counted: its last newline is followed by blanks only,
      or it is all blank and was begun at the start of a line. */
  function StartAfter(start: bool, s: seq<Sym>): bool {
    if s == [] then start
    else
      match s[|s| - 1]
      case Mark(_, _) => false
      case Ch(c) => c == '\n' || (IsBlank(c) && StartAfter(start, s[..|s| - 1]))
  }

  lemma {:induction false} StartIs(r: Reader, s: seq<Sym>, n: nat)
    requires n <= |s|
    ensures ReadN(r, s, n).start == StartAfter(r.start, s[..n])
  {
    if n > 0 {
      StartIs(r, s, n - 1);
      assert s[..n][..n - 1] == s[..n - 1];
    }
  }

  lemma ReadStart(r: Reader, s: seq<Sym>)
    ensures Read(r, s).start == StartAfter(r.start, s)
  {
    StartIs(r, s, |s|);
    assert s[..|s|] == s;
  }

  lemma {:induction false} StartConcat(start: bool, s: seq<Sym>, t: seq<Sym>)
    ensures StartAfter(start, s + t) == StartAfter(StartAfter(start, s), t)
  {
    if t == [] {
      assert s + t == s;
    } else {
      assert (s + t)[..|s + t| - 1] == s + t[..|t| - 1];
      StartConcat(start, s, t[..|t| - 1]);
    }
  }

  lemma {:induction false} StartGrows(s: seq<Sym>)
    ensures StartAfter(false, s) ==> StartAfter(true, s)
  {
    if s != [] {
      StartGrows(s[..|s| - 1]);
    }
  }

  lemma StartAfterNewline(start: bool, s: seq<Sym>)
    requires s != [] && s[|s| - 1] == NL
    ensures StartAfter(start, s)
  {
  }
}
