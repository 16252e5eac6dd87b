/** Decimal numerals and the array-element names built from them. */
module Names {

  predicate IsDigit(c: char) {
    '0' <= c <= '9'
  }

  function DigitChar(d: nat): (c: char)
    requires d < 10
    ensures IsDigit(c) && c as int == '0' as int + d
  {
    ('0' as int + d) as char
  }

  predicate AllDigits(s: string) {
    forall i :: 0 <= i < |s| ==> IsDigit(s[i])
  }

  function Digits(n: nat): (s: string)
    ensures |s| >= 1 && AllDigits(s)
  {
    if n < 10 then [DigitChar(n)] else Digits(n / 10) + [DigitChar(n % 10)]
  }

  function Value(s: string): (n: nat)
    requires AllDigits(s)
  {
    if s == [] then 0 else Value(s[..|s| - 1]) * 10 + (s[|s| - 1] as int - '0' as int)
  }

  /** Reading back what was printed. */
  lemma {:induction false} ValueOfDigits(n: nat)
    ensures Value(Digits(n)) == n
  {
    if n < 10 {
      assert Digits(n)[..0] == "";
    } else {
      ValueOfDigits(n / 10);
      assert Digits(n)[..|Digits(n)| - 1] == Digits(n / 10);
    }
  }

  /** "q", 2 to "q[2]". */
  function ArrayNameAt(base: string, i: nat): (name: string) {
    base + "[" + Digits(i) + "]"
  }

  /** "q[2]" to "q"; a name without a subscript is its own base. */
  function ArrayBaseName(name: string): (base: string)
    ensures base <= name && '[' !in base
    ensures base == name || name[|base|] == '['
  {
    if name == [] || name[0] == '[' then [] else [name[0]] + ArrayBaseName(name[1..])
  }

  lemma {:induction false} BaseOfPlain(name: string, rest: string)
    requires '[' !in name && (rest == [] || rest[0] == '[')
    ensures ArrayBaseName(name + rest) == name
  {
    if name != [] {
      assert (name + rest)[1..] == name[1..] + rest;
      BaseOfPlain(name[1..], rest);
    }
  }

  lemma BaseOfElement(base: string, i: nat)
    requires '[' !in base
    ensures ArrayBaseName(ArrayNameAt(base, i)) == base
  {
    assert ArrayNameAt(base, i) == base + ("[" + Digits(i) + "]");
    BaseOfPlain(base, "[" + Digits(i) + "]");
  }

  /** Element names are unambiguous. */
  lemma ElementsDiffer(base: string, i: nat, j: nat)
    requires ArrayNameAt(base, i) == ArrayNameAt(base, j)
    ensures i == j
  {
    var s, t := ArrayNameAt(base, i), ArrayNameAt(base, j);
    assert Digits(i) == s[|base| + 1..|s| - 1] && Digits(j) == t[|base| + 1..|t| - 1];
    ValueOfDigits(i);
    ValueOfDigits(j);
  }
}
