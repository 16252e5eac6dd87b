/** The order in which names and keys are sorted. */
module ByteOrder {
  import opened Wrappers

  predicate Before(a: string, b: string) {
    b != "" && (a == "" || a[0] < b[0] || (a[0] == b[0] && Before(a[1..], b[1..])))
  }

  lemma {:induction false} BeforeTransitive(a: string, b: string, c: string)
    requires Before(a, b) && Before(b, c)
    ensures Before(a, c)
  {
    if a != "" && a[0] == b[0] == c[0] {
      BeforeTransitive(a[1..], b[1..], c[1..]);
    }
  }

  lemma {:induction false} NotBeforeItself(a: string)
    ensures !Before(a, a)
  {
    if a != "" {
      NotBeforeItself(a[1..]);
    }
  }

  lemma {:induction false} BeforeIsTotal(a: string, b: string)
    requires !Before(a, b) && !Before(b, a)
    ensures a == b
  {
    if a != "" {
      BeforeIsTotal(a[1..], b[1..]);
      assert a == [a[0]] + a[1..] && b == [b[0]] + b[1..];
    }
  }

  ghost predicate IsLowerBound(keys: set<string>, from: string, r: Option<string>) {
    match r
    case None => forall k :: k in keys ==> Before(k, from)
    case Some(m) => m in keys && !Before(m, from) && forall k :: k in keys && !Before(k, from) ==> !Before(k, m)
  }

  method LowerBound(keys: set<string>, from: string) returns (r: Option<string>)
    ensures IsLowerBound(keys, from, r)
  {
    r := None;
    var pending := keys;
    while pending != {}
      invariant pending <= keys && IsLowerBound(keys - pending, from, r)
    {
      var k :| k in pending;
      if !Before(k, from) && (r.None? || Before(k, r.value)) {
        LowerStill(keys - pending, from, r, k);
        r := Some(k);
      }
      pending := pending - {k};
    }
    assert keys - pending == keys;
  }

  lemma LowerStill(seen: set<string>, from: string, r: Option<string>, k: string)
    requires IsLowerBound(seen, from, r) && !Before(k, from) && (r.None? || Before(k, r.value))
    ensures IsLowerBound(seen + {k}, from, Some(k))
  {
    NotBeforeItself(k);
    forall other | other in seen && !Before(other, from)
      ensures !Before(other, k)
    {
      if Before(other, k) {
        BeforeTransitive(other, k, r.value);
      }
    }
  }

  lemma NothingBeforeEmpty(keys: set<string>)
    ensures forall k :: k in keys ==> !Before(k, "")
  {
  }

  lemma LeastIsBefore(keys: set<string>, least: string)
    requires least in keys && forall k :: k in keys ==> !Before(k, least)
    ensures forall k :: k in keys - {least} ==> Before(least, k)
  {
    forall k | k in keys - {least}
      ensures Before(least, k)
    {
      if !Before(least, k) {
        BeforeIsTotal(least, k);
      }
    }
  }

  ghost predicate IsLeast(keys: set<string>, m: string) {
    m in keys && forall k :: k in keys ==> !Before(k, m)
  }

  ghost function Least(keys: set<string>): (m: string)
    requires keys != {}
    ensures IsLeast(keys, m)
  {
    var k :| k in keys;
    NotBeforeItself(k);
    if keys == {k} then k
    else
      var rest := Least(keys - {k});
      assert keys == keys - {k} + {k};
      if Before(k, rest) then LowerStill(keys - {k}, "", Some(rest), k); k else rest
  }

  lemma LeastIsUnique(keys: set<string>, a: string, b: string)
    requires IsLeast(keys, a) && IsLeast(keys, b)
    ensures a == b
  {
    BeforeIsTotal(a, b);
  }

  method FindLeast(keys: set<string>) returns (m: string)
    requires keys != {}
    ensures IsLeast(keys, m) && m == Least(keys)
  {
    var r := LowerBound(keys, "");
    NothingBeforeEmpty(keys);
    m := r.value;
    LeastIsUnique(keys, m, Least(keys));
  }
}
