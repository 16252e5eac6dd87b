/** The ownership manifest: the list of the files an earlier run wrote into an output tree. */
module Manifests {
  import opened Wrappers
  import opened ByteOrder

  const NAME := ".tapa-tree-manifest"
  const HEADER := "tapa-tree-ownership-v1\n"

  // ----- keys with a prefix

  lemma {:induction false} PrefixIsNotAfter(prefix: string, key: string)
    requires prefix <= key
    ensures !Before(key, prefix)
  {
    if prefix != "" {
      PrefixIsNotAfter(prefix[1..], key[1..]);
    }
  }

  /** The keys with one prefix are neighbours in the order. */
  lemma {:induction false} BetweenHasPrefix(prefix: string, key: string, last: string)
    requires !Before(key, prefix) && !Before(last, key) && prefix <= last
    ensures prefix <= key
  {
    if prefix != "" {
      BetweenHasPrefix(prefix[1..], key[1..], last[1..]);
      assert key == [key[0]] + key[1..] && prefix == [prefix[0]] + prefix[1..];
    }
  }

  /** One look at the lower bound answers for every key. */
  method HasOwnedPrefix(owned: set<string>, prefix: string) returns (has: bool)
    ensures has <==> exists k :: k in owned && prefix <= k
  {
    var it := LowerBound(owned, prefix);
    has := it.Some? && prefix <= it.value;
    forall k | k in owned && prefix <= k
      ensures it.Some? && prefix <= it.value
    {
      PrefixIsNotAfter(prefix, k);
      BetweenHasPrefix(prefix, it.value, k);
    }
  }

  // ----- text

  predicate GoodKey(k: string) {
    k != "" && '\n' !in k
  }

  function NewlineAt(s: string, i: nat): (e: nat)
    requires i <= |s|
    ensures i <= e <= |s| && (e < |s| ==> s[e] == '\n')
    ensures forall j :: i <= j < e ==> s[j] != '\n'
    decreases |s| - i
  {
    if i == |s| || s[i] == '\n' then i else NewlineAt(s, i + 1)
  }

  /** Every line is a non-empty key and the last one is terminated. */
  function Keys(rest: string): Option<set<string>> {
    if rest == "" then Some({}) else
    var end := NewlineAt(rest, 0);
    if end == |rest| || end == 0 then None else And(rest[..end], Keys(rest[end + 1..]))
  }

  function And(key: string, keys: Option<set<string>>): Option<set<string>> {
    match keys
    case None => None
    case Some(s) => Some({key} + s)
  }

  function Owned(text: string): Option<set<string>> {
    if HEADER <= text then Keys(text[|HEADER|..]) else None
  }

  function Union(a: set<string>, b: Option<set<string>>): Option<set<string>> {
    match b
    case None => None
    case Some(s) => Some(a + s)
  }

  method ReadManifest(text: string) returns (owned: Option<set<string>>)
    ensures owned == Owned(text)
  {
    if !(HEADER <= text) {
      return None;
    }
    var rest := text[|HEADER|..];
    var keys: set<string> := {};
    assert Keys(rest).Some? ==> {} + Keys(rest).value == Keys(rest).value;
    while rest != ""
      invariant Owned(text) == Union(keys, Keys(rest))
      decreases |rest|
    {
      var end := NewlineAt(rest, 0);
      if end == |rest| || end == 0 {
        return None;
      }
      OneMore(keys, rest[..end], Keys(rest[end + 1..]));
      keys := keys + {rest[..end]};
      rest := rest[end + 1..];
    }
    return Some(keys);
  }

  lemma OneMore(a: set<string>, key: string, b: Option<set<string>>)
    ensures Union(a, And(key, b)) == Union(a + {key}, b)
  {
    if b.Some? {
      assert a + ({key} + b.value) == (a + {key}) + b.value;
    }
  }

  function Lines(keys: seq<string>): string {
    if keys == [] then "" else keys[0] + "\n" + Lines(keys[1..])
  }

  function Elems(keys: seq<string>): set<string> {
    set k | k in keys
  }

  lemma {:induction false} LinesAppend(keys: seq<string>, k: string)
    ensures Lines(keys + [k]) == Lines(keys) + k + "\n"
  {
    if keys == [] {
      assert [k][1..] == [] && keys + [k] == [k];
      assert Lines([k]) == k + "\n";
    } else {
      LinesAppend(keys[1..], k);
      assert (keys + [k])[1..] == keys[1..] + [k];
      assert keys[0] + "\n" + (Lines(keys[1..]) + k + "\n") == (keys[0] + "\n" + Lines(keys[1..])) + k + "\n";
    }
  }

  /** Printing then reading gives the keys back. */
  lemma {:induction false} KeysOfLines(keys: seq<string>)
    requires forall k :: k in keys ==> GoodKey(k)
    ensures Keys(Lines(keys)) == Some(Elems(keys))
  {
    if keys == [] {
      assert Elems(keys) == {};
    } else {
      KeysOfLines(keys[1..]);
      FirstLine(keys[0], Lines(keys[1..]));
      assert Elems(keys) == {keys[0]} + Elems(keys[1..]);
    }
  }

  lemma FirstLine(key: string, rest: string)
    requires GoodKey(key)
    ensures Keys(key + "\n" + rest) == And(key, Keys(rest))
  {
    var text := key + "\n" + rest;
    assert text[|key|] == '\n' && forall j :: 0 <= j < |key| ==> text[j] == key[j];
    assert NewlineAt(text, 0) == |key|;
    assert text[..|key|] == key && text[|key| + 1..] == rest;
  }

  /** Whatever is read was printed from some list of keys; every other text is refused. */
  lemma {:induction false} KeysAreLines(rest: string) returns (keys: seq<string>)
    requires Keys(rest).Some?
    ensures rest == Lines(keys) && Keys(rest) == Some(Elems(keys))
    ensures forall k :: k in keys ==> GoodKey(k)
    decreases |rest|
  {
    if rest == "" {
      keys := [];
      assert Elems(keys) == {};
    } else {
      var end := NewlineAt(rest, 0);
      var key, tail := rest[..end], rest[end + 1..];
      assert rest == key + "\n" + tail;
      var more := KeysAreLines(tail);
      keys := ConsKeys(key, more);
    }
  }

  lemma ConsKeys(key: string, more: seq<string>) returns (keys: seq<string>)
    requires GoodKey(key) && forall k :: k in more ==> GoodKey(k)
    ensures Lines(keys) == key + "\n" + Lines(more) && Elems(keys) == {key} + Elems(more)
    ensures forall k :: k in keys ==> GoodKey(k)
  {
    keys := [key] + more;
    assert keys[1..] == more;
  }

  /** The text written for `keys`: one line each, in byte order. */
  method PrintManifest(keys: set<string>) returns (text: string, ghost printed: seq<string>)
    requires forall k :: k in keys ==> GoodKey(k)
    ensures text == HEADER + Lines(printed) && Elems(printed) == keys
    ensures forall i, j :: 0 <= i < j < |printed| ==> Before(printed[i], printed[j])
    ensures Owned(text) == Some(keys)
  {
    text, printed := HEADER, [];
    var pending := keys;
    while pending != {}
      invariant pending <= keys && Elems(printed) == keys - pending
      invariant text == HEADER + Lines(printed)
      invariant forall i, j :: 0 <= i < j < |printed| ==> Before(printed[i], printed[j])
      invariant forall i, k :: 0 <= i < |printed| && k in pending ==> Before(printed[i], k)
    {
      var least := LowerBound(pending, "");
      NothingBeforeEmpty(pending);
      var k := least.value;
      LeastIsBefore(pending, k);
      LinesAppend(printed, k);
      assert HEADER + Lines(printed) + k + "\n" == HEADER + (Lines(printed) + k + "\n");
      text := text + k + "\n";
      assert Elems(printed + [k]) == Elems(printed) + {k};
      printed := printed + [k];
      pending := pending - {k};
    }
    assert keys - pending == keys;
    KeysOfLines(printed);
    assert text[|HEADER|..] == Lines(printed);
  }
}
