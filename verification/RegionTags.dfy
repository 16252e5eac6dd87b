/** The text form of rectangles of grid slots. */
module RegionTags {
  import opened Wrappers
  import opened Names

  const U32_LIMIT := 0x1_0000_0000

  /** The slots from (dlX, dlY) to (urX, urY), both included. */
  datatype Coor = Coor(dlX: nat, dlY: nat, urX: nat, urY: nat) {
    predicate Ordered() {
      dlX <= urX < U32_LIMIT && dlY <= urY < U32_LIMIT
    }

    predicate Covers(x: nat, y: nat) {
      dlX <= x <= urX && dlY <= y <= urY
    }

    predicate Atomic() {
      dlX == urX && dlY == urY
    }
  }

  // ----- text

  predicate At(s: string, sep: string, i: nat) {
    i + |sep| <= |s| && s[i..i + |sep|] == sep
  }

  /** The first occurrence of `sep` at or after `i`. */
  function Find(s: string, sep: string, i: nat): (r: Option<nat>)
    requires i <= |s|
    ensures r.Some? ==> i <= r.value && r.value + |sep| <= |s|
    decreases |s| - i
  {
    if At(s, sep, i) then Some(i) else if i == |s| then None else Find(s, sep, i + 1)
  }

  function SplitOnce(s: string, sep: string): Option<(string, string)> {
    match Find(s, sep, 0)
    case None => None
    case Some(i) => Some((s[..i], s[i + |sep|..]))
  }

  /** A 32-bit decimal; a leading plus sign and leading zeros are accepted. */
  function ParseU32(s: string): Option<nat> {
    var digits := if s != "" && s[0] == '+' then s[1..] else s;
    if digits == "" || !AllDigits(digits) || Value(digits) >= U32_LIMIT then None else Some(Value(digits))
  }

  function ParseSlotTag(tag: string): Option<(nat, nat)> {
    if !("SLOT_X" <= tag) then None else
    match SplitOnce(tag[6..], "Y")
    case None => None
    case Some((x, y)) =>
      if ParseU32(x).None? || ParseU32(y).None? then None else Some((ParseU32(x).value, ParseU32(y).value))
  }

  function FromRegionName(name: string): (r: Option<Coor>) {
    match SplitOnce(name, "_TO_")
    case None => None
    case Some((lhs, rhs)) =>
      var dl, ur := ParseSlotTag(lhs), ParseSlotTag(rhs);
      if dl.None? || ur.None? || dl.value.0 > ur.value.0 || dl.value.1 > ur.value.1 then None
      else Some(Coor(dl.value.0, dl.value.1, ur.value.0, ur.value.1))
  }

  function FromSlotName(name: string): Option<Coor> {
    match ParseSlotTag(name)
    case None => None
    case Some((x, y)) => Some(Coor(x, y, x, y))
  }

  function FromRegionOrSlotName(name: string): Option<Coor> {
    if FromRegionName(name).Some? then FromRegionName(name) else FromSlotName(name)
  }

  function FromAtomicRegionName(name: string): Option<Coor> {
    var c := FromRegionOrSlotName(name);
    if c.Some? && c.value.Atomic() then c else None
  }

  function SlotText(x: string, y: string): string {
    "SLOT_X" + x + "Y" + y
  }

  function RegionText(a: string, b: string, x: string, y: string): string {
    SlotText(a, b) + "_TO_" + SlotText(x, y)
  }

  function RegionName(c: Coor): string {
    RegionText(Digits(c.dlX), Digits(c.dlY), Digits(c.urX), Digits(c.urY))
  }

  // ----- what the parsers accept

  lemma {:induction false} FindsFirst(s: string, sep: string, i: nat, at: nat)
    requires i <= at <= |s| && At(s, sep, at) && forall j :: i <= j < at ==> !At(s, sep, j)
    ensures Find(s, sep, i) == Some(at)
    decreases at - i
  {
    if i < at {
      FindsFirst(s, sep, i + 1, at);
    }
  }

  lemma {:induction false} FoundIsThere(s: string, sep: string, i: nat)
    requires i <= |s| && Find(s, sep, i).Some?
    ensures At(s, sep, Find(s, sep, i).value)
    decreases |s| - i
  {
    if !At(s, sep, i) {
      FoundIsThere(s, sep, i + 1);
    }
  }

  lemma SplitsAt(lhs: string, sep: string, rhs: string)
    requires sep != "" && forall j :: 0 <= j < |lhs| ==> !At(lhs + sep + rhs, sep, j)
    ensures SplitOnce(lhs + sep + rhs, sep) == Some((lhs, rhs))
  {
    var s := lhs + sep + rhs;
    assert s[|lhs|..|lhs| + |sep|] == sep;
    FindsFirst(s, sep, 0, |lhs|);
    assert s[..|lhs|] == lhs && s[|lhs| + |sep|..] == rhs;
  }

  lemma SplitJoins(s: string, sep: string)
    requires SplitOnce(s, sep).Some?
    ensures s == SplitOnce(s, sep).value.0 + sep + SplitOnce(s, sep).value.1
  {
    FoundIsThere(s, sep, 0);
    var i := Find(s, sep, 0).value;
    assert s == s[..i] + s[i..i + |sep|] + s[i + |sep|..];
  }

  lemma NotAt(s: string, sep: string, i: nat, k: nat)
    requires k < |sep| && i + k < |s| && s[i + k] != sep[k]
    ensures !At(s, sep, i)
  {
    assert i + |sep| <= |s| ==> s[i..i + |sep|][k] == s[i + k];
  }

  lemma NumeralChars(s: string, i: nat)
    requires ParseU32(s).Some? && i < |s|
    ensures IsDigit(s[i]) || s[i] == '+'
  {
    assert i > 0 && s[0] == '+' ==> s[i] == s[1..][i - 1];
  }

  lemma Stripped(tag: string)
    requires "SLOT_X" <= tag
    ensures tag == "SLOT_X" + tag[6..]
  {
  }

  lemma TextParts(x: string, y: string)
    ensures SlotText(x, y) == "SLOT_X" + (x + "Y" + y)
  {
  }

  lemma SlotTextParses(x: string, y: string)
    requires ParseU32(x).Some? && ParseU32(y).Some?
    ensures ParseSlotTag(SlotText(x, y)) == Some((ParseU32(x).value, ParseU32(y).value))
  {
    var tag := SlotText(x, y);
    assert tag == "SLOT_X" + (x + "Y" + y);
    assert tag[6..] == x + "Y" + y && "SLOT_X" <= tag;
    forall j | 0 <= j < |x|
      ensures !At(x + "Y" + y, "Y", j)
    {
      NumeralChars(x, j);
      NotAt(x + "Y" + y, "Y", j, 0);
    }
    SplitsAt(x, "Y", y);
  }

  /** Any four numerals, plus signs and leading zeros included, make a region tag; only an ordered one denotes. */
  lemma RegionTextParses(a: string, b: string, x: string, y: string)
    requires ParseU32(a).Some? && ParseU32(b).Some? && ParseU32(x).Some? && ParseU32(y).Some?
    ensures var c := Coor(ParseU32(a).value, ParseU32(b).value, ParseU32(x).value, ParseU32(y).value);
            FromRegionName(RegionText(a, b, x, y)) == if c.Ordered() then Some(c) else None
  {
    var lhs, rhs := SlotText(a, b), SlotText(x, y);
    forall j | 0 <= j < |lhs|
      ensures !At(lhs + "_TO_" + rhs, "_TO_", j)
    {
      UnderscoreAt(a, b, rhs, j);
    }
    SplitsAt(lhs, "_TO_", rhs);
    SlotTextParses(a, b);
    SlotTextParses(x, y);
  }

  lemma UnderscoreAt(a: string, b: string, rhs: string, j: nat)
    requires ParseU32(a).Some? && ParseU32(b).Some? && j < |SlotText(a, b)|
    ensures !At(SlotText(a, b) + "_TO_" + rhs, "_TO_", j)
  {
    var lhs := SlotText(a, b);
    var s := lhs + "_TO_" + rhs;
    assert s[j] == lhs[j] && lhs == "SLOT_X" + a + "Y" + b;
    if j >= 6 {
      if j < 6 + |a| {
        NumeralChars(a, j - 6);
      } else if j > 6 + |a| {
        NumeralChars(b, j - 7 - |a|);
      }
      assert lhs[j] != '_';
    }
    NotAt(s, "_TO_", j, if j == 4 then 1 else 0);
  }

  /** Nothing else is a slot tag. */
  lemma SlotTagIsText(tag: string) returns (x: string, y: string)
    requires ParseSlotTag(tag).Some?
    ensures ParseU32(x).Some? && ParseU32(y).Some? && tag == SlotText(x, y)
  {
    var rest := tag[6..];
    x, y := SplitOnce(rest, "Y").value.0, SplitOnce(rest, "Y").value.1;
    SplitJoins(rest, "Y");
    Stripped(tag);
    TextParts(x, y);
  }

  /** Nothing else is a region tag. */
  lemma RegionNameIsText(name: string) returns (a: string, b: string, x: string, y: string)
    requires FromRegionName(name).Some?
    ensures ParseU32(a).Some? && ParseU32(b).Some? && ParseU32(x).Some? && ParseU32(y).Some?
    ensures name == RegionText(a, b, x, y)
    ensures FromRegionName(name) ==
              Some(Coor(ParseU32(a).value, ParseU32(b).value, ParseU32(x).value, ParseU32(y).value))
  {
    var parts := SplitOnce(name, "_TO_").value;
    SplitJoins(name, "_TO_");
    a, b := SlotTagIsText(parts.0);
    x, y := SlotTagIsText(parts.1);
    SlotTextParses(a, b);
    SlotTextParses(x, y);
  }

  // ----- round trip and canonical names

  lemma DigitsParse(n: nat)
    requires n < U32_LIMIT
    ensures ParseU32(Digits(n)) == Some(n)
  {
    ValueOfDigits(n);
    assert IsDigit(Digits(n)[0]);
  }

  /** Printing then parsing is the identity on every ordered rectangle. */
  lemma RegionRoundTrip(c: Coor)
    requires c.Ordered()
    ensures FromRegionName(RegionName(c)) == Some(c)
  {
    DigitsParse(c.dlX);
    DigitsParse(c.dlY);
    DigitsParse(c.urX);
    DigitsParse(c.urY);
    RegionTextParses(Digits(c.dlX), Digits(c.dlY), Digits(c.urX), Digits(c.urY));
  }

  lemma ParsedIsOrdered(name: string)
    ensures FromRegionOrSlotName(name).Some? ==> FromRegionOrSlotName(name).value.Ordered()
  {
  }

  function CanonicalPblockName(region: string): string {
    var c := FromRegionOrSlotName(region);
    if c.Some? then RegionName(c.value) else region
  }

  /** Two tags get one pblock exactly when they are the same text or denote the same rectangle. */
  lemma SamePblockIffSameRectangle(s: string, t: string)
    ensures CanonicalPblockName(s) == CanonicalPblockName(t) <==>
              s == t || (FromRegionOrSlotName(s).Some? && FromRegionOrSlotName(s) == FromRegionOrSlotName(t))
  {
    CanonicalKeepsMeaning(s);
    CanonicalKeepsMeaning(t);
  }

  /** A canonical name denotes what the tag denotes. */
  lemma CanonicalKeepsMeaning(s: string)
    ensures FromRegionOrSlotName(CanonicalPblockName(s)) == FromRegionOrSlotName(s)
    ensures CanonicalPblockName(CanonicalPblockName(s)) == CanonicalPblockName(s)
  {
    var c := FromRegionOrSlotName(s);
    if c.Some? {
      ParsedIsOrdered(s);
      RegionRoundTrip(c.value);
    }
  }

  // ----- cells

  ghost predicate RowMajor(p: (nat, nat), q: (nat, nat)) {
    p.1 < q.1 || (p.1 == q.1 && p.0 < q.0)
  }

  /** Every cell of the rectangle once, row by row. */
  method AllSlotCoors(c: Coor) returns (cells: seq<(nat, nat)>)
    ensures forall p :: p in cells <==> c.Covers(p.0, p.1)
    ensures forall i, j :: 0 <= i < j < |cells| ==> RowMajor(cells[i], cells[j])
  {
    cells := [];
    if c.dlY > c.urY {
      return;
    }
    for y := c.dlY to c.urY + 1
      invariant forall p :: p in cells <==> c.Covers(p.0, p.1) && p.1 < y
      invariant forall i, j :: 0 <= i < j < |cells| ==> RowMajor(cells[i], cells[j])
    {
      if c.dlX <= c.urX {
        cells := AddRow(c, y, cells);
      }
    }
  }

  method AddRow(c: Coor, y: nat, above: seq<(nat, nat)>) returns (cells: seq<(nat, nat)>)
    requires c.dlX <= c.urX && c.dlY <= y <= c.urY
    requires forall p :: p in above <==> c.Covers(p.0, p.1) && p.1 < y
    requires forall i, j :: 0 <= i < j < |above| ==> RowMajor(above[i], above[j])
    ensures forall p :: p in cells <==> c.Covers(p.0, p.1) && p.1 <= y
    ensures forall i, j :: 0 <= i < j < |cells| ==> RowMajor(cells[i], cells[j])
  {
    cells := above;
    for x := c.dlX to c.urX + 1
      invariant forall p :: p in cells <==> c.Covers(p.0, p.1) && (p.1 < y || (p.1 == y && p.0 < x))
      invariant forall i, j :: 0 <= i < j < |cells| ==> RowMajor(cells[i], cells[j])
    {
      assert forall i :: 0 <= i < |cells| ==> cells[i] in cells && RowMajor(cells[i], (x, y));
      cells := cells + [(x, y)];
    }
  }
}
