/** The name patterns that pick out the cells of a floorplan, and when no two cells have the same one. */
module XdcPatterns {
  import opened Names
  import opened XdcGroups

  // ----- names taken literally

  predicate IsMeta(c: char) {
    c in ".^$*+?()[]{}|\\"
  }

  function Escape(s: string): string {
    if s == "" then "" else (if IsMeta(s[0]) then ['\\', s[0]] else [s[0]]) + Escape(s[1..])
  }

  /** The first character and the rest, read off an escaped name. */
  lemma FirstEscaped(s: string)
    requires s != ""
    ensures var e := Escape(s);
            && |e| >= 1 && (e[0] == '\\' ==> |e| >= 2)
            && s[0] == (if e[0] == '\\' then e[1] else e[0])
            && Escape(s[1..]) == if e[0] == '\\' then e[2..] else e[1..]
  {
  }

  lemma {:induction false} EscapeIsInjective(s: string, t: string)
    requires Escape(s) == Escape(t)
    ensures s == t
  {
    if s != "" && t != "" {
      FirstEscaped(s);
      FirstEscaped(t);
      EscapeIsInjective(s[1..], t[1..]);
      assert s == [s[0]] + s[1..] && t == [t[0]] + t[1..];
    }
  }

  // ----- patterns

  const START := "^(.*/)?"
  const END := "(/.*)?$"
  const BODY := "/TAPA_HS_BODY\\["
  const BODY_REG := "\\].*TAPA_HS_BODY_REG(/.*)?$"

  function Suffix(c: Cell): string {
    match c
    case Instance(_) => "(_fifo)?" + END
    case Head(_) => "/TAPA_HS_HEAD(_GATE)?" + END
    case Body(_, i) => BODY + Digits(i) + BODY_REG
    case Tail(_) => "/TAPA_HS_TAIL" + END
  }

  /** The netlist names: `cellName` of a region key, `pipeline` of a routed channel. */
  datatype Netlist = Netlist(cellName: map<string, string>, pipeline: map<Channel, string>)

  ghost predicate Covers(names: Netlist, f: Floorplan) {
    && f.regions.Keys <= names.cellName.Keys
    && forall r :: 0 <= r < |f.routes| ==> f.routes[r].channel in names.pipeline && f.routes[r].route != []
  }

  /** The cells that get a constraint. */
  ghost predicate Placed(f: Floorplan, names: Netlist, c: Cell)
    requires Covers(names, f)
  {
    RegionOf(f, c).Some?
  }

  /** The netlist instance that the pattern of a cell begins with. */
  ghost function Owner(f: Floorplan, names: Netlist, c: Cell): string
    requires Covers(names, f) && Placed(f, names, c)
  {
    if c.Instance? then names.cellName[c.name] else PipelineOf(f, names, c.route)
  }

  ghost function Pattern(f: Floorplan, names: Netlist, c: Cell): string
    requires Covers(names, f) && Placed(f, names, c)
  {
    START + Escape(Owner(f, names, c)) + Suffix(c)
  }

  // ----- reading a pattern back

  /** The tenth character from the end tells the kinds of pattern apart. */
  function Mark(c: Cell): char {
    match c
    case Instance(_) => 'o'
    case Head(_) => 'E'
    case Body(_, _) => 'R'
    case Tail(_) => 'A'
  }

  lemma SuffixHasMark(c: Cell)
    ensures |Suffix(c)| >= 10 && Suffix(c)[|Suffix(c)| - 10] == Mark(c)
  {
    match c
    case Instance(_) => assert Suffix(c) == "(_fifo)?(/.*)?$";
    case Head(_) => assert Suffix(c) == "/TAPA_HS_HEAD(_GATE)?(/.*)?$";
    case Body(_, i) =>
      assert Suffix(c)[|Suffix(c)| - 10] == BODY_REG[|BODY_REG| - 10];
    case Tail(_) => assert Suffix(c) == "/TAPA_HS_TAIL(/.*)?$";
  }

  lemma SameEnd(a: string, s: string, b: string, t: string)
    requires a + s == b + t && |s| == |t|
    ensures a == b && s == t
  {
    assert (a + s)[..|a|] == a && (b + t)[..|b|] == b;
    assert (a + s)[|a|..] == s && (b + t)[|b|..] == t;
  }

  lemma SameMark(x: string, a: Cell, y: string, b: Cell)
    requires x + Suffix(a) == y + Suffix(b)
    ensures Mark(a) == Mark(b)
  {
    SuffixHasMark(a);
    SuffixHasMark(b);
    var p := x + Suffix(a);
    assert p[|p| - 10] == Suffix(a)[|Suffix(a)| - 10];
    assert p[|p| - 10] == Suffix(b)[|Suffix(b)| - 10];
  }

  /** A number after a bracket can be read back. */
  lemma SameNumber(x: string, i: nat, y: string, j: nat)
    requires x + Digits(i) == y + Digits(j)
    requires x != "" && x[|x| - 1] == '[' && y != "" && y[|y| - 1] == '['
    ensures x == y && i == j
  {
    OnlyDigitsAfter(x, i);
    OnlyDigitsAfter(y, j);
    var p := x + Digits(i);
    assert p[|x| - 1] == '[' && p[|y| - 1] == '[';
    SameEnd(x, Digits(i), y, Digits(j));
    ValueOfDigits(i);
    ValueOfDigits(j);
  }

  lemma OnlyDigitsAfter(x: string, i: nat)
    ensures forall k :: |x| <= k < |x + Digits(i)| ==> IsDigit((x + Digits(i))[k])
  {
    forall k | |x| <= k < |x + Digits(i)|
      ensures IsDigit((x + Digits(i))[k])
    {
      assert (x + Digits(i))[k] == Digits(i)[k - |x|];
    }
  }

  /** So can the number between two fixed texts, the first of which ends in a bracket. */
  lemma SameBetween(x: string, i: nat, y: string, j: nat, open: string, close: string)
    requires open != "" && open[|open| - 1] == '['
    requires x + (open + Digits(i) + close) == y + (open + Digits(j) + close)
    ensures x == y && i == j
  {
    assert x + (open + Digits(i) + close) == (x + open + Digits(i)) + close;
    assert y + (open + Digits(j) + close) == (y + open + Digits(j)) + close;
    SameEnd(x + open + Digits(i), close, y + open + Digits(j), close);
    SameNumber(x + open, i, y + open, j);
    SameEnd(x, open, y, open);
  }

  /** Two cells of the same kind: instances, heads, the same body stage, or tails. */
  predicate SameStage(a: Cell, b: Cell) {
    match a
    case Instance(_) => b.Instance?
    case Head(_) => b.Head?
    case Body(_, i) => b.Body? && b.index == i
    case Tail(_) => b.Tail?
  }

  lemma SameSuffix(x: string, a: Cell, y: string, b: Cell)
    requires x + Suffix(a) == y + Suffix(b)
    ensures x == y && SameStage(a, b)
  {
    SameMark(x, a, y, b);
    if a.Body? {
      SameBetween(x, a.index, y, b.index, BODY, BODY_REG);
    } else {
      SameEnd(x, Suffix(a), y, Suffix(b));
    }
  }

  /** Two patterns are equal exactly for the same stage of equally named instances. */
  lemma PatternTellsOwnerAndStage(f: Floorplan, names: Netlist, a: Cell, b: Cell)
    requires Covers(names, f) && Placed(f, names, a) && Placed(f, names, b)
    ensures Pattern(f, names, a) == Pattern(f, names, b) <==>
            Owner(f, names, a) == Owner(f, names, b) && SameStage(a, b)
  {
    var x, y := Escape(Owner(f, names, a)), Escape(Owner(f, names, b));
    if Pattern(f, names, a) == Pattern(f, names, b) {
      SameSuffix(START + x, a, START + y, b);
      assert (START + x)[|START|..] == x && (START + y)[|START|..] == y;
      EscapeIsInjective(Owner(f, names, a), Owner(f, names, b));
    }
  }

  function PipelineOf(f: Floorplan, names: Netlist, r: nat): string
    requires r < |f.routes| && f.routes[r].channel in names.pipeline
  {
    names.pipeline[f.routes[r].channel]
  }

  /** An instance constrained as a whole. */
  predicate Whole(f: Floorplan, name: string) {
    name in f.regions && !Routed(f, name)
  }

  /** No two routes share a pipeline name, and no two instances constrained as a whole share a cell name. */
  ghost predicate NamesApart(f: Floorplan, names: Netlist)
    requires Covers(names, f)
  {
    && (forall q, r :: 0 <= q < r < |f.routes| ==> PipelineOf(f, names, q) != PipelineOf(f, names, r))
    && (forall m, n :: Whole(f, m) && Whole(f, n) && m != n ==> names.cellName[m] != names.cellName[n])
  }

  ghost predicate PatternsApart(f: Floorplan, names: Netlist)
    requires Covers(names, f)
  {
    forall a, b :: Placed(f, names, a) && Placed(f, names, b) && a != b ==> Pattern(f, names, a) != Pattern(f, names, b)
  }

  /** Distinct cells have distinct patterns if and only if the names are apart. In particular, two routes of one
      channel give each of their stages the same pattern twice. */
  lemma PatternsApartIffNamesApart(f: Floorplan, names: Netlist)
    requires Covers(names, f)
    ensures PatternsApart(f, names) <==> NamesApart(f, names)
  {
    if NamesApart(f, names) {
      forall a, b | Placed(f, names, a) && Placed(f, names, b) && a != b
        ensures Pattern(f, names, a) != Pattern(f, names, b)
      {
        PatternTellsOwnerAndStage(f, names, a, b);
      }
    }
    if PatternsApart(f, names) {
      forall q, r | 0 <= q < r < |f.routes|
        ensures PipelineOf(f, names, q) != PipelineOf(f, names, r)
      {
        PatternTellsOwnerAndStage(f, names, Head(q), Head(r));
      }
      forall m, n | Whole(f, m) && Whole(f, n) && m != n
        ensures names.cellName[m] != names.cellName[n]
      {
        PatternTellsOwnerAndStage(f, names, Instance(m), Instance(n));
      }
    }
  }

  // ----- what a pattern matches

  /** An instance and the FIFO that goes by its name. */
  function Spelling(name: string, fifo: bool): string {
    if fifo then name + "_fifo" else name
  }

  /** `text` is the whole component of `path` that starts at `i`. */
  ghost predicate IsComponent(path: string, i: nat, text: string) {
    && i + |text| <= |path| && path[i..i + |text|] == text
    && (i == 0 || path[i - 1] == '/') && (i + |text| == |path| || path[i + |text|] == '/')
  }

  /** The pattern of the whole instance `name` matches `path` by the component that starts at `i`. */
  ghost predicate MatchesAt(name: string, path: string, i: nat) {
    exists fifo :: IsComponent(path, i, Spelling(name, fifo))
  }

  /** A component is known by where it starts. */
  lemma OneComponent(path: string, i: nat, s: string, t: string)
    requires IsComponent(path, i, s) && IsComponent(path, i, t) && '/' !in s && '/' !in t
    ensures s == t
  {
    NoLonger(path, i, s, t);
    NoLonger(path, i, t, s);
    assert path[i..i + |s|] == path[i..i + |t|];
  }

  lemma NoLonger(path: string, i: nat, s: string, t: string)
    requires IsComponent(path, i, s) && IsComponent(path, i, t) && '/' !in t
    ensures |t| <= |s|
  {
    forall j | i <= j < i + |t|
      ensures path[j] != '/'
    {
      assert t[j - i] == path[i..i + |t|][j - i] == path[j];
    }
    assert i + |s| < |path| ==> path[i + |s|] == '/';
  }

  /** The names are equal, or differ by the suffix of a FIFO. */
  predicate SuffixApart(m: string, n: string) {
    m == n || m == n + "_fifo" || n == m + "_fifo"
  }

  lemma SpellingsMeet(m: string, n: string, p: bool, q: bool)
    requires Spelling(m, p) == Spelling(n, q)
    ensures SuffixApart(m, n)
  {
    if p && q {
      assert (m + "_fifo")[..|m|] == m && (n + "_fifo")[..|n|] == n;
    }
  }

  lemma SpellingHasNoSlash(name: string, fifo: bool)
    requires '/' !in name
    ensures '/' !in Spelling(name, fifo)
  {
  }

  lemma SharedMeansSuffix(m: string, n: string, path: string, i: nat)
    requires '/' !in m && '/' !in n && MatchesAt(m, path, i) && MatchesAt(n, path, i)
    ensures SuffixApart(m, n)
  {
    var p :| IsComponent(path, i, Spelling(m, p));
    var q :| IsComponent(path, i, Spelling(n, q));
    SpellingHasNoSlash(m, p);
    SpellingHasNoSlash(n, q);
    OneComponent(path, i, Spelling(m, p), Spelling(n, q));
    SpellingsMeet(m, n, p, q);
  }

  lemma SuffixMeansShared(m: string, n: string) returns (path: string)
    requires SuffixApart(m, n)
    ensures MatchesAt(m, path, 0) && MatchesAt(n, path, 0)
  {
    if m == n + "_fifo" {
      path := m;
      MatchesItself(m, n, true);
    } else {
      path := n;
      MatchesItself(n, m, n != m);
    }
  }

  /** Two whole-instance patterns match some path by one and the same component if and only if the names are equal or
      differ by the suffix of a FIFO. */
  lemma SharedComponentIff(m: string, n: string)
    requires '/' !in m && '/' !in n
    ensures (exists path: string, i: nat :: MatchesAt(m, path, i) && MatchesAt(n, path, i)) <==> SuffixApart(m, n)
  {
    if path: string, i: nat :| MatchesAt(m, path, i) && MatchesAt(n, path, i) {
      SharedMeansSuffix(m, n, path, i);
    }
    if SuffixApart(m, n) {
      var path := SuffixMeansShared(m, n);
    }
  }

  /** The path that is just `path` is matched by the pattern of `path` and by that of the name it is a spelling of. */
  lemma MatchesItself(path: string, name: string, fifo: bool)
    requires path == Spelling(name, fifo)
    ensures MatchesAt(path, path, 0) && MatchesAt(name, path, 0)
  {
    assert path[0..|path|] == path;
    assert IsComponent(path, 0, Spelling(path, false)) && IsComponent(path, 0, Spelling(name, fifo));
  }

  /** By different components two patterns always have a path in common: a cell inside the other. */
  lemma NestedPathIsShared(m: string, n: string)
    ensures MatchesAt(m, m + "/" + n, 0) && MatchesAt(n, m + "/" + n, |m| + 1)
  {
    var path := m + "/" + n;
    assert path[0..|m|] == m && path[|m| + 1..|path|] == n;
    assert IsComponent(path, 0, Spelling(m, false)) && IsComponent(path, |m| + 1, Spelling(n, false));
  }

  /** In a valid floorplan whose cell names are apart, no component of any path is matched by the patterns of two whole
      instances. */
  lemma ValidPatternsShareNothing(f: Floorplan, d: Device, names: Netlist, a: string, b: string, path: string, i: nat)
    requires Covers(names, f) && ValidResult(f, d, names.cellName) && NamesApart(f, names)
    requires Whole(f, a) && Whole(f, b) && a != b && '/' !in names.cellName[a] && '/' !in names.cellName[b]
    ensures !(MatchesAt(names.cellName[a], path, i) && MatchesAt(names.cellName[b], path, i))
  {
    if MatchesAt(names.cellName[a], path, i) && MatchesAt(names.cellName[b], path, i) {
      SharedMeansSuffix(names.cellName[a], names.cellName[b], path, i);
    }
  }
}
