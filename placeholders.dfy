/**
 * The placeholder patterns of output paths, declared identically in
 * parse.go:187-188 and span.go:94-95:
 *
 *   varPattern  \{([^|}]+)\}            a plain placeholder `{name}`
 *   fmtPattern  \{([^|}]+)\|([^}]+)\}   a formatted placeholder `{name|format}`
 *
 * FindAllStringSubmatch reports the leftmost match, then searches again
 * after its end. Because the classes stop at `|` and `}`, each pattern can
 * only match at a `{` in one way, so both scans are plain left-to-right
 * string scans here.
 */
module Placeholders {

  /** The first position at or after `pos` holding `|` or `}`, else `|s|`. */
  function NameEnd(s: string, pos: nat): (e: nat)
    requires pos <= |s|
    ensures pos <= e <= |s|
    ensures forall i | pos <= i < e :: s[i] != '|' && s[i] != '}'
    ensures e < |s| ==> s[e] == '|' || s[e] == '}'
    decreases |s| - pos
  {
    if pos == |s| || s[pos] == '|' || s[pos] == '}' then pos else NameEnd(s, pos + 1)
  }

  /** The first position at or after `pos` holding `}`, else `|s|`. */
  function CloseEnd(s: string, pos: nat): (e: nat)
    requires pos <= |s|
    ensures pos <= e <= |s|
    ensures forall i | pos <= i < e :: s[i] != '}'
    ensures e < |s| ==> s[e] == '}'
    decreases |s| - pos
  {
    if pos == |s| || s[pos] == '}' then pos else CloseEnd(s, pos + 1)
  }

  /** A name as `[^|}]+` captures it. */
  predicate NameChars(n: string) {
    n != [] && '|' !in n && '}' !in n
  }

  /** A format as `[^}]+` captures it. */
  predicate FormatChars(f: string) {
    f != [] && '}' !in f
  }

  /** The captured name of every varPattern match of `s`, left to right. */
  function VarNames(s: string): (r: seq<string>)
    ensures forall n | n in r :: NameChars(n)
    decreases |s|
  {
    if s == [] then []
    else
      var e := NameEnd(s, 1);
      if s[0] == '{' && 1 < e < |s| && s[e] == '}' then
        assert '|' !in s[1..e] && '}' !in s[1..e];
        [s[1..e]] + VarNames(s[e + 1..])
      else VarNames(s[1..])
  }

  /** One fmtPattern match: the two captured groups. */
  datatype FmtMatch = FmtMatch(name: string, format: string)

  /** The captured groups of every fmtPattern match of `s`, left to right. */
  function FmtMatches(s: string): (r: seq<FmtMatch>)
    ensures forall m | m in r :: NameChars(m.name) && FormatChars(m.format)
    decreases |s|
  {
    if s == [] then []
    else
      var e1 := NameEnd(s, 1);
      if s[0] == '{' && 1 < e1 < |s| && s[e1] == '|' then
        var e2 := CloseEnd(s, e1 + 1);
        if e1 + 1 < e2 < |s| then
          assert '|' !in s[1..e1] && '}' !in s[1..e1];
          assert '}' !in s[e1 + 1..e2];
          [FmtMatch(s[1..e1], s[e1 + 1..e2])] + FmtMatches(s[e2 + 1..])
        else FmtMatches(s[1..])
      else FmtMatches(s[1..])
  }

  /** The names of the formatted placeholders, in order. */
  function FmtNames(ms: seq<FmtMatch>): (r: seq<string>)
    ensures |r| == |ms| && forall i | 0 <= i < |ms| :: r[i] == ms[i].name
  {
    if ms == [] then [] else [ms[0].name] + FmtNames(ms[1..])
  }

  /** `w` occurs in `s` starting at position `p`. */
  predicate OccursAt(w: string, s: string, p: nat) {
    p + |w| <= |s| && s[p..p + |w|] == w
  }

  /** `w` occurs in `s` as a contiguous piece. */
  ghost predicate Occurs(w: string, s: string) {
    exists p: nat :: OccursAt(w, s, p)
  }

  lemma OccursLater(w: string, s: string, k: nat)
    requires k <= |s| && Occurs(w, s[k..])
    ensures Occurs(w, s)
  {
    var p: nat :| OccursAt(w, s[k..], p);
    assert s[k + p..k + p + |w|] == s[k..][p..p + |w|];
    assert OccursAt(w, s, k + p);
  }

  /** Every reported name appears in the path between braces. */
  lemma {:induction false} VarNamesOccur(s: string)
    ensures forall n | n in VarNames(s) :: Occurs("{" + n + "}", s)
    decreases |s|
  {
    if s != [] {
      var e := NameEnd(s, 1);
      if s[0] == '{' && 1 < e < |s| && s[e] == '}' {
        VarNamesOccur(s[e + 1..]);
        forall n | n in VarNames(s) ensures Occurs("{" + n + "}", s) {
          if n == s[1..e] {
            assert s[0..e + 1] == "{" + n + "}";
            assert OccursAt("{" + n + "}", s, 0);
          } else {
            OccursLater("{" + n + "}", s, e + 1);
          }
        }
      } else {
        VarNamesOccur(s[1..]);
        forall n | n in VarNames(s) ensures Occurs("{" + n + "}", s) {
          OccursLater("{" + n + "}", s, 1);
        }
      }
    }
  }

  /** Every formatted match appears in the path as `{name|format}`. */
  lemma {:induction false} FmtMatchesOccur(s: string)
    ensures forall m | m in FmtMatches(s) :: Occurs(Spelled(m), s)
    decreases |s|
  {
    if s != [] {
      var e1 := NameEnd(s, 1);
      if s[0] == '{' && 1 < e1 < |s| && s[e1] == '|' && e1 + 1 < CloseEnd(s, e1 + 1) < |s| {
        var e2 := CloseEnd(s, e1 + 1);
        var first := FmtMatch(s[1..e1], s[e1 + 1..e2]);
        assert FmtMatches(s) == [first] + FmtMatches(s[e2 + 1..]);
        FmtMatchesOccur(s[e2 + 1..]);
        AllOccurLater(FmtMatches(s[e2 + 1..]), s, e2 + 1);
        SpelledAtStart(s, e1, e2);
        OccursCons(s, first, FmtMatches(s[e2 + 1..]));
      } else {
        assert FmtMatches(s) == FmtMatches(s[1..]);
        FmtMatchesOccur(s[1..]);
        AllOccurLater(FmtMatches(s[1..]), s, 1);
      }
    }
  }

  lemma AllOccurLater(ms: seq<FmtMatch>, s: string, k: nat)
    requires k <= |s| && forall m | m in ms :: Occurs(Spelled(m), s[k..])
    ensures forall m | m in ms :: Occurs(Spelled(m), s)
  {
    forall m | m in ms ensures Occurs(Spelled(m), s) {
      OccursLater(Spelled(m), s, k);
    }
  }

  lemma OccursCons(s: string, first: FmtMatch, rest: seq<FmtMatch>)
    requires OccursAt(Spelled(first), s, 0)
    requires forall m | m in rest :: Occurs(Spelled(m), s)
    ensures forall m | m in [first] + rest :: Occurs(Spelled(m), s)
  {
  }

  lemma SpelledAtStart(s: string, e1: nat, e2: nat)
    requires 1 < e1 < e2 < |s| && s[0] == '{' && s[e1] == '|' && s[e2] == '}'
    ensures OccursAt(Spelled(FmtMatch(s[1..e1], s[e1 + 1..e2])), s, 0)
  {
    assert s[0..e2 + 1] == Spelled(FmtMatch(s[1..e1], s[e1 + 1..e2]));
  }

  /** How a formatted match is written in the path. */
  function Spelled(m: FmtMatch): string {
    "{" + m.name + "|" + m.format + "}"
  }

  /**
   * A piece of an output path as a user writes it: literal text, a plain
   * placeholder, or a formatted one.
   */
  datatype Piece =
    | Text(text: string)
    | Plain(name: string)
    | Formatted(name: string, format: string)

  /** Pieces that read back as written: text has no `{`, names and formats no braces. */
  predicate WellWritten(p: Piece) {
    match p
    case Text(t) => '{' !in t
    case Plain(n) => NameChars(n) && '{' !in n
    case Formatted(n, f) => NameChars(n) && '{' !in n && FormatChars(f) && '{' !in f
  }

  function Spell(p: Piece): string {
    match p
    case Text(t) => t
    case Plain(n) => "{" + n + "}"
    case Formatted(n, f) => "{" + n + "|" + f + "}"
  }

  /** The output path spelled by a list of pieces. */
  function PathOf(ps: seq<Piece>): string {
    if ps == [] then [] else Spell(ps[0]) + PathOf(ps[1..])
  }

  function PlainNames(ps: seq<Piece>): seq<string> {
    if ps == [] then []
    else (if ps[0].Plain? then [ps[0].name] else []) + PlainNames(ps[1..])
  }

  function FormattedOf(ps: seq<Piece>): seq<FmtMatch> {
    if ps == [] then []
    else (if ps[0].Formatted? then [FmtMatch(ps[0].name, ps[0].format)] else []) + FormattedOf(ps[1..])
  }

  lemma {:induction false} NameEndAt(s: string, pos: nat, e: nat)
    requires pos <= e < |s| && (s[e] == '|' || s[e] == '}')
    requires forall i | pos <= i < e :: s[i] != '|' && s[i] != '}'
    ensures NameEnd(s, pos) == e
    decreases e - pos
  {
    if pos < e {
      NameEndAt(s, pos + 1, e);
    }
  }

  lemma {:induction false} CloseEndAt(s: string, pos: nat, e: nat)
    requires pos <= e < |s| && s[e] == '}'
    requires forall i | pos <= i < e :: s[i] != '}'
    ensures CloseEnd(s, pos) == e
    decreases e - pos
  {
    if pos < e {
      CloseEndAt(s, pos + 1, e);
    }
  }

  /** Text without `{` holds no match of either pattern. */
  lemma {:induction false} SkipText(t: string, rest: string)
    requires '{' !in t
    ensures VarNames(t + rest) == VarNames(rest)
    ensures FmtMatches(t + rest) == FmtMatches(rest)
    decreases |t|
  {
    if t != [] {
      assert t[0] in t;
      assert (t + rest)[0] == t[0] != '{';
      assert (t + rest)[1..] == t[1..] + rest;
      SkipText(t[1..], rest);
    } else {
      assert t + rest == rest;
    }
  }

  lemma PlainStep(n: string, rest: string)
    requires NameChars(n) && '{' !in n
    ensures VarNames("{" + n + "}" + rest) == [n] + VarNames(rest)
    ensures FmtMatches("{" + n + "}" + rest) == FmtMatches(rest)
  {
    var s := "{" + n + "}" + rest;
    var e := |n| + 1;
    assert s[e] == '}';
    forall i | 1 <= i < e ensures s[i] != '|' && s[i] != '}' {
      assert s[i] == n[i - 1];
    }
    NameEndAt(s, 1, e);
    assert s[1..e] == n;
    assert s[e + 1..] == rest;
    assert s[1..] == n + "}" + rest;
    SkipText(n + "}", rest);
  }

  lemma FormattedStep(n: string, f: string, rest: string)
    requires NameChars(n) && '{' !in n && FormatChars(f) && '{' !in f
    ensures VarNames("{" + n + "|" + f + "}" + rest) == VarNames(rest)
    ensures FmtMatches("{" + n + "|" + f + "}" + rest) == [FmtMatch(n, f)] + FmtMatches(rest)
  {
    var s := "{" + n + "|" + f + "}" + rest;
    var e1 := |n| + 1;
    var e2 := e1 + 1 + |f|;
    assert s[e1] == '|' && s[e2] == '}';
    forall i | 1 <= i < e1 ensures s[i] != '|' && s[i] != '}' {
      assert s[i] == n[i - 1];
    }
    forall i | e1 + 1 <= i < e2 ensures s[i] != '}' {
      assert s[i] == f[i - e1 - 1];
    }
    NameEndAt(s, 1, e1);
    CloseEndAt(s, e1 + 1, e2);
    assert s[1..e1] == n && s[e1 + 1..e2] == f;
    assert s[e2 + 1..] == rest;
    assert s[1..] == n + "|" + f + "}" + rest;
    SkipText(n + "|" + f + "}", rest);
  }

  /** Scanning a path spelled from well-written pieces finds exactly its plain placeholders. */
  lemma {:induction false} VarNamesOfPath(ps: seq<Piece>)
    requires forall p | p in ps :: WellWritten(p)
    ensures VarNames(PathOf(ps)) == PlainNames(ps)
    ensures FmtMatches(PathOf(ps)) == FormattedOf(ps)
  {
    if ps != [] {
      assert ps[0] in ps;
      assert forall p | p in ps[1..] :: p in ps;
      VarNamesOfPath(ps[1..]);
      var rest := PathOf(ps[1..]);
      match ps[0]
      case Text(t) =>
        SkipText(t, rest);
      case Plain(n) =>
        PlainStep(n, rest);
      case Formatted(n, f) =>
        FormattedStep(n, f, rest);
    }
  }
}
