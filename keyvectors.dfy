/**
 * The test vectors of parse_test.go:5-72, checked against the model of
 * ParseKeySet: the token stream of each input is worked out with the
 * scanner's step lemmas, and the parser's verdict follows.
 */
module KeyVectors {
  import opened Results
  import opened Scanner
  import opened KeyGrammar

  lemma IdentStep(s: string, pos: nat, p: nat, e: nat, x: string)
    requires pos <= p < e <= |s| && s[p..e] == x
    requires forall i | pos <= i < p :: IsSpace(s[i])
    requires IsLetter(s[p])
    requires forall i | p < i < e :: IsLetter(s[i]) || IsDigit(s[i])
    requires e < |s| ==> !IsLetter(s[e]) && !IsDigit(s[e])
    ensures TokensFrom(s, pos) == [Ident(x)] + TokensFrom(s, e)
  {
    ScanIdentAt(s, pos, p, e);
    ScannedStep(s, pos, Ident(x), e);
  }

  lemma IntStep(s: string, pos: nat, p: nat, e: nat, x: string)
    requires pos <= p < e <= |s| && s[p..e] == x
    requires forall i | pos <= i < p :: IsSpace(s[i])
    requires forall i | p <= i < e :: IsDigit(s[i])
    requires e < |s| ==> !IsDigit(s[e])
    ensures TokensFrom(s, pos) == [Int(x)] + TokensFrom(s, e)
  {
    ScanIntAt(s, pos, p, e);
    ScannedStep(s, pos, Int(x), e);
  }

  lemma OtherStep(s: string, pos: nat, p: nat)
    requires pos <= p < |s|
    requires forall i | pos <= i < p :: IsSpace(s[i])
    requires !IsSpace(s[p]) && !IsLetter(s[p]) && !IsDigit(s[p]) && s[p] != '"'
    ensures TokensFrom(s, pos) == [Other(s[p])] + TokensFrom(s, p + 1)
  {
    ScanOtherAt(s, pos, p);
    ScannedStep(s, pos, Other(s[p]), p + 1);
  }

  lemma StringStep(s: string, pos: nat, p: nat, q: nat, raw: string)
    requires pos <= p < q < |s| && s[p..q + 1] == raw
    requires forall i | pos <= i < p :: IsSpace(s[i])
    requires s[p] == '"' && s[q] == '"'
    requires forall i | p < i < q :: s[i] != '"' && s[i] != '\\' && s[i] != '\n'
    ensures TokensFrom(s, pos) == [Str(raw)] + TokensFrom(s, q + 1)
  {
    ScanPlainStringAt(s, pos, p, q);
    ScannedStep(s, pos, Str(raw), q + 1);
  }

  lemma DotStep(toks: seq<Token>, k: Key, ks: seq<Key>, seg: string)
    requires |toks| >= 2 && Section(toks[0]) == Ok(seg) && toks[1] == Other('.')
    ensures ParseSections(toks, k, ks) == ParseSections(toks[2..], k + [seg], ks)
  {
  }

  lemma CommaStep(toks: seq<Token>, k: Key, ks: seq<Key>, seg: string)
    requires |toks| >= 2 && Section(toks[0]) == Ok(seg) && toks[1] == Other(',')
    ensures ParseSections(toks, k, ks) == ParseSections(toks[2..], [], ks + [k + [seg]])
  {
  }

  /** A quoted segment without escapes reads as its body. */
  lemma PlainSegment(raw: string, body: string)
    requires raw == ['"'] + body + ['"'] && body != []
    requires forall i | 0 <= i < |body| :: body[i] != '"' && body[i] != '\\' && body[i] != '\n'
    ensures Section(Str(raw)) == Ok(body)
  {
    assert raw[1..|raw| - 1] == body;
    UnescapePlain(body);
  }

  /**
   * PlainSegment for the quoted bodies of the test vectors, each a literal
   * without quotes, backslashes or newlines.
   */
  lemma LiteralSegment(raw: string, body: string)
    requires body in {"a b", "-ab-", "'q", "\U{1F642}", "\U{1F610}", "\U{2639}\U{FE0F}"}
    requires raw == ['"'] + body + ['"']
    ensures Section(Str(raw)) == Ok(body)
  {
    PlainSegment(raw, body);
  }

  lemma LastStep(toks: seq<Token>, k: Key, ks: seq<Key>, seg: string)
    requires |toks| == 1 && Section(toks[0]) == Ok(seg)
    ensures ParseSections(toks, k, ks) == Ok(ks + [k + [seg]])
  {
  }

  // ---------------------------------------------------------------------
  // Accepted inputs (parse_test.go:5-43).
  // ---------------------------------------------------------------------

  /** A key of two segments separated by a dot. */
  lemma DottedPair(toks: seq<Token>, x: string, y: string)
    requires |toks| == 3 && Section(toks[0]) == Ok(x) && toks[1] == Other('.') && Section(toks[2]) == Ok(y)
    ensures ParseSections(toks, [], []) == Ok([[x, y]])
  {
    DotStep(toks, [], [], x);
    assert [] + [x] == [x];
    LastStep(toks[2..], [x], [], y);
    assert [x] + [y] == [x, y];
    assert [] + [[x, y]] == [[x, y]];
  }

  /** Whitespace around segments and separators is dropped. */
  lemma SpacedKey()
    ensures KeySetOf(" a . b ") == Ok([["a", "b"]])
  {
    var s := " a . b ";
    assert |s| == 7 && s[0] == s[2] == s[4] == s[6] == ' ' && s[1] == 'a' && s[3] == '.' && s[5] == 'b';
    assert s[1..2] == "a" && s[5..6] == "b";
    SpacedKeyTokens(s);
    DottedPair([Ident("a"), Other('.'), Ident("b")], "a", "b");
  }

  lemma SpacedKeyTokens(s: string)
    requires |s| == 7 && s[0] == s[2] == s[4] == s[6] == ' ' && s[1] == 'a' && s[3] == '.' && s[5] == 'b'
    requires s[1..2] == "a" && s[5..6] == "b"
    ensures Tokens(s) == [Ident("a"), Other('.'), Ident("b")]
  {
    ScanEndAt(s, 6);
    IdentStep(s, 4, 5, 6, "b");
    assert [Ident("b")] + [] == [Ident("b")];
    OtherStep(s, 2, 3);
    IdentStep(s, 0, 1, 2, "a");
    TwoTokens(Ident("a"), Other('.'), [Ident("b")]);
  }

  /** Line breaks and tabs count as whitespace too. */
  lemma MixedSpaceKey()
    ensures KeySetOf("a. \t\r\nb") == Ok([["a", "b"]])
  {
    MixedSpaceKeyTokens("a. \t\r\nb");
    DottedPair([Ident("a"), Other('.'), Ident("b")], "a", "b");
  }

  lemma MixedSpaceKeyTokens(s: string)
    requires s == "a. \t\r\nb"
    ensures Tokens(s) == [Ident("a"), Other('.'), Ident("b")]
  {
    assert |s| == 7 && s[1] == '.' && s[2] == ' ' && s[3] == '\t' && s[4] == '\r' && s[5] == '\n';
    assert s[0..1] == "a" && s[6..7] == "b";
    ScanEndAt(s, 7);
    IdentStep(s, 2, 6, 7, "b");
    assert TokensFrom(s, 2) == [Ident("b")];
    OtherStep(s, 1, 1);
    assert TokensFrom(s, 1) == [Other('.'), Ident("b")];
    IdentStep(s, 0, 0, 1, "a");
  }

  /** Numbers are segments, and `.` between digits separates: `1.2` is two segments. */
  lemma NumberKey()
    ensures KeySetOf("1.2") == Ok([["1", "2"]])
  {
    NumberKeyTokens("1.2");
    DottedPair([Int("1"), Other('.'), Int("2")], "1", "2");
  }

  lemma NumberKeyTokens(s: string)
    requires s == "1.2"
    ensures Tokens(s) == [Int("1"), Other('.'), Int("2")]
  {
    assert s[0..1] == "1" && s[2..3] == "2";
    IntStep(s, 0, 0, 1, "1");
    OtherStep(s, 1, 1);
    IntStep(s, 2, 2, 3, "2");
    ScanEndAt(s, 3);
  }

  /** A quoted segment may hold a space, and is unquoted. */
  lemma QuotedKey()
    ensures KeySetOf("\"a b\".c") == Ok([["a b", "c"]])
  {
    var s := "\"a b\".c";
    QuotedKeyTokens(s);
    QuotedKeyParse(Tokens(s));
  }

  lemma QuotedKeyParse(toks: seq<Token>)
    requires toks == [Str("\"a b\""), Other('.'), Ident("c")]
    ensures ParseSections(toks, [], []) == Ok([["a b", "c"]])
  {
    LiteralSegment("\"a b\"", "a b");
    DottedPair(toks, "a b", "c");
  }

  lemma QuotedKeyTokens(s: string)
    requires s == "\"a b\".c"
    ensures Tokens(s) == [Str("\"a b\""), Other('.'), Ident("c")]
  {
    var raw := "\"a b\"";
    assert s[0..5] == raw && s[6..7] == "c";
    StringStep(s, 0, 0, 4, raw);
    OtherStep(s, 5, 5);
    IdentStep(s, 6, 6, 7, "c");
    ScanEndAt(s, 7);
  }

  /** A token the scanner returns at `pos` heads the stream from `pos`. */
  lemma ScannedStep(s: string, pos: nat, tok: Token, next: nat)
    requires pos <= |s| && Scan(s, pos) == (tok, next) && tok != EOF
    ensures TokensFrom(s, pos) == [tok] + TokensFrom(s, next)
  {
  }

  /** An input that is one quoted literal, written with EscapeBody, is the one-segment key `t`. */
  lemma {:induction false} QuotedOnly(s: string, t: string)
    requires t != [] && s == ['"'] + EscapeBody(t) + ['"']
    ensures KeySetOf(s) == Ok([[t]])
  {
    var q := |EscapeBody(t)| + 1;
    assert s[1..q] == EscapeBody(t) && s[0..q + 1] == s;
    ScanStringAt(s, 0, 0, q, t);
    ScannedStep(s, 0, Str(s), q + 1);
    ScanEndAt(s, q + 1);
    assert Tokens(s) == [Str(s)];
    LastStep([Str(s)], [], [], t);
    assert [] + [t] == [t];
    assert [] + [[t]] == [[t]];
  }

  /** An escaped quote inside a quoted segment is part of the segment, as are `.`, ` ` and a tab. */
  lemma EscapedQuoteKey()
    ensures KeySetOf("\"a.\\\". b.\tc\"") == Ok([["a.\". b.\tc"]])
  {
    EscapedQuoteBody();
    assert "\"a.\\\". b.\tc\"" == ['"'] + "a.\\\". b.\tc" + ['"'];
    QuotedOnly("\"a.\\\". b.\tc\"", "a.\". b.\tc");
  }

  /** The body of the literal: only the quote needs an escape. */
  lemma EscapedQuoteBody()
    ensures EscapeBody("a.\". b.\tc") == "a.\\\". b.\tc"
  {
    var x, y := "a.", ". b.\tc";
    QuoteSplit(x, y, "a.\". b.\tc", "a.\\\". b.\tc");
    EscapeQuoteBetween(x, y);
  }

  lemma QuoteSplit(x: string, y: string, s: string, e: string)
    requires x == "a." && y == ". b.\tc" && s == "a.\". b.\tc" && e == "a.\\\". b.\tc"
    ensures x + ['"'] + y == s && x + ['\\', '"'] + y == e
    ensures forall i | 0 <= i < |x| :: x[i] != '"' && x[i] != '\\' && x[i] != '\n'
    ensures forall i | 0 <= i < |y| :: y[i] != '"' && y[i] != '\\' && y[i] != '\n'
  {
  }

  /** A quote between two plain texts is the only character that gets escaped. */
  lemma EscapeQuoteBetween(x: string, y: string)
    requires forall i | 0 <= i < |x| :: x[i] != '"' && x[i] != '\\' && x[i] != '\n'
    requires forall i | 0 <= i < |y| :: y[i] != '"' && y[i] != '\\' && y[i] != '\n'
    ensures EscapeBody(x + ['"'] + y) == x + ['\\', '"'] + y
  {
    var q: string := ['"'];
    assert EscapeBody(q) == ['\\', '"'] by {
      assert q[1..] == [];
    }
    EscapeBodyPlain(x);
    EscapeBodyPlain(y);
    EscapeBodyAppend(x, q);
    EscapeBodyAppend(x + q, y);
  }

  /** Quoted segments may hold any characters, emoji and variation selectors included. */
  lemma EmojiKey()
    ensures KeySetOf("\"\U{1F642}\".\"\U{1F610}\".\"\U{2639}\U{FE0F}\"")
      == Ok([["\U{1F642}", "\U{1F610}", "\U{2639}\U{FE0F}"]])
  {
    var s := "\"\U{1F642}\".\"\U{1F610}\".\"\U{2639}\U{FE0F}\"";
    var q1, q2, q3 := "\"\U{1F642}\"", "\"\U{1F610}\"", "\"\U{2639}\U{FE0F}\"";
    EmojiKeyChars(s, q1, q2, q3);
    EmojiKeyTokens(s, q1, q2, q3);
    EmojiParse(Tokens(s), q1, q2, q3);
  }

  lemma EmojiParse(toks: seq<Token>, q1: string, q2: string, q3: string)
    requires q1 == "\"\U{1F642}\"" && q2 == "\"\U{1F610}\"" && q3 == "\"\U{2639}\U{FE0F}\""
    requires toks == [Str(q1), Other('.')] + [Str(q2), Other('.'), Str(q3)]
    ensures ParseSections(toks, [], []) == Ok([["\U{1F642}", "\U{1F610}", "\U{2639}\U{FE0F}"]])
  {
    LiteralSegment(q1, "\U{1F642}");
    LiteralSegment(q2, "\U{1F610}");
    LiteralSegment(q3, "\U{2639}\U{FE0F}");
    ThreeSegments(toks, "\U{1F642}", "\U{1F610}", "\U{2639}\U{FE0F}");
  }

  lemma EmojiKeyChars(s: string, q1: string, q2: string, q3: string)
    requires s == "\"\U{1F642}\".\"\U{1F610}\".\"\U{2639}\U{FE0F}\""
    requires q1 == "\"\U{1F642}\"" && q2 == "\"\U{1F610}\"" && q3 == "\"\U{2639}\U{FE0F}\""
    ensures |s| == 12 && s[0] == s[2] == s[4] == s[6] == s[8] == s[11] == '"' && s[3] == s[7] == '.'
    ensures s[1] == '\U{1F642}' && s[5] == '\U{1F610}' && s[9] == '\U{2639}' && s[10] == '\U{FE0F}'
    ensures s[0..3] == q1 && s[4..7] == q2 && s[8..12] == q3
  {
  }

  lemma EmojiKeyTokens(s: string, q1: string, q2: string, q3: string)
    requires |s| == 12 && s[0] == s[2] == s[4] == s[6] == s[8] == s[11] == '"' && s[3] == s[7] == '.'
    requires s[1] == '\U{1F642}' && s[5] == '\U{1F610}' && s[9] == '\U{2639}' && s[10] == '\U{FE0F}'
    requires s[0..3] == q1 && s[4..7] == q2 && s[8..12] == q3
    ensures Tokens(s) == [Str(q1), Other('.')] + [Str(q2), Other('.'), Str(q3)]
  {
    EmojiKeyTail(s, q2, q3);
    OtherStep(s, 3, 3);
    StringStep(s, 0, 0, 2, q1);
    TwoTokens(Str(q1), Other('.'), [Str(q2), Other('.'), Str(q3)]);
  }

  lemma EmojiKeyTail(s: string, q2: string, q3: string)
    requires |s| == 12 && s[4] == s[6] == s[8] == s[11] == '"' && s[7] == '.'
    requires s[5] == '\U{1F610}' && s[9] == '\U{2639}' && s[10] == '\U{FE0F}'
    requires s[4..7] == q2 && s[8..12] == q3
    ensures TokensFrom(s, 4) == [Str(q2), Other('.'), Str(q3)]
  {
    EmojiKeyEnd(s, q3);
    StringStep(s, 4, 4, 6, q2);
    assert [Str(q2)] + [Other('.'), Str(q3)] == [Str(q2), Other('.'), Str(q3)];
  }

  lemma EmojiKeyEnd(s: string, q3: string)
    requires |s| == 12 && s[7] == '.' && s[8] == s[11] == '"' && s[9] == '\U{2639}' && s[10] == '\U{FE0F}' && s[8..12] == q3
    ensures TokensFrom(s, 7) == [Other('.'), Str(q3)]
  {
    ScanEndAt(s, 12);
    StringStep(s, 8, 8, 11, q3);
    assert [Str(q3)] + [] == [Str(q3)];
    OtherStep(s, 7, 7);
  }

  /** A key of three segments separated by dots. */
  lemma ThreeSegments(toks: seq<Token>, x: string, y: string, z: string)
    requires |toks| == 5 && toks[1] == toks[3] == Other('.')
    requires Section(toks[0]) == Ok(x) && Section(toks[2]) == Ok(y) && Section(toks[4]) == Ok(z)
    ensures ParseSections(toks, [], []) == Ok([[x, y, z]])
  {
    DotStep(toks, [], [], x);
    assert [] + [x] == [x];
    DotStep(toks[2..], [x], [], y);
    assert [x] + [y] == [x, y];
    assert toks[2..][2..] == [toks[4]];
    LastStep(toks[2..][2..], [x, y], [], z);
    assert [x, y] + [z] == [x, y, z];
    assert [] + [[x, y, z]] == [[x, y, z]];
  }

  /** A quoted segment may hold `.`, so it does not separate there. */
  lemma QuotedDotKey()
    ensures KeySetOf("\"a.b\"") == Ok([["a.b"]])
  {
    var s := "\"a.b\"";
    QuotedDotKeyTokens(s);
    QuotedDotKeyParse(Tokens(s), s);
  }

  lemma QuotedDotKeyTokens(s: string)
    requires s == "\"a.b\""
    ensures Tokens(s) == [Str(s)]
  {
    assert s[0..5] == s;
    StringStep(s, 0, 0, 4, s);
    ScanEndAt(s, 5);
  }

  lemma QuotedDotKeyParse(toks: seq<Token>, raw: string)
    requires raw == "\"a.b\"" && toks == [Str(raw)]
    ensures ParseSections(toks, [], []) == Ok([["a.b"]])
  {
    PlainSegment(raw, "a.b");
    LastStep(toks, [], [], "a.b");
    assert [] + ["a.b"] == ["a.b"];
    assert [] + [["a.b"]] == [["a.b"]];
  }

  /** Identifiers may be made of non-ASCII letters. */
  lemma CyrillicKey()
    ensures KeySetOf("охватывать") == Ok([["охватывать"]])
  {
    var s := "охватывать";
    assert s[0..|s|] == s;
    IdentStep(s, 0, 0, |s|, s);
    ScanEndAt(s, |s|);
    assert Tokens(s) == [Ident(s)];
    LastStep([Ident(s)], [], [], s);
    assert [] + [s] == [s];
    assert [] + [[s]] == [[s]];
  }

  /** Keys separated by commas, each with its own segments. */
  lemma TwoKeySet()
    ensures KeySetOf("a.b,c ") == Ok([["a", "b"], ["c"]])
  {
    var s := "a.b,c ";
    TwoKeySetTokens(s);
    TwoKeySetParse(Tokens(s));
  }

  lemma TwoKeySetParse(toks: seq<Token>)
    requires toks == [Ident("a"), Other('.'), Ident("b"), Other(','), Ident("c")]
    ensures ParseSections(toks, [], []) == Ok([["a", "b"], ["c"]])
  {
    DotStep(toks, [], [], "a");
    assert [] + ["a"] == ["a"];
    CommaStep(toks[2..], ["a"], [], "b");
    assert ["a"] + ["b"] == ["a", "b"];
    assert [] + [["a", "b"]] == [["a", "b"]];
    assert toks[2..][2..] == [Ident("c")];
    LastStep(toks[2..][2..], [], [["a", "b"]], "c");
    assert [] + ["c"] == ["c"];
    assert [["a", "b"]] + [["c"]] == [["a", "b"], ["c"]];
  }

  lemma TwoKeySetTokens(s: string)
    requires s == "a.b,c "
    ensures Tokens(s) == [Ident("a"), Other('.'), Ident("b"), Other(','), Ident("c")]
  {
    assert s[0..1] == "a";
    IdentStep(s, 0, 0, 1, "a");
    OtherStep(s, 1, 1);
    TwoKeySetTail(s);
  }

  lemma TwoKeySetTail(s: string)
    requires s == "a.b,c "
    ensures TokensFrom(s, 2) == [Ident("b"), Other(','), Ident("c")]
  {
    assert s[2..3] == "b" && s[4..5] == "c";
    IdentStep(s, 2, 2, 3, "b");
    OtherStep(s, 3, 3);
    IdentStep(s, 4, 4, 5, "c");
    ScanEndAt(s, 5);
  }

  /** Quoted, plain and non-ASCII segments mix freely across a key set. */
  lemma MixedKeySet()
    ensures KeySetOf("\"a b\".ab.\"-ab-\",\U{3C6}.\"'q\"") == Ok([["a b", "ab", "-ab-"], ["\U{3C6}", "'q"]])
  {
    var s := "\"a b\".ab.\"-ab-\",\U{3C6}.\"'q\"";
    var q1, q2, q3 := "\"a b\"", "\"-ab-\"", "\"'q\"";
    MixedKeySetChars(s, q1, q2, q3);
    MixedKeySetTokens(s, q1, q2, q3);
    MixedKeySetParse(Tokens(s), q1, q2, q3);
  }

  lemma MixedKeySetParse(toks: seq<Token>, q1: string, q2: string, q3: string)
    requires q1 == "\"a b\"" && q2 == "\"-ab-\"" && q3 == "\"'q\""
    requires toks == [Str(q1)] + [Other('.'), Ident("ab"), Other('.'), Str(q2)] + [Other(','), Ident("\U{3C6}"), Other('.'), Str(q3)]
    ensures ParseSections(toks, [], []) == Ok([["a b", "ab", "-ab-"], ["\U{3C6}", "'q"]])
  {
    MixedSegments(q1, q2, q3);
    ThreeThenTwo(toks, "a b", "ab", "-ab-", "\U{3C6}", "'q");
  }

  lemma MixedSegments(q1: string, q2: string, q3: string)
    requires q1 == "\"a b\"" && q2 == "\"-ab-\"" && q3 == "\"'q\""
    ensures Section(Str(q1)) == Ok("a b") && Section(Str(q2)) == Ok("-ab-") && Section(Str(q3)) == Ok("'q")
  {
    LiteralSegment(q1, "a b");
    LiteralSegment(q2, "-ab-");
    LiteralSegment(q3, "'q");
  }

  /** Two keys, of three and two segments. */
  lemma ThreeThenTwo(toks: seq<Token>, a: string, b: string, c: string, d: string, e: string)
    requires |toks| == 9 && toks[1] == toks[3] == toks[7] == Other('.') && toks[5] == Other(',')
    requires Section(toks[0]) == Ok(a) && Section(toks[2]) == Ok(b) && Section(toks[4]) == Ok(c)
    requires Section(toks[6]) == Ok(d) && Section(toks[8]) == Ok(e)
    ensures ParseSections(toks, [], []) == Ok([[a, b, c], [d, e]])
  {
    var t2, t4, t6 := toks[2..], toks[4..], toks[6..];
    assert t2[2..] == t4 && t4[2..] == t6 && t6[2..] == [toks[8]];
    DotStep(toks, [], [], a);
    assert [] + [a] == [a];
    DotStep(t2, [a], [], b);
    assert [a] + [b] == [a, b];
    CommaStep(t4, [a, b], [], c);
    assert [a, b] + [c] == [a, b, c];
    assert [] + [[a, b, c]] == [[a, b, c]];
    DotStep(t6, [], [[a, b, c]], d);
    assert [] + [d] == [d];
    LastStep([toks[8]], [d], [[a, b, c]], e);
    assert [d] + [e] == [d, e];
    assert [[a, b, c]] + [[d, e]] == [[a, b, c], [d, e]];
  }

  lemma MixedKeySetTokens(s: string, q1: string, q2: string, q3: string)
    requires |s| == 22 && s[0] == s[4] == '"' && s[1] == 'a' && s[2] == ' ' && s[3] == 'b' && s[0..5] == q1
    requires s[5] == s[8] == '.' && s[6] == 'a' && s[7] == 'b' && s[6..8] == "ab"
    requires s[9] == s[14] == '"' && s[10] == s[13] == '-' && s[11] == 'a' && s[12] == 'b' && s[9..15] == q2
    requires s[15] == ',' && s[16] == '\U{3C6}' && s[17] == '.' && s[16..17] == "\U{3C6}"
    requires s[18] == s[21] == '"' && s[19] == '\'' && s[20] == 'q' && s[18..22] == q3
    ensures Tokens(s) == [Str(q1)] + [Other('.'), Ident("ab"), Other('.'), Str(q2)] + [Other(','), Ident("\U{3C6}"), Other('.'), Str(q3)]
  {
    MixedKeySetTail(s, q3);
    MixedKeySetMiddle(s, q2);
    StringStep(s, 0, 0, 4, q1);
  }

  lemma MixedKeySetChars(s: string, q1: string, q2: string, q3: string)
    requires s == "\"a b\".ab.\"-ab-\",\U{3C6}.\"'q\""
    requires q1 == "\"a b\"" && q2 == "\"-ab-\"" && q3 == "\"'q\""
    ensures |s| == 22 && s[0] == s[4] == s[9] == s[14] == s[18] == s[21] == '"'
    ensures s[1] == s[6] == s[11] == 'a' && s[2] == ' ' && s[3] == s[7] == s[12] == 'b'
    ensures s[5] == s[8] == s[17] == '.' && s[10] == s[13] == '-' && s[15] == ','
    ensures s[16] == '\U{3C6}' && s[19] == '\'' && s[20] == 'q'
    ensures s[0..5] == q1 && s[6..8] == "ab" && s[9..15] == q2 && s[16..17] == "\U{3C6}" && s[18..22] == q3
  {
  }

  /** From the first `.`: a dot, `ab`, a dot and the quoted `-ab-`. */
  lemma MixedKeySetMiddle(s: string, q2: string)
    requires |s| == 22 && s[5] == s[8] == '.' && s[6] == 'a' && s[7] == 'b' && s[6..8] == "ab"
    requires s[9] == s[14] == '"' && s[10] == s[13] == '-' && s[11] == 'a' && s[12] == 'b' && s[9..15] == q2
    ensures TokensFrom(s, 5) == [Other('.'), Ident("ab"), Other('.'), Str(q2)] + TokensFrom(s, 15)
  {
    MixedKeySetQuoted(s, q2);
    IdentStep(s, 6, 6, 8, "ab");
    OtherStep(s, 5, 5);
    FourTokens(Other('.'), Ident("ab"), Other('.'), Str(q2), TokensFrom(s, 15));
  }

  lemma TwoTokens(a: Token, b: Token, rest: seq<Token>)
    ensures [a] + ([b] + rest) == [a, b] + rest
  {
  }

  lemma FourTokens(a: Token, b: Token, c: Token, d: Token, rest: seq<Token>)
    ensures [a] + ([b] + ([c, d] + rest)) == [a, b, c, d] + rest
  {
  }

  /** From the second `.`: a dot and the quoted `-ab-`. */
  lemma MixedKeySetQuoted(s: string, q2: string)
    requires |s| == 22 && s[8] == '.'
    requires s[9] == s[14] == '"' && s[10] == s[13] == '-' && s[11] == 'a' && s[12] == 'b' && s[9..15] == q2
    ensures TokensFrom(s, 8) == [Other('.'), Str(q2)] + TokensFrom(s, 15)
  {
    StringStep(s, 9, 9, 14, q2);
    OtherStep(s, 8, 8);
    TwoTokens(Other('.'), Str(q2), TokensFrom(s, 15));
  }

  /** From the `,`: a comma, `\U{3C6}`, a dot and the quoted `'q`. */
  lemma MixedKeySetTail(s: string, q3: string)
    requires |s| == 22 && s[15] == ',' && s[16] == '\U{3C6}' && s[17] == '.' && s[16..17] == "\U{3C6}"
    requires s[18] == s[21] == '"' && s[19] == '\'' && s[20] == 'q' && s[18..22] == q3
    ensures TokensFrom(s, 15) == [Other(','), Ident("\U{3C6}"), Other('.'), Str(q3)]
  {
    MixedKeySetEnd(s, q3);
    IdentStep(s, 16, 16, 17, "\U{3C6}");
    OtherStep(s, 15, 15);
    TwoTokens(Other(','), Ident("\U{3C6}"), [Other('.'), Str(q3)]);
  }

  /** From the last `.`: a dot and the quoted `'q`, then the end. */
  lemma MixedKeySetEnd(s: string, q3: string)
    requires |s| == 22 && s[17] == '.' && s[18] == s[21] == '"' && s[19] == '\'' && s[20] == 'q' && s[18..22] == q3
    ensures TokensFrom(s, 17) == [Other('.'), Str(q3)]
  {
    ScanEndAt(s, 22);
    StringStep(s, 18, 18, 21, q3);
    assert [Str(q3)] + [] == [Str(q3)];
    OtherStep(s, 17, 17);
  }

  // ---------------------------------------------------------------------
  // A leading byte-order mark, which the first Scan drops.
  // ---------------------------------------------------------------------

  /** `a` after a byte-order mark is the key `a`. */
  lemma MarkThenKey()
    ensures KeySetOf("\U{FEFF}a") == Ok([["a"]])
  {
    var s := "\U{FEFF}a";
    assert |s| == 2 && s[0] == ByteOrderMark && s[1] == 'a' && s[1..2] == "a";
    ScanEndAt(s, 2);
    IdentStep(s, 1, 1, 2, "a");
    assert Tokens(s) == [Ident("a")];
    LastStep([Ident("a")], [], [], "a");
    assert [] + ["a"] == ["a"];
    assert [] + [["a"]] == [["a"]];
  }

  /** A byte-order mark alone is an empty input. */
  lemma MarkOnlyRejected()
    ensures KeySetOf("\U{FEFF}") == Err(BadFormatting)
  {
    var s := "\U{FEFF}";
    assert |s| == 1 && s[0] == ByteOrderMark;
    ScanEndAt(s, 1);
  }

  /** After a byte-order mark, a leading `.` is still a misplaced separator. */
  lemma MarkThenDotRejected()
    ensures KeySetOf("\U{FEFF}.a").Err?
  {
    var s := "\U{FEFF}.a";
    assert |s| == 3 && s[0] == ByteOrderMark && s[1] == '.';
    OtherStep(s, 1, 1);
    RejectsMisplacedSeparator(Tokens(s), 0);
  }

  /** MakeKey refuses a key set of two keys. */
  lemma MakeKeyTwoKeys()
    ensures MakeKey("a,b") == Err(TooManyKeys)
  {
    var s := "a,b";
    TwoKeysTokens(s);
    var toks := [Ident("a"), Other(','), Ident("b")];
    assert WellFormed(toks);
    assert toks[1] == Other(',');
  }

  lemma TwoKeysTokens(s: string)
    requires s == "a,b"
    ensures Tokens(s) == [Ident("a"), Other(','), Ident("b")]
  {
    assert |s| == 3 && s[1] == ',';
    assert s[0..1] == "a" && s[2..3] == "b";
    ScanEndAt(s, 3);
    IdentStep(s, 2, 2, 3, "b");
    assert TokensFrom(s, 2) == [Ident("b")];
    OtherStep(s, 1, 1);
    assert TokensFrom(s, 1) == [Other(','), Ident("b")];
    IdentStep(s, 0, 0, 1, "a");
  }

  // ---------------------------------------------------------------------
  // Rejected inputs (parse_test.go:45-72).
  // ---------------------------------------------------------------------

  lemma EmptyRejected()
    ensures KeySetOf("") == Err(BadFormatting) && KeySetOf("  ") == Err(BadFormatting)
  {
    RejectsBlank("");
    RejectsBlank("  ");
  }

  /** A leading, trailing or doubled `.` is rejected. */
  lemma MisplacedDotsRejected()
    ensures KeySetOf(".a").Err? && KeySetOf("a.").Err? && KeySetOf("a..b").Err?
  {
    LeadingSeparatorRejected(".a", '.');
    TrailingSeparatorRejected("a.", '.');
    DoubledSeparatorRejected("a..b", '.');
  }

  /** A leading, trailing or doubled `,` is rejected. */
  lemma MisplacedCommasRejected()
    ensures KeySetOf(",a").Err? && KeySetOf("a,").Err? && KeySetOf("a,,b").Err?
  {
    LeadingSeparatorRejected(",a", ',');
    TrailingSeparatorRejected("a,", ',');
    DoubledSeparatorRejected("a,,b", ',');
  }

  lemma LeadingSeparatorRejected(s: string, c: char)
    requires c == '.' || c == ','
    requires s == [c, 'a']
    ensures KeySetOf(s).Err?
  {
    OtherStep(s, 0, 0);
    RejectsMisplacedSeparator(Tokens(s), 0);
  }

  lemma TrailingSeparatorRejected(s: string, c: char)
    requires c == '.' || c == ','
    requires s == ['a', c]
    ensures KeySetOf(s).Err?
  {
    assert s[0..1] == "a";
    ScanEndAt(s, 2);
    OtherStep(s, 1, 1);
    assert TokensFrom(s, 1) == [Other(c)];
    IdentStep(s, 0, 0, 1, "a");
    assert Tokens(s) == [Ident("a"), Other(c)];
    RejectsMisplacedSeparator(Tokens(s), 1);
  }

  lemma DoubledSeparatorRejected(s: string, c: char)
    requires c == '.' || c == ','
    requires s == ['a', c, c, 'b']
    ensures KeySetOf(s).Err?
  {
    assert s[0..1] == "a";
    OtherStep(s, 2, 2);
    OtherStep(s, 1, 1);
    IdentStep(s, 0, 0, 1, "a");
    RejectsMisplacedSeparator(Tokens(s), 1);
  }

  /** Single quotes do not delimit strings: `'a'` starts with a stray character. */
  lemma SingleQuotesRejected()
    ensures KeySetOf("'a'") == Err(BadFormatting)
  {
    OtherStep("'a'", 0, 0);
  }

  /** An empty quoted segment is a missing part. */
  lemma EmptyQuotedRejected()
    ensures KeySetOf("\"\"") == Err(PartMissing) && KeySetOf("\"\"a") == Err(PartMissing)
  {
    var q := "\"\"";
    assert q[0..2] == q;
    StringStep(q, 0, 0, 1, q);
    assert Section(Str(q)) == Err(PartMissing);
    var s := "\"\"a";
    assert s[0..2] == q;
    StringStep(s, 0, 0, 1, q);
  }

  /** A segment directly followed by another segment has an invalid separator. */
  lemma AdjacentSegmentsRejected()
    ensures KeySetOf("a\"\"") == Err(InvalidSeparator)
  {
    var s := "a\"\"";
    var raw := "\"\"";
    assert s[0..1] == "a" && s[1..3] == raw;
    IdentStep(s, 0, 0, 1, "a");
    StringStep(s, 1, 1, 2, raw);
    assert Tokens(s)[..2] == [Ident("a"), Str(raw)];
  }

  /**
   * An unterminated string (left as a TODO at parse_test.go:61-62) reads as
   * a string token whose unquoting fails, hence a missing part.
   */
  lemma UnterminatedStringRejected()
    ensures KeySetOf("\"a") == Err(PartMissing)
  {
    var s := "\"a";
    SkipSpaceTo(s, 0, 0);
    assert StringEnd(s, 2) == 2;
    assert StringEnd(s, 1) == 2;
    assert s[0..2] == s;
    assert Scan(s, 0) == (Str(s), 2);
    assert Unquote(s) == None;
  }
}
