/**
 * The tokenizer that ParseKeySet drives: Go's text/scanner configured with
 * ScanIdents | ScanStrings | ScanInts (parse.go:236-237), plus the
 * strconv.Unquote call applied to string tokens (parse.go:244).
 *
 * Whitespace is space, tab, CR and LF. An identifier is a letter or `_`
 * followed by letters, digits and `_`; an integer is a run of decimal digits
 * (floats are not scanned, so `1.2` is `1`, `.`, `2`); a string is a
 * double-quoted literal with backslash escapes. Every other character is a
 * token of its own.
 */
module Scanner {
  import opened Results

  datatype Token =
    | Ident(text: string)
    | Int(text: string)
    | Str(raw: string)      // the literal as written, quotes included
    | Other(c: char)        // any other single character, e.g. '.' or ','
    | EOF

  predicate IsSpace(c: char) {
    c == ' ' || c == '\t' || c == '\n' || c == '\r'
  }

  /** Letters are ASCII letters, `_`, and every non-ASCII character. */
  predicate IsLetter(c: char) {
    ('a' <= c <= 'z') || ('A' <= c <= 'Z') || c == '_' || c as int >= 0x80
  }

  predicate IsDigit(c: char) {
    '0' <= c <= '9'
  }

  /** The first position at or after `pos` that does not hold whitespace. */
  function SkipSpace(s: string, pos: nat): (p: nat)
    requires pos <= |s|
    ensures pos <= p <= |s|
    ensures forall i | pos <= i < p :: IsSpace(s[i])
    ensures p < |s| ==> !IsSpace(s[p])
    decreases |s| - pos
  {
    if pos < |s| && IsSpace(s[pos]) then SkipSpace(s, pos + 1) else pos
  }

  /** The end of the identifier whose remaining characters start at `pos`. */
  function IdentEnd(s: string, pos: nat): (p: nat)
    requires pos <= |s|
    ensures pos <= p <= |s|
    ensures forall i | pos <= i < p :: IsLetter(s[i]) || IsDigit(s[i])
    decreases |s| - pos
  {
    if pos < |s| && (IsLetter(s[pos]) || IsDigit(s[pos])) then IdentEnd(s, pos + 1) else pos
  }

  /** The end of the digit run whose remaining characters start at `pos`. */
  function DigitsEnd(s: string, pos: nat): (p: nat)
    requires pos <= |s|
    ensures pos <= p <= |s|
    ensures forall i | pos <= i < p :: IsDigit(s[i])
    decreases |s| - pos
  {
    if pos < |s| && IsDigit(s[pos]) then DigitsEnd(s, pos + 1) else pos
  }

  /**
   * The end of a string literal whose body starts at `pos` (just after the
   * opening quote). The literal ends after the first unescaped quote; a
   * newline or the end of the input ends it unterminated (the newline is
   * consumed with it). A backslash takes the next character with it.
   */
  function StringEnd(s: string, pos: nat): (p: nat)
    requires pos <= |s|
    ensures pos <= p <= |s|
    decreases |s| - pos
  {
    if pos == |s| then pos
    else if s[pos] == '"' || s[pos] == '\n' then pos + 1
    else if s[pos] == '\\' && pos + 1 < |s| && s[pos + 1] != '\n' then StringEnd(s, pos + 2)
    else StringEnd(s, pos + 1)
  }

  /** One call of the scanner's Scan: the next token and the position after it. */
  function Scan(s: string, pos: nat): (r: (Token, nat))
    requires pos <= |s|
    ensures pos <= r.1 <= |s|
    ensures r.0 == EOF <==> forall i | pos <= i < |s| :: IsSpace(s[i])
    ensures r.0 != EOF ==> pos < r.1
    ensures r.0.Ident? ==> r.0.text != [] && IsLetter(r.0.text[0])
    ensures r.0.Int? ==> r.0.text != [] && forall c | c in r.0.text :: IsDigit(c)
    ensures r.0.Other? ==> !IsSpace(r.0.c) && !IsLetter(r.0.c) && !IsDigit(r.0.c) && r.0.c != '"'
  {
    var p := SkipSpace(s, pos);
    if p == |s| then (EOF, p)
    else if IsLetter(s[p]) then
      var e := IdentEnd(s, p + 1);
      (Ident(s[p..e]), e)
    else if IsDigit(s[p]) then
      var e := DigitsEnd(s, p + 1);
      (Int(s[p..e]), e)
    else if s[p] == '"' then
      var e := StringEnd(s, p + 1);
      (Str(s[p..e]), e)
    else
      (Other(s[p]), p + 1)
  }

  /** Tokens returned by Scan from `pos` up to (not including) EOF. */
  function TokensFrom(s: string, pos: nat): (r: seq<Token>)
    requires pos <= |s|
    ensures EOF !in r
    decreases |s| - pos
  {
    var (t, p) := Scan(s, pos);
    if t == EOF then [] else [t] + TokensFrom(s, p)
  }

  /** The byte-order mark, which the scanner drops when it is the first character. */
  const ByteOrderMark: char := '\U{FEFF}'

  /** Where the first Scan starts: after a leading byte-order mark, if any. */
  function Start(s: string): (p: nat)
    ensures p <= |s|
  {
    if |s| > 0 && s[0] == ByteOrderMark then 1 else 0
  }

  /** The token stream of `s`, without the final EOF. */
  function Tokens(s: string): seq<Token> {
    TokensFrom(s, Start(s))
  }

  /** Input made only of whitespace has no tokens. */
  lemma {:induction false} BlankHasNoTokens(s: string)
    requires forall i | 0 <= i < |s| :: IsSpace(s[i])
    ensures Tokens(s) == []
  {
  }

  lemma {:induction false} SkipSpaceTo(s: string, pos: nat, p: nat)
    requires pos <= p <= |s|
    requires forall i | pos <= i < p :: IsSpace(s[i])
    requires p < |s| ==> !IsSpace(s[p])
    ensures SkipSpace(s, pos) == p
    decreases p - pos
  {
    if pos < p {
      SkipSpaceTo(s, pos + 1, p);
    }
  }

  lemma {:induction false} IdentEndAt(s: string, pos: nat, e: nat)
    requires pos <= e <= |s|
    requires forall i | pos <= i < e :: IsLetter(s[i]) || IsDigit(s[i])
    requires e < |s| ==> !IsLetter(s[e]) && !IsDigit(s[e])
    ensures IdentEnd(s, pos) == e
    decreases e - pos
  {
    if pos < e {
      IdentEndAt(s, pos + 1, e);
    }
  }

  lemma {:induction false} DigitsEndAt(s: string, pos: nat, e: nat)
    requires pos <= e <= |s|
    requires forall i | pos <= i < e :: IsDigit(s[i])
    requires e < |s| ==> !IsDigit(s[e])
    ensures DigitsEnd(s, pos) == e
    decreases e - pos
  {
    if pos < e {
      DigitsEndAt(s, pos + 1, e);
    }
  }

  /** Scanning an identifier that starts at `p` after blanks from `pos` and stops at `e`. */
  lemma ScanIdentAt(s: string, pos: nat, p: nat, e: nat)
    requires pos <= p < e <= |s|
    requires forall i | pos <= i < p :: IsSpace(s[i])
    requires IsLetter(s[p])
    requires forall i | p < i < e :: IsLetter(s[i]) || IsDigit(s[i])
    requires e < |s| ==> !IsLetter(s[e]) && !IsDigit(s[e])
    ensures Scan(s, pos) == (Ident(s[p..e]), e)
  {
    SkipSpaceTo(s, pos, p);
    IdentEndAt(s, p + 1, e);
  }

  /** Scanning an integer that starts at `p` after blanks from `pos` and stops at `e`. */
  lemma ScanIntAt(s: string, pos: nat, p: nat, e: nat)
    requires pos <= p < e <= |s|
    requires forall i | pos <= i < p :: IsSpace(s[i])
    requires forall i | p <= i < e :: IsDigit(s[i])
    requires e < |s| ==> !IsDigit(s[e])
    ensures Scan(s, pos) == (Int(s[p..e]), e)
  {
    SkipSpaceTo(s, pos, p);
    DigitsEndAt(s, p + 1, e);
  }

  /** Scanning a single-character token at `p` after blanks from `pos`. */
  lemma ScanOtherAt(s: string, pos: nat, p: nat)
    requires pos <= p < |s|
    requires forall i | pos <= i < p :: IsSpace(s[i])
    requires !IsSpace(s[p]) && !IsLetter(s[p]) && !IsDigit(s[p]) && s[p] != '"'
    ensures Scan(s, pos) == (Other(s[p]), p + 1)
  {
    SkipSpaceTo(s, pos, p);
  }

  /** Scanning the end of the input: only blanks from `pos` on. */
  lemma ScanEndAt(s: string, pos: nat)
    requires pos <= |s|
    requires forall i | pos <= i < |s| :: IsSpace(s[i])
    ensures TokensFrom(s, pos) == []
  {
  }

  /** A string literal without backslashes or newlines, closed by the quote at `q`. */
  lemma ScanPlainStringAt(s: string, pos: nat, p: nat, q: nat)
    requires pos <= p < q < |s|
    requires forall i | pos <= i < p :: IsSpace(s[i])
    requires s[p] == '"' && s[q] == '"'
    requires forall i | p < i < q :: s[i] != '"' && s[i] != '\\' && s[i] != '\n'
    ensures Scan(s, pos) == (Str(s[p..q + 1]), q + 1)
  {
    SkipSpaceTo(s, pos, p);
    StringEndAt(s, p + 1, q);
  }

  lemma {:induction false} StringEndAt(s: string, pos: nat, q: nat)
    requires pos <= q < |s| && s[q] == '"'
    requires forall i | pos <= i < q :: s[i] != '"' && s[i] != '\\' && s[i] != '\n'
    ensures StringEnd(s, pos) == q + 1
    decreases q - pos
  {
    if pos < q {
      StringEndAt(s, pos + 1, q);
    }
  }

  /** The character a single-character escape `\c` stands for. */
  function Escape(c: char): Option<char> {
    match c
    case 'a' => Some(7 as char)
    case 'b' => Some(8 as char)
    case 'f' => Some(12 as char)
    case 'n' => Some('\n')
    case 'r' => Some('\r')
    case 't' => Some('\t')
    case 'v' => Some(11 as char)
    case '\\' => Some('\\')
    case '"' => Some('"')
    case _ => None
  }

  /** Decodes the body of a double-quoted literal; fails on a bare quote, a newline or a bad escape. */
  function Unescape(b: string): (r: Option<string>)
    ensures r.Some? ==> |r.value| <= |b|
    decreases |b|
  {
    if b == [] then Some([])
    else if b[0] == '"' || b[0] == '\n' then None
    else if b[0] == '\\' then
      if |b| < 2 || Escape(b[1]).None? then None
      else match Unescape(b[2..])
        case None => None
        case Some(rest) => Some([Escape(b[1]).value] + rest)
    else match Unescape(b[1..])
      case None => None
      case Some(rest) => Some([b[0]] + rest)
  }

  /** A body without quotes, backslashes or newlines decodes to itself. */
  lemma {:induction false} UnescapePlain(b: string)
    requires forall i | 0 <= i < |b| :: b[i] != '"' && b[i] != '\\' && b[i] != '\n'
    ensures Unescape(b) == Some(b)
    decreases |b|
  {
    if b != [] {
      UnescapePlain(b[1..]);
      assert [b[0]] + b[1..] == b;
    }
  }

  /**
   * How a character is written inside a double-quoted literal so that it
   * decodes back to itself: a quote, a backslash and a newline take an
   * escape, every other character stands for itself.
   */
  function EscapeChar(c: char): (r: string)
    ensures r == [c] <==> c != '"' && c != '\\' && c != '\n'
    ensures r != [c] ==> |r| == 2 && r[0] == '\\' && Escape(r[1]) == Some(c)
  {
    if c == '"' || c == '\\' then ['\\', c]
    else if c == '\n' then ['\\', 'n']
    else [c]
  }

  /** Decoding a written character and then the rest is that character followed by the decoded rest. */
  lemma UnescapeEscapeChar(c: char, b: string)
    ensures Unescape(EscapeChar(c) + b) == if Unescape(b).Some? then Some([c] + Unescape(b).value) else None
  {
    var r := EscapeChar(c);
    if |r| == 2 {
      assert (r + b)[2..] == b;
    } else {
      assert (r + b)[1..] == b;
    }
  }

  /** The body of a literal that decodes to `t`: each character escaped as needed. */
  function EscapeBody(t: string): (r: string)
    ensures |t| <= |r|
    decreases |t|
  {
    if t == [] then [] else EscapeChar(t[0]) + EscapeBody(t[1..])
  }

  /** Unescape undoes EscapeBody: decoding the escaped body gives back `t`. */
  lemma {:induction false} UnescapeEscapeBody(t: string)
    ensures Unescape(EscapeBody(t)) == Some(t)
    decreases |t|
  {
    if t != [] {
      UnescapeEscapeBody(t[1..]);
      UnescapeEscapeChar(t[0], EscapeBody(t[1..]));
      assert [t[0]] + t[1..] == t;
    }
  }

  lemma {:induction false} EscapeBodyAppend(a: string, b: string)
    ensures EscapeBody(a + b) == EscapeBody(a) + EscapeBody(b)
    decreases |a|
  {
    if a != [] {
      assert (a + b)[0] == a[0] && (a + b)[1..] == a[1..] + b;
      EscapeBodyAppend(a[1..], b);
      assert EscapeBody(a + b) == EscapeChar(a[0]) + (EscapeBody(a[1..]) + EscapeBody(b));
    } else {
      assert a + b == b;
    }
  }

  lemma EscapeBodyCons(c: char, t: string)
    ensures EscapeBody([c] + t) == EscapeChar(c) + EscapeBody(t)
  {
    assert ([c] + t)[0] == c && ([c] + t)[1..] == t;
  }

  /** Text without quotes, backslashes or newlines is its own escaped body. */
  lemma {:induction false} EscapeBodyPlain(t: string)
    requires forall i | 0 <= i < |t| :: t[i] != '"' && t[i] != '\\' && t[i] != '\n'
    ensures EscapeBody(t) == t
    decreases |t|
  {
    if t != [] {
      EscapeBodyPlain(t[1..]);
      assert [t[0]] + t[1..] == t;
    }
  }

  /** A literal body written with EscapeBody ends at the first quote after it, escapes included. */
  lemma {:induction false} StringEndEscaped(s: string, pos: nat, t: string)
    requires pos + |EscapeBody(t)| < |s|
    requires s[pos..pos + |EscapeBody(t)|] == EscapeBody(t) && s[pos + |EscapeBody(t)|] == '"'
    ensures StringEnd(s, pos) == pos + |EscapeBody(t)| + 1
    decreases |t|
  {
    if t != [] {
      var h, e := EscapeChar(t[0]), EscapeBody(t[1..]);
      assert EscapeBody(t) == h + e;
      StringEndEscapedHead(s, pos, t[0], e);
      StringEndEscaped(s, pos + |h|, t[1..]);
    }
  }

  /** One escaped character of a literal body is stepped over as a whole. */
  lemma StringEndEscapedHead(s: string, pos: nat, c: char, e: string)
    requires pos + |EscapeChar(c)| + |e| <= |s|
    requires s[pos..pos + |EscapeChar(c)| + |e|] == EscapeChar(c) + e
    ensures s[pos + |EscapeChar(c)|..pos + |EscapeChar(c)| + |e|] == e
    ensures StringEnd(s, pos) == StringEnd(s, pos + |EscapeChar(c)|)
  {
    var h := EscapeChar(c);
    var w := s[pos..pos + |h| + |e|];
    assert s[pos + |h|..pos + |h| + |e|] == w[|h|..];
    assert s[pos] == w[0];
    if |h| == 2 {
      assert s[pos + 1] == w[1];
      assert s[pos] == '\\' && s[pos + 1] != '\n';
    } else {
      assert s[pos] != '"' && s[pos] != '\n' && s[pos] != '\\';
    }
  }

  /**
   * A double-quoted literal whose body is EscapeBody(t), escapes included,
   * is one string token, and unquoting it gives `t`.
   */
  lemma ScanStringAt(s: string, pos: nat, p: nat, q: nat, t: string)
    requires pos <= p < q < |s| && q == p + |EscapeBody(t)| + 1
    requires forall i | pos <= i < p :: IsSpace(s[i])
    requires s[p] == '"' && s[q] == '"' && s[p + 1..q] == EscapeBody(t)
    ensures Scan(s, pos) == (Str(s[p..q + 1]), q + 1)
    ensures Unquote(s[p..q + 1]) == Some(t)
  {
    assert s[p + 1..p + 1 + |EscapeBody(t)|] == EscapeBody(t);
    StringEndEscaped(s, p + 1, t);
    ScanQuotedAt(s, pos, p, q);
    UnquoteAt(s, p, q, t);
  }

  /** Scanning a literal that opens at `p` after blanks from `pos`, once its end is known. */
  lemma ScanQuotedAt(s: string, pos: nat, p: nat, q: nat)
    requires pos <= p < q < |s|
    requires forall i | pos <= i < p :: IsSpace(s[i])
    requires s[p] == '"' && StringEnd(s, p + 1) == q + 1
    ensures Scan(s, pos) == (Str(s[p..q + 1]), q + 1)
  {
    SkipSpaceTo(s, pos, p);
  }

  /** The literal from the quote at `p` to the quote at `q`, with body EscapeBody(t), unquotes to `t`. */
  lemma UnquoteAt(s: string, p: nat, q: nat, t: string)
    requires p < q < |s| && s[p] == '"' && s[q] == '"' && s[p + 1..q] == EscapeBody(t)
    ensures Unquote(s[p..q + 1]) == Some(t)
  {
    var raw := s[p..q + 1];
    assert |raw| == q + 1 - p && raw[0] == s[p] && raw[|raw| - 1] == s[q];
    var body, mid := raw[1..|raw| - 1], s[p + 1..q];
    forall i | 0 <= i < |body| ensures body[i] == mid[i] {
      assert body[i] == raw[i + 1] == s[p + 1 + i];
    }
    assert body == mid;
    UnescapeEscapeBody(t);
  }

  /** strconv.Unquote restricted to double-quoted literals. */
  function Unquote(raw: string): Option<string> {
    if |raw| < 2 || raw[0] != '"' || raw[|raw| - 1] != '"' then None
    else Unescape(raw[1..|raw| - 1])
  }
}
