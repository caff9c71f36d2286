/**
 * Key paths (parse.go): a Key is a list of segments, and a key set is written
 * as comma-separated keys whose segments are separated by dots. A segment is
 * an identifier, an integer or a non-empty double-quoted string.
 */
module KeyGrammar {
  import opened Results
  import opened Scanner

  /** A hierarchical path to a variable (parse.go:15). */
  type Key = seq<string>

  datatype ParseError =
    | PartMissing        // "part of key missing": a quoted segment that unquotes to ""
    | BadFormatting      // "bad formatting": no segment where one is expected
    | InvalidSeparator   // "invalid separator": a segment not followed by '.', ',' or the end
    | TooManyKeys        // "too many keys": MakeKey given a key set of several keys

  /** The value of a token in segment position (parse.go:242-253). */
  function Section(t: Token): (r: Result<string, ParseError>)
    ensures r.Ok? <==> t.Ident? || t.Int? || (t.Str? && Unquote(t.raw).Some? && Unquote(t.raw).value != [])
    ensures r.Err? ==> r.error == (if t.Str? then PartMissing else BadFormatting)
  {
    match t
    case Str(raw) =>
      // the error of Unquote is dropped: a bad literal reads as ""
      var u := if Unquote(raw).Some? then Unquote(raw).value else [];
      if |u| == 0 then Err(PartMissing) else Ok(u)
    case Ident(x) => Ok(x)
    case Int(x) => Ok(x)
    case _ => Err(BadFormatting)
  }

  predicate IsSeparator(t: Token) {
    t == Other('.') || t == Other(',')
  }

  /**
   * The loop of ParseKeySet (parse.go:240-266) over a token list, with `k`
   * the key being built and `ks` the keys already complete. The end of the
   * list plays the part of EOF.
   */
  function ParseSections(toks: seq<Token>, k: Key, ks: seq<Key>): Result<seq<Key>, ParseError>
    decreases |toks|
  {
    if toks == [] then Err(BadFormatting)
    else match Section(toks[0])
      case Err(e) => Err(e)
      case Ok(seg) =>
        if |toks| == 1 then Ok(ks + [k + [seg]])
        else if toks[1] == Other('.') then ParseSections(toks[2..], k + [seg], ks)
        else if toks[1] == Other(',') then ParseSections(toks[2..], [], ks + [k + [seg]])
        else Err(InvalidSeparator)
  }

  /** What ParseKeySet returns for `s`. */
  function KeySetOf(s: string): Result<seq<Key>, ParseError> {
    ParseSections(Tokens(s), [], [])
  }

  /**
   * The grammar as a declarative shape: an odd number of tokens, segments
   * at even positions and separators at odd positions.
   */
  predicate WellFormed(toks: seq<Token>) {
    && |toks| % 2 == 1
    && forall i | 0 <= i < |toks| :: if i % 2 == 0 then Section(toks[i]).Ok? else IsSeparator(toks[i])
  }

  /** Reference reading of a token list: split at commas, keep segment values, drop the rest. */
  function KeysOf(toks: seq<Token>): (r: seq<Key>)
    ensures |r| >= 1
    decreases |toks|
  {
    if toks == [] then [[]]
    else
      var rest := KeysOf(toks[1..]);
      if toks[0] == Other(',') then [[]] + rest
      else if Section(toks[0]).Ok? then [[Section(toks[0]).value] + rest[0]] + rest[1..]
      else rest
  }

  function CommaCount(toks: seq<Token>): nat {
    if toks == [] then 0 else (if toks[0] == Other(',') then 1 else 0) + CommaCount(toks[1..])
  }

  lemma WellFormedStep(toks: seq<Token>)
    requires |toks| >= 2
    ensures WellFormed(toks) <==> Section(toks[0]).Ok? && IsSeparator(toks[1]) && WellFormed(toks[2..])
  {
    if Section(toks[0]).Ok? && IsSeparator(toks[1]) && WellFormed(toks[2..]) {
      forall i | 0 <= i < |toks|
        ensures if i % 2 == 0 then Section(toks[i]).Ok? else IsSeparator(toks[i])
      {
        if i >= 2 { assert toks[i] == toks[2..][i - 2]; }
      }
    }
    if WellFormed(toks) {
      forall i | 0 <= i < |toks| - 2
        ensures if i % 2 == 0 then Section(toks[2..][i]).Ok? else IsSeparator(toks[2..][i])
      {
        assert toks[2..][i] == toks[i + 2];
      }
    }
  }

  /**
   * The parser accepts exactly the well-formed token lists, and then returns
   * the keys obtained by splitting at the commas (the first one appended to
   * the key under construction).
   */
  lemma {:induction false} ParseSectionsCorrect(toks: seq<Token>, k: Key, ks: seq<Key>)
    ensures ParseSections(toks, k, ks).Ok? <==> WellFormed(toks)
    ensures WellFormed(toks) ==>
      ParseSections(toks, k, ks).value == ks + [k + KeysOf(toks)[0]] + KeysOf(toks)[1..]
    decreases |toks|
  {
    if toks == [] {
    } else if Section(toks[0]).Err? {
    } else {
      var seg := Section(toks[0]).value;
      assert toks[0] != Other(',');
      if |toks| == 1 {
        assert KeysOf(toks[1..]) == [[]];
        assert [seg] + KeysOf(toks[1..])[0] == [seg];
        assert KeysOf(toks) == [[seg]];
      } else {
        WellFormedStep(toks);
        var rest := toks[2..];
        assert toks[1..][1..] == rest;
        if toks[1] == Other('.') {
          ParseSectionsCorrect(rest, k + [seg], ks);
          assert k + [seg] + KeysOf(rest)[0] == k + ([seg] + KeysOf(rest)[0]);
          assert KeysOf(toks[1..]) == KeysOf(rest);
        } else if toks[1] == Other(',') {
          ParseSectionsCorrect(rest, [], ks + [k + [seg]]);
          var r := KeysOf(rest);
          assert KeysOf(toks[1..]) == [[]] + r;
          assert [seg] + ([[]] + r)[0] == [seg];
          assert ([[]] + r)[1..] == r;
          assert KeysOf(toks) == [[seg]] + r;
          assert [] + r[0] == r[0];
          assert ks + [k + [seg]] + [r[0]] + r[1..] == ks + [k + KeysOf(toks)[0]] + KeysOf(toks)[1..];
        }
      }
    }
  }

  /** There is one key more than there are commas. */
  lemma {:induction false} KeysOfCount(toks: seq<Token>)
    ensures |KeysOf(toks)| == CommaCount(toks) + 1
    decreases |toks|
  {
    if toks != [] {
      KeysOfCount(toks[1..]);
    }
  }

  /** In a well-formed list every key has at least one segment, and every segment is non-empty. */
  lemma {:induction false} KeysOfShape(toks: seq<Token>)
    requires WellFormed(toks)
    requires forall t | t in toks :: (t.Ident? || t.Int?) ==> t.text != []
    ensures forall key | key in KeysOf(toks) :: key != [] && forall seg | seg in key :: seg != []
    decreases |toks|
  {
    var seg := Section(toks[0]).value;
    assert toks[0] != Other(',');
    assert seg != [] by {
      assert toks[0] in toks;
    }
    if |toks| == 1 {
      assert KeysOf(toks[1..]) == [[]];
      assert [seg] + KeysOf(toks[1..])[0] == [seg];
      assert KeysOf(toks) == [[seg]];
    } else {
      WellFormedStep(toks);
      var rest := toks[2..];
      assert toks[1..][1..] == rest;
      assert forall t | t in rest :: t in toks;
      KeysOfShape(rest);
      var r := KeysOf(rest);
      if toks[1] == Other('.') {
        assert KeysOf(toks[1..]) == r;
        assert KeysOf(toks) == [[seg] + r[0]] + r[1..];
        assert r[0] in r;
        forall key | key in r[1..] ensures key in r { }
      } else {
        assert KeysOf(toks[1..]) == [[]] + r;
        assert [seg] + ([[]] + r)[0] == [seg];
        assert ([[]] + r)[1..] == r;
        assert KeysOf(toks) == [[seg]] + r;
      }
    }
  }

  /** Segment tokens produced by the scanner are never empty. */
  lemma {:induction false} ScannedTextNonEmpty(s: string, pos: nat)
    requires pos <= |s|
    ensures forall t | t in TokensFrom(s, pos) :: (t.Ident? || t.Int?) ==> t.text != []
    decreases |s| - pos
  {
    var (t, p) := Scan(s, pos);
    if t != EOF {
      ScannedTextNonEmpty(s, p);
    }
  }

  /**
   * On success ParseKeySet returns one key per comma plus one, each with at
   * least one segment, and no segment is empty.
   */
  lemma KeySetShape(s: string)
    requires KeySetOf(s).Ok?
    ensures |KeySetOf(s).value| == CommaCount(Tokens(s)) + 1
    ensures forall key | key in KeySetOf(s).value :: key != [] && forall seg | seg in key :: seg != []
  {
    var toks := Tokens(s);
    ParseSectionsCorrect(toks, [], []);
    KeysOfCount(toks);
    ScannedTextNonEmpty(s, Start(s));
    KeysOfShape(toks);
    assert [] + KeysOf(toks)[0] == KeysOf(toks)[0];
    assert [] + [KeysOf(toks)[0]] + KeysOf(toks)[1..] == KeysOf(toks);
  }

  /** Every well-formed token list is accepted, with exactly the keys of KeysOf. */
  lemma AcceptsWellFormed(toks: seq<Token>)
    requires WellFormed(toks)
    ensures ParseSections(toks, [], []) == Ok(KeysOf(toks))
  {
    ParseSectionsCorrect(toks, [], []);
    assert [] + KeysOf(toks)[0] == KeysOf(toks)[0];
    assert [] + [KeysOf(toks)[0]] + KeysOf(toks)[1..] == KeysOf(toks);
  }

  /** A separator at the start or the end, or two separators in a row, is rejected. */
  lemma RejectsMisplacedSeparator(toks: seq<Token>, i: nat)
    requires i < |toks| && IsSeparator(toks[i])
    requires i == 0 || i == |toks| - 1 || (i + 1 < |toks| && IsSeparator(toks[i + 1]))
    ensures ParseSections(toks, [], []).Err?
  {
    ParseSectionsCorrect(toks, [], []);
    if i + 1 < |toks| && IsSeparator(toks[i + 1]) && i != 0 && i != |toks| - 1 {
      assert !Section(toks[i]).Ok? && !Section(toks[i + 1]).Ok?;
    }
  }

  /** Two segments in a row, with no separator between them, are rejected (`a""`, `""a`). */
  lemma RejectsAdjacentSegments(toks: seq<Token>, i: nat)
    requires i + 1 < |toks| && Section(toks[i]).Ok? && Section(toks[i + 1]).Ok?
    ensures ParseSections(toks, [], []).Err?
  {
    ParseSectionsCorrect(toks, [], []);
    assert !IsSeparator(toks[i]) && !IsSeparator(toks[i + 1]);
  }

  /** Empty and whitespace-only input is rejected with "bad formatting". */
  lemma RejectsBlank(s: string)
    requires forall i | 0 <= i < |s| :: IsSpace(s[i])
    ensures KeySetOf(s) == Err(BadFormatting)
  {
    BlankHasNoTokens(s);
  }

  /**
   * ParseKeySet (parse.go:235-267): scans a section, then a separator, in a
   * loop; '.' continues the key, ',' closes it, EOF ends the set.
   */
  method ParseKeySet(s: string) returns (r: Result<seq<Key>, ParseError>)
    ensures r == KeySetOf(s)
  {
    var pos := Start(s);
    var k: Key := [];
    var ks: seq<Key> := [];
    while true
      invariant pos <= |s|
      invariant ParseSections(TokensFrom(s, pos), k, ks) == KeySetOf(s)
      decreases |s| - pos
    {
      // scan section
      var (t, p) := Scan(s, pos);
      ghost var toks := TokensFrom(s, pos);
      if t == EOF {
        return Err(BadFormatting);
      }
      assert toks == [t] + TokensFrom(s, p);
      var sec := Section(t);
      if sec.Err? {
        return Err(sec.error);
      }
      k := k + [sec.value];
      // scan separator
      var (t2, p2) := Scan(s, p);
      if t2 == Other('.') {
        assert toks[1..] == [t2] + TokensFrom(s, p2);
        assert toks[2..] == TokensFrom(s, p2);
        pos := p2;
      } else if t2 == Other(',') {
        assert toks[1..] == [t2] + TokensFrom(s, p2);
        assert toks[2..] == TokensFrom(s, p2);
        ks := ks + [k];
        k := [];
        pos := p2;
      } else if t2 == EOF {
        return Ok(ks + [k]);
      } else {
        assert toks[1..] == [t2] + TokensFrom(s, p2);
        return Err(InvalidSeparator);
      }
    }
  }

  /**
   * MakeKey (parse.go:18-27): a key set that holds exactly one key. It
   * succeeds exactly when the token stream is well formed and has no comma;
   * a well-formed stream with a comma fails with "too many keys".
   */
  function MakeKey(s: string): (r: Result<Key, ParseError>)
    ensures r.Ok? <==> WellFormed(Tokens(s)) && Other(',') !in Tokens(s)
    ensures r.Ok? ==> KeySetOf(s) == Ok([r.value]) && r.value != [] && forall seg | seg in r.value :: seg != []
    ensures WellFormed(Tokens(s)) && Other(',') in Tokens(s) ==> r == Err(TooManyKeys)
  {
    ParseSectionsCorrect(Tokens(s), [], []);
    CommaCountZero(Tokens(s));
    match KeySetOf(s)
    case Err(e) => Err(e)
    case Ok(ks) =>
      KeySetShape(s);
      assert ks[0] in ks;
      assert |ks| == 1 ==> ks == [ks[0]];
      if |ks| > 1 then Err(TooManyKeys) else Ok(ks[0])
  }

  lemma {:induction false} CommaCountZero(toks: seq<Token>)
    ensures CommaCount(toks) == 0 <==> Other(',') !in toks
    decreases |toks|
  {
    if toks != [] {
      CommaCountZero(toks[1..]);
      assert toks == [toks[0]] + toks[1..];
    }
  }
}
