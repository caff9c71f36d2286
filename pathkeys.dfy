/**
 * The parse.go revision of ParseOutputPath (parse.go:191-212): every
 * placeholder name of the output path is parsed as a key, plain `{name}`
 * placeholders first and `{name|format}` ones after them, each group in
 * order of appearance. Whether the rewritten path compiles as a Go template
 * is the parameter `templateParses`.
 */
module PathKeys {
  import opened Results
  import opened KeyGrammar
  import opened Placeholders

  datatype PathError =
    | BadKey(cause: ParseError)   // the error of MakeKey on a placeholder name
    | BadTemplate                 // "output path incorrectly formatted"

  /** The names the two scans report, in the order the loops visit them. */
  function PlaceholderNames(path: string): (r: seq<string>)
    ensures |r| == |VarNames(path)| + |FmtMatches(path)|
    ensures forall n | n in r :: NameChars(n)
  {
    FmtNamesChars(FmtMatches(path));
    VarNames(path) + FmtNames(FmtMatches(path))
  }

  lemma FmtNamesChars(ms: seq<FmtMatch>)
    requires forall m | m in ms :: NameChars(m.name)
    ensures forall n | n in FmtNames(ms) :: NameChars(n)
  {
    forall n | n in FmtNames(ms) ensures NameChars(n) {
      var i :| 0 <= i < |ms| && FmtNames(ms)[i] == n;
      assert ms[i] in ms;
    }
  }

  /** MakeKey applied to each name in turn. */
  function Parsed(names: seq<string>): (rs: seq<Result<Key, ParseError>>)
    ensures |rs| == |names|
  {
    if names == [] then [] else [MakeKey(names[0])] + Parsed(names[1..])
  }

  /** The index of the first error, or |rs| if there is none. */
  function FirstErr(rs: seq<Result<Key, ParseError>>): (i: nat)
    ensures i <= |rs|
    ensures forall j | 0 <= j < i :: rs[j].Ok?
    ensures i < |rs| ==> rs[i].Err?
  {
    if rs == [] then 0
    else if rs[0].Err? then 0
    else 1 + FirstErr(rs[1..])
  }

  /** The keys of a list of results that are all keys. */
  function Values(rs: seq<Result<Key, ParseError>>): (ks: seq<Key>)
    requires forall j | 0 <= j < |rs| :: rs[j].Ok?
    ensures |ks| == |rs| && forall j | 0 <= j < |rs| :: rs[j] == Ok(ks[j])
  {
    if rs == [] then [] else [rs[0].value] + Values(rs[1..])
  }

  /**
   * ParseOutputPath (parse.go:191-212). It fails with the error of the first
   * name that is not a key; otherwise it fails when the template does not
   * compile; otherwise it returns the key of every name, in order.
   */
  method ParseOutputPath(path: string, templateParses: bool) returns (r: Result<seq<Key>, PathError>)
    ensures r.Ok? <==> FirstErr(Parsed(PlaceholderNames(path))) == |PlaceholderNames(path)| && templateParses
    ensures r.Ok? ==> r.value == Values(Parsed(PlaceholderNames(path)))
    ensures FirstErr(Parsed(PlaceholderNames(path))) < |PlaceholderNames(path)| ==>
      r == Err(BadKey(Parsed(PlaceholderNames(path))[FirstErr(Parsed(PlaceholderNames(path)))].error))
    ensures FirstErr(Parsed(PlaceholderNames(path))) == |PlaceholderNames(path)| && !templateParses ==>
      r == Err(BadTemplate)
  {
    var plain := VarNames(path);
    var formatted := FmtNames(FmtMatches(path));
    r := ParseNames(plain, formatted, templateParses);
  }

  /**
   * What ParseOutputPath reports for the parse results `rs` of its names:
   * the error of the first name that is not a key; otherwise BadTemplate
   * when the template does not compile; otherwise every key, in order.
   */
  ghost predicate Reports(rs: seq<Result<Key, ParseError>>, templateParses: bool, r: Result<seq<Key>, PathError>) {
    && (r.Ok? <==> FirstErr(rs) == |rs| && templateParses)
    && (r.Ok? ==> FirstErr(rs) == |rs| && r.value == Values(rs))
    && (FirstErr(rs) < |rs| ==> r == Err(BadKey(rs[FirstErr(rs)].error)))
    && (FirstErr(rs) == |rs| && !templateParses ==> r == Err(BadTemplate))
  }

  /** ParseOutputPath once the two scans have produced their names. */
  method ParseNames(plain: seq<string>, formatted: seq<string>, templateParses: bool) returns (r: Result<seq<Key>, PathError>)
    ensures Reports(Parsed(plain + formatted), templateParses, r)
  {
    ghost var xs, ys := Parsed(plain), Parsed(formatted);
    ParsedAppend(plain, formatted);
    var first := AppendKeys([], plain);
    if first.Err? {
      r := Err(BadKey(first.error));
      FirstLoopFails(xs, ys, templateParses, r);
      return;
    }
    var all := AppendKeys(first.value, formatted);
    if all.Err? {
      r := Err(BadKey(all.error));
      SecondLoopFails(xs, ys, templateParses, r);
      return;
    }
    if !templateParses {
      r := Err(BadTemplate);
    } else {
      r := Ok(all.value);
    }
    BothLoopsPass(xs, ys, first.value, all.value, templateParses, r);
  }

  /** The first loop stops at an error of its own. */
  lemma FirstLoopFails(xs: seq<Result<Key, ParseError>>, ys: seq<Result<Key, ParseError>>, templateParses: bool,
                       r: Result<seq<Key>, PathError>)
    requires FirstErr(xs) < |xs| && r == Err(BadKey(xs[FirstErr(xs)].error))
    ensures Reports(xs + ys, templateParses, r)
  {
    FirstErrAppend(xs, ys);
    assert (xs + ys)[FirstErr(xs)] == xs[FirstErr(xs)];
  }

  /** The first loop passes and the second stops at an error. */
  lemma SecondLoopFails(xs: seq<Result<Key, ParseError>>, ys: seq<Result<Key, ParseError>>, templateParses: bool,
                        r: Result<seq<Key>, PathError>)
    requires FirstErr(xs) == |xs| && FirstErr(ys) < |ys| && r == Err(BadKey(ys[FirstErr(ys)].error))
    ensures Reports(xs + ys, templateParses, r)
  {
    FirstErrAppend(xs, ys);
    assert (xs + ys)[|xs| + FirstErr(ys)] == ys[FirstErr(ys)];
  }

  /** Both loops pass: the template decides. */
  lemma BothLoopsPass(xs: seq<Result<Key, ParseError>>, ys: seq<Result<Key, ParseError>>, first: seq<Key>, all: seq<Key>,
                      templateParses: bool, r: Result<seq<Key>, PathError>)
    requires FirstErr(xs) == |xs| && first == [] + Values(xs)
    requires FirstErr(ys) == |ys| && all == first + Values(ys)
    requires r == if templateParses then Ok(all) else Err(BadTemplate)
    ensures Reports(xs + ys, templateParses, r)
  {
    FirstErrAppend(xs, ys);
    ValuesJoin(xs, ys, first, all);
  }

  /**
   * The body shared by the two loops of parse.go:193-206: each name in turn
   * is parsed with MakeKey and its key appended to `expand`; the first name
   * that is not a key ends the loop with its error.
   */
  method AppendKeys(expand: seq<Key>, names: seq<string>) returns (r: Result<seq<Key>, ParseError>)
    ensures r.Ok? <==> FirstErr(Parsed(names)) == |names|
    ensures r.Ok? ==> r.value == expand + Values(Parsed(names))
    ensures r.Err? ==> r.error == Parsed(names)[FirstErr(Parsed(names))].error
  {
    ghost var rs := Parsed(names);
    ghost var ks: seq<Key> := [];
    var out := expand;
    for i := 0 to |names|
      invariant i <= FirstErr(rs)
      invariant |ks| == i && forall j | 0 <= j < i :: rs[j] == Ok(ks[j])
      invariant out == expand + ks
    {
      var key := ParseAt(names, i);
      if key.Err? {
        return Err(key.error);
      }
      OkBeforeFirstErr(rs, i);
      ks := ks + [key.value];
      out := out + [key.value];
    }
    ValuesUnique(rs, ks);
    return Ok(out);
  }

  /** MakeKey on the `i`th name. */
  method ParseAt(names: seq<string>, i: nat) returns (key: Result<Key, ParseError>)
    requires i < |names|
    ensures key == Parsed(names)[i]
  {
    key := MakeKey(names[i]);
    ParsedAt(names, i);
  }

  /** Parsing two lists of names parses each. */
  lemma {:induction false} ParsedAppend(xs: seq<string>, ys: seq<string>)
    ensures Parsed(xs + ys) == Parsed(xs) + Parsed(ys)
  {
    if xs == [] {
      assert xs + ys == ys;
    } else {
      assert (xs + ys)[0] == xs[0] && (xs + ys)[1..] == xs[1..] + ys;
      ParsedAppend(xs[1..], ys);
    }
  }

  /** The `i`th result is that of the `i`th name. */
  lemma {:induction false} ParsedAt(names: seq<string>, i: nat)
    requires i < |names|
    ensures Parsed(names)[i] == MakeKey(names[i])
  {
    if i > 0 {
      ParsedAt(names[1..], i - 1);
    }
  }

  /** The first error of two lists in a row. */
  lemma {:induction false} FirstErrAppend(xs: seq<Result<Key, ParseError>>, ys: seq<Result<Key, ParseError>>)
    ensures FirstErr(xs + ys) == if FirstErr(xs) < |xs| then FirstErr(xs) else |xs| + FirstErr(ys)
  {
    if xs != [] {
      assert (xs + ys)[0] == xs[0] && (xs + ys)[1..] == xs[1..] + ys;
      FirstErrAppend(xs[1..], ys);
    } else {
      assert xs + ys == ys;
    }
  }

  /** The keys of two lists of keys in a row. */
  lemma {:induction false} ValuesAppend(xs: seq<Result<Key, ParseError>>, ys: seq<Result<Key, ParseError>>)
    requires forall j | 0 <= j < |xs| :: xs[j].Ok?
    requires forall j | 0 <= j < |ys| :: ys[j].Ok?
    ensures forall j | 0 <= j < |xs + ys| :: (xs + ys)[j].Ok?
    ensures Values(xs + ys) == Values(xs) + Values(ys)
  {
    if xs == [] {
      assert xs + ys == ys;
    } else {
      assert (xs + ys)[1..] == xs[1..] + ys;
      ValuesAppend(xs[1..], ys);
      assert [xs[0].value] + (Values(xs[1..]) + Values(ys)) == [xs[0].value] + Values(xs[1..]) + Values(ys);
    }
  }

  /** The keys the two loops append, one after the other. */
  lemma ValuesJoin(xs: seq<Result<Key, ParseError>>, ys: seq<Result<Key, ParseError>>, first: seq<Key>, all: seq<Key>)
    requires FirstErr(xs + ys) == |xs + ys|
    requires FirstErr(xs) == |xs| && first == [] + Values(xs)
    requires FirstErr(ys) == |ys| && all == first + Values(ys)
    ensures all == Values(xs + ys)
  {
    ValuesAppend(xs, ys);
    assert [] + Values(xs) == Values(xs);
  }

  /** A key at or before the first error moves the first error past it. */
  lemma OkBeforeFirstErr(rs: seq<Result<Key, ParseError>>, i: nat)
    requires i < |rs| && i <= FirstErr(rs) && rs[i].Ok?
    ensures i + 1 <= FirstErr(rs)
  {
  }

  /** Values is the only list of keys whose entries match the results. */
  lemma ValuesUnique(rs: seq<Result<Key, ParseError>>, ks: seq<Key>)
    requires |ks| == |rs| && forall j | 0 <= j < |rs| :: rs[j] == Ok(ks[j])
    ensures ks == Values(rs)
  {
  }

  /** The keys come out in the order of the names, one per name. */
  lemma KeysInOrder(names: seq<string>, i: nat)
    requires FirstErr(Parsed(names)) == |names| && i < |names|
    ensures MakeKey(names[i]) == Ok(Values(Parsed(names))[i])
  {
    ParsedAt(names, i);
  }

  /**
   * For a path written as pieces, the names are those of the plain pieces
   * followed by those of the formatted pieces.
   */
  lemma PlaceholderNamesOfPieces(ps: seq<Piece>)
    requires forall p | p in ps :: WellWritten(p)
    ensures PlaceholderNames(PathOf(ps)) == PlainNames(ps) + FmtNames(FormattedOf(ps))
  {
    VarNamesOfPath(ps);
  }

  /** The output path of the example in span.go:15: the names are `mode`, then `id`. */
  lemma ExamplePathNames(path: string)
    requires path == "{mode}/{id|%03d}.toml"
    ensures PlaceholderNames(path) == ["mode", "id"]
  {
    var ps := [Plain("mode"), Text("/"), Formatted("id", "%03d"), Text(".toml")];
    ExampleWellWritten(ps);
    ExampleSpelled(ps);
    PlaceholderNamesOfPieces(ps);
    assert PlainNames(ps) == ["mode"];
    assert FormattedOf(ps) == [FmtMatch("id", "%03d")];
  }

  /** The pieces of the example path read back as written. */
  lemma ExampleWellWritten(ps: seq<Piece>)
    requires ps == [Plain("mode"), Text("/"), Formatted("id", "%03d"), Text(".toml")]
    ensures forall p | p in ps :: WellWritten(p)
  {
    assert NameChars("mode") && NameChars("id") && FormatChars("%03d");
  }

  /** The pieces spell the example path. */
  lemma ExampleSpelled(ps: seq<Piece>)
    requires ps == [Plain("mode"), Text("/"), Formatted("id", "%03d"), Text(".toml")]
    ensures PathOf(ps) == "{mode}/{id|%03d}.toml"
  {
    PathOfFour(ps);
    assert Spell(ps[0]) == "{mode}";
    assert Spell(ps[2]) == "{id|%03d}";
  }

  lemma PathOfFour(ps: seq<Piece>)
    requires |ps| == 4
    ensures PathOf(ps) == Spell(ps[0]) + (Spell(ps[1]) + (Spell(ps[2]) + Spell(ps[3])))
  {
    assert PathOf(ps[3..]) == Spell(ps[3]) by {
      assert ps[3..][1..] == [];
    }
    assert PathOf(ps[2..]) == Spell(ps[2]) + PathOf(ps[3..]) by {
      assert ps[2..][1..] == ps[3..];
    }
    assert PathOf(ps[1..]) == Spell(ps[1]) + PathOf(ps[2..]) by {
      assert ps[1..][1..] == ps[2..];
    }
  }
}
