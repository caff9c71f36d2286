/**
 * The span.go revision of the output side: ParseOutputPath collects the raw
 * placeholder names of the output path as a set (span.go:98-113), and
 * GenerateOutput walks the cartesian product of the arrays those names
 * select in the input document, emitting one document per combination
 * (span.go:116-143).
 */
module Span {
  import opened Results
  import opened Placeholders

  /**
   * A decoded config value. `Array` is a generic list (`[]interface{}`),
   * the only kind of list the expansion walks. `TableArray` is a TOML
   * array of tables (`[]map[string]interface{}`): a list too, but not an
   * `Array`, so a variable holding one is reported as not an array.
   */
  datatype Value =
    | Null
    | Bool(b: bool)
    | Number(n: int)
    | Str(s: string)
    | Array(elems: seq<Value>)
    | Table(fields: map<string, Value>)
    | TableArray(rows: seq<map<string, Value>>)

  /** A config document (span.go:49): top-level names to values. */
  type Config = map<string, Value>

  datatype TemplateError = IncorrectTemplate   // "incorrect output path template"

  /**
   * ParseOutputPath (span.go:98-113): the names of all `{name}` and
   * `{name|format}` placeholders, as the key set of a map. Whether the
   * rewritten path parses as a Go template is the parameter `templateParses`.
   */
  method ParseOutputPath(path: string, templateParses: bool) returns (r: Result<set<string>, TemplateError>)
    ensures r.Ok? <==> templateParses
    ensures r.Ok? ==> r.value == (set n | n in VarNames(path)) + (set m | m in FmtMatches(path) :: m.name)
    ensures r.Ok? ==> forall n | n in r.value :: NameChars(n)
  {
    var vars: set<string> := {};
    var plain := VarNames(path);
    for i := 0 to |plain|
      invariant vars == set j | 0 <= j < i :: plain[j]
    {
      vars := vars + {plain[i]};
    }
    assert vars == set n | n in plain;
    var formatted := FmtMatches(path);
    ghost var before := vars;
    for i := 0 to |formatted|
      invariant vars == before + set j | 0 <= j < i :: formatted[j].name
    {
      vars := vars + {formatted[i].name};
    }
    assert (set j | 0 <= j < |formatted| :: formatted[j].name) == set m | m in formatted :: m.name;
    if !templateParses {
      return Err(IncorrectTemplate);
    }
    return Ok(vars);
  }

  /** The placeholder names of a path spelled from pieces, each name once. */
  lemma NamesOfPieces(ps: seq<Piece>)
    requires forall p | p in ps :: WellWritten(p)
    ensures (set n | n in VarNames(PathOf(ps))) + (set m | m in FmtMatches(PathOf(ps)) :: m.name)
         == set p | p in ps && !p.Text? :: p.name
  {
    VarNamesOfPath(ps);
    PlainSet(ps);
    FormattedSet(ps);
  }

  lemma {:induction false} PlainSet(ps: seq<Piece>)
    ensures (set n | n in PlainNames(ps)) == set p | p in ps && p.Plain? :: p.name
  {
    if ps != [] {
      PlainSet(ps[1..]);
      var head := if ps[0].Plain? then {ps[0].name} else {};
      assert PlainNames(ps) == (if ps[0].Plain? then [ps[0].name] else []) + PlainNames(ps[1..]);
      assert (set n | n in PlainNames(ps)) == head + set n | n in PlainNames(ps[1..]);
      assert ps == [ps[0]] + ps[1..];
      assert (set p | p in ps && p.Plain? :: p.name) == head + set p | p in ps[1..] && p.Plain? :: p.name;
    }
  }

  lemma {:induction false} FormattedSet(ps: seq<Piece>)
    ensures (set m | m in FormattedOf(ps) :: m.name) == set p | p in ps && p.Formatted? :: p.name
  {
    if ps != [] {
      FormattedSet(ps[1..]);
      var head := if ps[0].Formatted? then {ps[0].name} else {};
      var first := if ps[0].Formatted? then [FmtMatch(ps[0].name, ps[0].format)] else [];
      assert FormattedOf(ps) == first + FormattedOf(ps[1..]);
      assert (set m | m in FormattedOf(ps) :: m.name) == head + set m | m in FormattedOf(ps[1..]) :: m.name;
      assert ps == [ps[0]] + ps[1..];
      assert (set p | p in ps && p.Formatted? :: p.name) == head + set p | p in ps[1..] && p.Formatted? :: p.name;
    }
  }

  // ---------------------------------------------------------------------
  // Sums of bags.
  // ---------------------------------------------------------------------

  /** The sum of a sequence of bags. */
  ghost function Total<T>(xs: seq<multiset<T>>): multiset<T> {
    SumTo(xs, |xs|)
  }

  /** The sum of the first `n` bags. */
  ghost function SumTo<T>(xs: seq<multiset<T>>, n: nat): multiset<T>
    requires n <= |xs|
  {
    if n == 0 then multiset{} else SumTo(xs, n - 1) + xs[n - 1]
  }

  /** Only empty bags add up to nothing... and they do. */
  lemma {:induction false} SumToEmpty<T>(xs: seq<multiset<T>>, n: nat)
    requires n <= |xs| && forall i | 0 <= i < n :: xs[i] == multiset{}
    ensures SumTo(xs, n) == multiset{}
  {
    if n > 0 {
      SumToEmpty(xs, n - 1);
    }
  }

  /** Each summand, and each partial sum, is part of the total. */
  lemma {:induction false} SumToIncludes<T>(xs: seq<multiset<T>>, n: nat, i: nat)
    requires i < n <= |xs|
    ensures xs[i] <= SumTo(xs, n)
  {
    if i < n - 1 {
      SumToIncludes(xs, n - 1, i);
    }
  }

  lemma {:induction false} SumToGrows<T>(xs: seq<multiset<T>>, i: nat, n: nat)
    requires i <= n <= |xs|
    ensures SumTo(xs, i) <= SumTo(xs, n)
  {
    if i < n {
      SumToGrows(xs, i, n - 1);
    }
  }

  /** An element of a sum is an element of some summand. */
  lemma {:induction false} SumToMembers<T>(xs: seq<multiset<T>>, n: nat, c: T)
    requires n <= |xs| && c in SumTo(xs, n)
    ensures exists i | 0 <= i < n :: c in xs[i]
  {
    if c !in xs[n - 1] {
      SumToMembers(xs, n - 1, c);
    }
  }

  /** Summands of one size m add up to n * m elements. */
  lemma {:induction false} SumToSize<T>(xs: seq<multiset<T>>, n: nat, m: nat)
    requires n <= |xs| && forall i | 0 <= i < n :: |xs[i]| == m
    ensures |SumTo(xs, n)| == n * m
  {
    if n > 0 {
      SumToSize(xs, n - 1, m);
      assert (n - 1) * m + m == n * m;
    }
  }

  /** Adding two sequences of bags pointwise adds their sums. */
  lemma {:induction false} SumToPlus<T>(xs: seq<multiset<T>>, ys: seq<multiset<T>>, zs: seq<multiset<T>>, n: nat)
    requires n <= |xs| && n <= |ys| && n <= |zs|
    requires forall j | 0 <= j < n :: zs[j] == xs[j] + ys[j]
    ensures SumTo(zs, n) == SumTo(xs, n) + SumTo(ys, n)
  {
    if n > 0 {
      SumToPlus(xs, ys, zs, n - 1);
    }
  }

  /** Column j of a grid whose rows are all longer than j. */
  ghost function Column<T>(g: seq<seq<multiset<T>>>, j: nat): (c: seq<multiset<T>>)
    requires forall i | 0 <= i < |g| :: j < |g[i]|
    ensures |c| == |g| && forall i | 0 <= i < |g| :: c[i] == g[i][j]
  {
    seq(|g|, i requires 0 <= i < |g| && j < |g[i]| => g[i][j])
  }

  /** The first `r` rows of a grid with `n` columns add up the same by rows and by columns. */
  lemma {:induction false} GridSwapTo<T>(g: seq<seq<multiset<T>>>, n: nat, rows: seq<multiset<T>>, r: nat)
    requires forall i | 0 <= i < |g| :: |g[i]| == n
    requires r <= |rows| == |g| && forall i | 0 <= i < |g| :: rows[i] == Total(g[i])
    ensures SumTo(rows, r) == Total(seq(n, j requires 0 <= j < n => SumTo(Column(g, j), r)))
  {
    var cols := seq(n, j requires 0 <= j < n => SumTo(Column(g, j), r));
    if r == 0 {
      SumToEmpty(cols, n);
    } else {
      var cols' := seq(n, j requires 0 <= j < n => SumTo(Column(g, j), r - 1));
      GridSwapTo(g, n, rows, r - 1);
      SumToPlus(cols', g[r - 1], cols, n);
    }
  }

  /** A grid with `n` columns adds up the same by rows and by columns. */
  lemma GridSwap<T>(g: seq<seq<multiset<T>>>, n: nat, rows: seq<multiset<T>>, cols: seq<multiset<T>>)
    requires forall i | 0 <= i < |g| :: |g[i]| == n
    requires |rows| == |g| && forall i | 0 <= i < |g| :: rows[i] == Total(g[i])
    requires |cols| == n && forall j | 0 <= j < n :: cols[j] == Total(Column(g, j))
    ensures Total(rows) == Total(cols)
  {
    GridSwapTo(g, n, rows, |g|);
    assert cols == seq(n, j requires 0 <= j < n => SumTo(Column(g, j), |g|));
  }

  // ---------------------------------------------------------------------
  // The cartesian expansion, as a specification.
  // ---------------------------------------------------------------------

  /** Every variable names an array of the document. */
  predicate AllArrays(doc: Config, vars: set<string>) {
    forall k | k in vars :: k in doc && doc[k].Array?
  }

  /** Every variable that names an array names a non-empty one. */
  predicate ArraysNonEmpty(doc: Config, vars: set<string>) {
    forall k | k in vars && k in doc && doc[k].Array? :: doc[k].elems != []
  }

  /** Some variable, chosen arbitrarily, as the map iteration of span.go:125-128 does. */
  ghost function Pick(vars: set<string>): (k: string)
    requires vars != {}
    ensures k in vars
  {
    var k :| k in vars; k
  }

  /**
   * The documents the expansion of `vars` over `doc` emits, as a bag: one
   * per choice of an element for each variable, nothing when some variable
   * is not an array.
   */
  ghost function Expand(doc: Config, vars: set<string>): multiset<Config>
    decreases |vars|, 1, 0
  {
    if vars == {} then multiset{doc}
    else
      var k := Pick(vars);
      if k in doc && doc[k].Array? then ExpandEach(doc, k, doc[k].elems, vars - {k}, |doc[k].elems|) else multiset{}
  }

  /** The expansions of `rest` with `k` set to each of the first `n` of `vals` in turn, together. */
  ghost function ExpandEach(doc: Config, k: string, vals: seq<Value>, rest: set<string>, n: nat): multiset<Config>
    requires n <= |vals|
    decreases |rest| + 1, 0, n
  {
    if n == 0 then multiset{} else ExpandEach(doc, k, vals, rest, n - 1) + Expand(doc[k := vals[n - 1]], rest)
  }

  /** The expansions of `rest` with `k` set to each of `vals` in turn. */
  ghost function Branches(doc: Config, k: string, vals: seq<Value>, rest: set<string>): (r: seq<multiset<Config>>)
    ensures |r| == |vals|
  {
    seq(|vals|, i requires 0 <= i < |vals| => Expand(doc[k := vals[i]], rest))
  }

  /** The sum of the first `n` branches. */
  lemma {:induction false} EachIsSum(doc: Config, k: string, vals: seq<Value>, rest: set<string>, n: nat)
    requires n <= |vals|
    ensures ExpandEach(doc, k, vals, rest, n) == SumTo(Branches(doc, k, vals, rest), n)
  {
    if n > 0 {
      var bs := Branches(doc, k, vals, rest);
      EachIsSum(doc, k, vals, rest, n - 1);
      assert bs[n - 1] == Expand(doc[k := vals[n - 1]], rest);
      assert SumTo(bs, n) == SumTo(bs, n - 1) + bs[n - 1];
    }
  }

  /** Expand, with the picked variable's branches as a sequence. */
  lemma ExpandPicked(doc: Config, vars: set<string>)
    requires vars != {} && Pick(vars) in doc && doc[Pick(vars)].Array?
    ensures Expand(doc, vars) == Total(Branches(doc, Pick(vars), doc[Pick(vars)].elems, vars - {Pick(vars)}))
  {
    var k := Pick(vars);
    EachIsSum(doc, k, doc[k].elems, vars - {k}, |doc[k].elems|);
  }

  /** The first `i` branches are among the first `n`. */
  lemma {:induction false} EachGrows(doc: Config, k: string, vals: seq<Value>, rest: set<string>, i: nat, n: nat)
    requires i <= n <= |vals|
    ensures ExpandEach(doc, k, vals, rest, i) <= ExpandEach(doc, k, vals, rest, n)
  {
    if i < n {
      EachGrows(doc, k, vals, rest, i, n - 1);
    }
  }

  /** The product of the array lengths of `vars` (0 if one is not an array). */
  ghost function Product(doc: Config, vars: set<string>): nat
    decreases |vars|
  {
    if vars == {} then 1
    else
      var k := Pick(vars);
      (if k in doc && doc[k].Array? then |doc[k].elems| else 0) * Product(doc, vars - {k})
  }

  /** A variable that is not an array leaves nothing to emit. */
  lemma {:induction false} ExpandNotArrays(doc: Config, vars: set<string>)
    requires !AllArrays(doc, vars)
    ensures Expand(doc, vars) == multiset{}
    decreases |vars|
  {
    var k := Pick(vars);
    if k in doc && doc[k].Array? {
      var j :| j in vars && !(j in doc && doc[j].Array?);
      var bs := Branches(doc, k, doc[k].elems, vars - {k});
      ExpandPicked(doc, vars);
      forall i | 0 <= i < |bs| ensures bs[i] == multiset{} {
        assert j in vars - {k} && !(j in doc[k := doc[k].elems[i]] && doc[k := doc[k].elems[i]][j].Array?);
        ExpandNotArrays(doc[k := doc[k].elems[i]], vars - {k});
      }
      SumToEmpty(bs, |bs|);
    }
  }

  /**
   * The bag of emitted documents does not depend on which variable is
   * picked first: expanding any array variable `k` first gives the same.
   */
  lemma {:induction false} ExpandAt(doc: Config, vars: set<string>, k: string)
    requires k in vars && k in doc && doc[k].Array?
    ensures Expand(doc, vars) == Total(Branches(doc, k, doc[k].elems, vars - {k}))
    decreases |vars|, 2
  {
    var p := Pick(vars);
    if p == k {
      ExpandPicked(doc, vars);
    } else if p in doc && doc[p].Array? {
      ExpandSwap(doc, vars, k, p);
    } else {
      var byK := Branches(doc, k, doc[k].elems, vars - {k});
      forall j | 0 <= j < |byK| ensures byK[j] == multiset{} {
        var d := doc[k := doc[k].elems[j]];
        assert p in vars - {k} && !(p in d && d[p].Array?);
        ExpandNotArrays(d, vars - {k});
      }
      SumToEmpty(byK, |byK|);
    }
  }

  /** Row `i` of the grid: `p` set to its `i`th value, then `k` to each of its values. */
  ghost function Grid(doc: Config, p: string, us: seq<Value>, k: string, ks: seq<Value>, rest: set<string>): (g: seq<seq<multiset<Config>>>)
    ensures |g| == |us| && forall i | 0 <= i < |us| :: g[i] == Branches(doc[p := us[i]], k, ks, rest)
  {
    seq(|us|, i requires 0 <= i < |us| => Branches(doc[p := us[i]], k, ks, rest))
  }

  /** Expanding the picked `p` first and then `k` is the grid read by rows... */
  lemma {:induction false} ExpandSwap(doc: Config, vars: set<string>, k: string, p: string)
    requires k in vars && p == Pick(vars) && p != k
    requires k in doc && doc[k].Array? && p in doc && doc[p].Array?
    ensures Expand(doc, vars) == Total(Branches(doc, k, doc[k].elems, vars - {k}))
    decreases |vars|, 1
  {
    var ks, us := doc[k].elems, doc[p].elems;
    var rest := vars - {p} - {k};
    var g := Grid(doc, p, us, k, ks, rest);
    var byP := Branches(doc, p, us, vars - {p});
    var byK := Branches(doc, k, ks, vars - {k});
    GridRows(doc, vars, k, p);
    GridColumns(doc, vars, k, p);
    GridSwap(g, |ks|, byP, byK);
    ExpandPicked(doc, vars);
  }

  lemma {:induction false} GridRows(doc: Config, vars: set<string>, k: string, p: string)
    requires p in vars && k in vars && p != k
    requires k in doc && doc[k].Array? && p in doc && doc[p].Array?
    ensures var g := Grid(doc, p, doc[p].elems, k, doc[k].elems, vars - {p} - {k});
      forall i | 0 <= i < |g| :: Branches(doc, p, doc[p].elems, vars - {p})[i] == Total(g[i])
    decreases |vars|, 0
  {
    var ks, us := doc[k].elems, doc[p].elems;
    var g := Grid(doc, p, us, k, ks, vars - {p} - {k});
    forall i | 0 <= i < |g| ensures Branches(doc, p, us, vars - {p})[i] == Total(g[i]) {
      assert doc[p := us[i]][k] == doc[k];
      ExpandAt(doc[p := us[i]], vars - {p}, k);
    }
  }

  /** ...and by columns, which is expanding `k` first. */
  lemma {:induction false} GridColumns(doc: Config, vars: set<string>, k: string, p: string)
    requires p in vars && k in vars && p != k
    requires k in doc && doc[k].Array? && p in doc && doc[p].Array?
    ensures var g := Grid(doc, p, doc[p].elems, k, doc[k].elems, vars - {p} - {k});
      forall j | 0 <= j < |doc[k].elems| :: Branches(doc, k, doc[k].elems, vars - {k})[j] == Total(Column(g, j))
    decreases |vars|, 0, 1
  {
    forall j | 0 <= j < |doc[k].elems|
      ensures Branches(doc, k, doc[k].elems, vars - {k})[j]
        == Total(Column(Grid(doc, p, doc[p].elems, k, doc[k].elems, vars - {p} - {k}), j))
    {
      GridColumn(doc, vars, k, p, j);
    }
  }

  /** Column `j` of the grid: `k` set to its `j`th value, then `p` to each of its values. */
  lemma {:induction false} GridColumn(doc: Config, vars: set<string>, k: string, p: string, j: nat)
    requires p in vars && k in vars && p != k
    requires k in doc && doc[k].Array? && p in doc && doc[p].Array? && j < |doc[k].elems|
    ensures Branches(doc, k, doc[k].elems, vars - {k})[j]
      == Total(Column(Grid(doc, p, doc[p].elems, k, doc[k].elems, vars - {p} - {k}), j))
    decreases |vars|, 0, 0
  {
    var ks, us := doc[k].elems, doc[p].elems;
    var rest := vars - {p} - {k};
    assert vars - {k} - {p} == rest;
    var d := doc[k := ks[j]];
    assert d[p] == doc[p];
    ExpandAt(d, vars - {k}, p);
    ColumnIsBranches(doc, p, us, k, ks, rest, j);
  }

  lemma ColumnIsBranches(doc: Config, p: string, us: seq<Value>, k: string, ks: seq<Value>, rest: set<string>, j: nat)
    requires p != k && j < |ks|
    ensures Column(Grid(doc, p, us, k, ks, rest), j) == Branches(doc[k := ks[j]], p, us, rest)
  {
    var g := Grid(doc, p, us, k, ks, rest);
    forall i | 0 <= i < |us| ensures Column(g, j)[i] == Expand(doc[k := ks[j]][p := us[i]], rest) {
      assert doc[p := us[i]][k := ks[j]] == doc[k := ks[j]][p := us[i]];
    }
  }

  /** The count of names outside the changed key does not see the change. */
  lemma {:induction false} ProductFrame(d1: Config, d2: Config, vars: set<string>)
    requires forall j | j in vars :: (j in d1 <==> j in d2) && (j in d1 ==> d1[j] == d2[j])
    ensures Product(d1, vars) == Product(d2, vars)
    decreases |vars|
  {
    if vars != {} {
      ProductFrame(d1, d2, vars - {Pick(vars)});
    }
  }

  /** The number of emitted documents is the product of the array lengths. */
  lemma {:induction false} ExpandCount(doc: Config, vars: set<string>)
    ensures |Expand(doc, vars)| == Product(doc, vars)
    decreases |vars|
  {
    if vars != {} {
      var k := Pick(vars);
      if k in doc && doc[k].Array? {
        var rest := vars - {k};
        var bs := Branches(doc, k, doc[k].elems, rest);
        ExpandPicked(doc, vars);
        forall i | 0 <= i < |bs| ensures |bs[i]| == Product(doc, rest) {
          ExpandCount(doc[k := doc[k].elems[i]], rest);
          ProductFrame(doc[k := doc[k].elems[i]], doc, rest);
        }
        SumToSize(bs, |bs|, Product(doc, rest));
      }
    }
  }

  /** The documents emitted by the expansion started at `doc`. */
  ghost predicate Emitted(doc: Config, vars: set<string>, c: Config) {
    && c.Keys == doc.Keys
    && (forall j | j in vars :: j in doc && doc[j].Array? && c[j] in doc[j].elems)
    && (forall j | j in doc && j !in vars :: c[j] == doc[j])
  }

  /**
   * Every emitted document keeps the keys of the input, holds an element of
   * the original array at each variable and the original value elsewhere.
   */
  lemma {:induction false} ExpandMembers(doc: Config, vars: set<string>, c: Config)
    requires c in Expand(doc, vars)
    ensures Emitted(doc, vars, c)
    decreases |vars|
  {
    if vars != {} {
      var k := Pick(vars);
      if k in doc && doc[k].Array? {
        var bs := Branches(doc, k, doc[k].elems, vars - {k});
        ExpandPicked(doc, vars);
        SumToMembers(bs, |bs|, c);
        var i :| 0 <= i < |bs| && c in bs[i];
        var v := doc[k].elems[i];
        ExpandMembers(doc[k := v], vars - {k}, c);
        EmittedAfterSet(doc, vars, k, v, c);
      } else {
        assert false;
      }
    }
  }

  /**
   * Conversely, every choice of an element for each variable is emitted:
   * the expansion is the whole cartesian product.
   */
  lemma {:induction false} ExpandComplete(doc: Config, vars: set<string>, c: Config)
    requires Emitted(doc, vars, c)
    ensures c in Expand(doc, vars)
    decreases |vars|
  {
    if vars == {} {
      assert c == doc;
    } else {
      var k := Pick(vars);
      var rest := vars - {k};
      var vals := doc[k].elems;
      var i :| 0 <= i < |vals| && vals[i] == c[k];
      var d := doc[k := vals[i]];
      forall j | j in d && j !in rest ensures c[j] == d[j] {
        if j != k {
          assert j !in vars;
        }
      }
      forall j | j in rest ensures j in d && d[j].Array? && c[j] in d[j].elems {
        assert j in vars && d[j] == doc[j];
      }
      assert Emitted(d, rest, c);
      ExpandComplete(d, rest, c);
      var bs := Branches(doc, k, vals, rest);
      assert bs[i] == Expand(d, rest);
      SumToIncludes(bs, |bs|, i);
      ExpandPicked(doc, vars);
    }
  }

  lemma EmittedAfterSet(doc: Config, vars: set<string>, k: string, v: Value, c: Config)
    requires k in vars && k in doc && doc[k].Array? && v in doc[k].elems
    requires Emitted(doc[k := v], vars - {k}, c)
    ensures Emitted(doc, vars, c)
  {
    forall j | j in vars ensures j in doc && doc[j].Array? && c[j] in doc[j].elems {
      if j != k {
        assert j in vars - {k};
      }
    }
  }

  /** The input document of the example in span.go:15-30. */
  const ExampleDoc: Config := map[
    "foo" := Number(42),
    "id" := Array([Number(5), Number(10), Number(200)]),
    "mode" := Array([Str("normal"), Str("crazy")])]

  /** The example emits six documents: two modes times three ids. */
  lemma ExampleCount()
    ensures |Expand(ExampleDoc, {"mode", "id"})| == 6
  {
    ExpandCount(ExampleDoc, {"mode", "id"});
    ProductTwo(ExampleDoc, "mode", "id");
    assert |ExampleDoc["mode"].elems| == 2 && |ExampleDoc["id"].elems| == 3;
  }

  /** With two array variables, the product is that of their two lengths. */
  lemma ProductTwo(doc: Config, a: string, b: string)
    requires a != b && a in doc && doc[a].Array? && b in doc && doc[b].Array?
    ensures Product(doc, {a, b}) == |doc[a].elems| * |doc[b].elems|
  {
    var k := Pick({a, b});
    var other := if k == a then b else a;
    assert {a, b} - {k} == {other};
    assert Pick({other}) == other && {other} - {other} == {};
    assert Product(doc, {other}) == |doc[other].elems|;
  }

  /** Among them, the document written to crazy/010.toml. */
  lemma ExampleCrazy010()
    ensures map["foo" := Number(42), "id" := Number(10), "mode" := Str("crazy")] in Expand(ExampleDoc, {"mode", "id"})
  {
    var c := map["foo" := Number(42), "id" := Number(10), "mode" := Str("crazy")];
    assert ExampleDoc["id"].elems[1] == c["id"];
    assert ExampleDoc["mode"].elems[1] == c["mode"];
    ExpandComplete(ExampleDoc, {"mode", "id"}, c);
  }

  // ---------------------------------------------------------------------
  // The walk itself.
  // ---------------------------------------------------------------------

  datatype GenError =
    | NotArray(key: string)        // "%q must be an array"
    | LeafFailed(doc: Config)      // executing the template or writing the file failed

  /**
   * The state GenerateOutput works on: the input document `in` (here `doc`),
   * the variable set `vars` (a map with nil values in span.go, so a set
   * here), and the log of documents emitted so far. Executing the template
   * and writing the file for a document is opaque; `leafFails` says for which
   * documents it fails.
   */
  class Generator {
    var doc: Config
    var vars: set<string>
    var written: seq<Config>
    const leafFails: Config -> bool

    constructor (doc0: Config, vars0: set<string>, leafFails0: Config -> bool)
      ensures doc == doc0 && vars == vars0 && written == [] && leafFails == leafFails0
    {
      doc, vars, written := doc0, vars0, [];
      leafFails := leafFails0;
    }

    /**
     * The error `e` is one that walking `vs` over `d`, with `bag` to emit,
     * can report: a variable that is not an array, or a document of the bag
     * whose template or file fails.
     */
    ghost predicate Explained(e: GenError, d: Config, vs: set<string>, bag: multiset<Config>) {
      match e
      case NotArray(key) => key in vs && !(key in d && d[key].Array?)
      case LeafFailed(c) => leafFails(c) && c in bag
    }

    /** No document of `bag` has a failing template or file. */
    ghost predicate NoneFails(bag: multiset<Config>) {
      forall c | c in bag :: !leafFails(c)
    }

    /**
     * GenerateOutput (span.go:116-143). With no variables left the current
     * document is emitted. Otherwise a variable `k` is taken out of `vars`;
     * its value must be an array, and each element in turn is stored at `k`
     * for a recursive walk. The first failure is returned at once, with
     * `doc` and `vars` left as they are; on success both are restored.
     */
    method GenerateOutput() returns (r: Status<GenError>, ghost out: seq<Config>)
      modifies this
      decreases |vars|, 3
      ensures written == old(written) + out
      ensures doc.Keys == old(doc).Keys
      ensures multiset(out) <= Expand(old(doc), old(vars))
      ensures NoneFails(multiset(out))
      ensures r.Pass? ==> NoneFails(Expand(old(doc), old(vars)))
      ensures out != [] ==> AllArrays(old(doc), old(vars))
      ensures r.Pass? ==>
        && doc == old(doc) && vars == old(vars)
        && multiset(out) == Expand(old(doc), old(vars))
      ensures r.Fail? ==> vars <= old(vars) && (old(vars) != {} ==> vars < old(vars))
      ensures r.Fail? && r.error.NotArray? ==>
        && out == []
        && r.error.key in old(vars)
        && !(r.error.key in old(doc) && old(doc)[r.error.key].Array?)
      ensures r.Fail? && r.error.LeafFailed? ==>
        && leafFails(r.error.doc)
        && r.error.doc in Expand(old(doc), old(vars))
      ensures AllArrays(old(doc), old(vars)) && NoneFails(Expand(old(doc), old(vars))) ==>
        r.Pass?
      ensures ArraysNonEmpty(old(doc), old(vars)) && !AllArrays(old(doc), old(vars)) ==>
        r.Fail? && r.error.NotArray?
      ensures old(vars) == {} ==>
        && (r.Pass? <==> !leafFails(old(doc)))
        && out == (if r.Pass? then [old(doc)] else [])
    {
      if vars == {} {
        if leafFails(doc) {
          return Fail(LeafFailed(doc)), [];
        }
        written := written + [doc];
        return Pass, [doc];
      }
      ghost var D, V := doc, vars;
      var k :| k in vars;
      vars := vars - {k};
      if !(k in doc && doc[k].Array?) {
        return Fail(NotArray(k)), [];
      }
      var vals := doc[k].elems;
      ExpandAtEach(D, V, k);
      ArraysWithout(D, V, k);
      assert vars + {k} == V;
      r, out := Walk(k, vals);
      if out != [] {
        EmittedMeansArrays(D, V, out);
      }
      if r.Pass? {
        SetTwice(D, k, doc[k], D[k]);
        SetSame(D, k);
        doc := doc[k := Array(vals)];
        vars := vars + {k};
      }
    }

    /**
     * The loop of GenerateOutput over the elements of the array at `k`
     * (span.go:134-139): each element in turn is stored at `k` and the
     * remaining variables are walked; the first failure stops the loop.
     */
    method Walk(k: string, vals: seq<Value>) returns (r: Status<GenError>, ghost out: seq<Config>)
      requires k !in vars && k in doc && doc[k] == Array(vals)
      modifies this
      decreases |vars| + 1, 2
      ensures written == old(written) + out && multiset(out) <= ExpandEach(old(doc), k, vals, old(vars), |vals|)
      ensures NoneFails(multiset(out))
      ensures vars <= old(vars) && k in doc && doc.Keys == old(doc).Keys
      ensures r.Pass? ==>
        && vars == old(vars) && doc == old(doc)[k := doc[k]]
        && multiset(out) == ExpandEach(old(doc), k, vals, old(vars), |vals|)
      ensures r.Fail? ==> Explained(r.error, old(doc), old(vars), ExpandEach(old(doc), k, vals, old(vars), |vals|))
      ensures vals != [] && ArraysNonEmpty(old(doc), old(vars)) && !AllArrays(old(doc), old(vars)) ==>
        r.Fail? && r.error.NotArray?
    {
      ghost var D, W, rest := doc, written, vars;
      ghost var doomed := ArraysNonEmpty(D, rest) && !AllArrays(D, rest);
      out := [];
      SetSame(D, k);
      for i := 0 to |vals|
        invariant vars == rest && k in doc && doc == D[k := doc[k]]
        invariant written == W + out && multiset(out) == ExpandEach(D, k, vals, rest, i)
        invariant NoneFails(multiset(out))
        invariant doomed ==> i == 0
      {
        var sub;
        sub, out := Branch(k, vals, i, D, W, out);
        if sub.Fail? {
          return sub, out;
        }
      }
      return Pass, out;
    }

    /**
     * One pass of the loop: the `i`th element is stored at `k` and the
     * remaining variables are walked. `log` is what the earlier passes
     * emitted after `W`; `out` extends it with what this pass emits.
     */
    method Branch(k: string, vals: seq<Value>, i: nat, ghost D: Config, ghost W: seq<Config>, ghost log: seq<Config>)
      returns (r: Status<GenError>, ghost out: seq<Config>)
      requires k !in vars && k in D && D[k] == Array(vals) && k in doc && doc == D[k := doc[k]] && i < |vals|
      requires written == W + log && multiset(log) == ExpandEach(D, k, vals, vars, i)
      requires NoneFails(multiset(log))
      modifies this
      decreases |vars| + 1, 1
      ensures written == W + out && multiset(out) <= ExpandEach(D, k, vals, old(vars), |vals|)
      ensures NoneFails(multiset(out))
      ensures vars <= old(vars) && k in doc && doc.Keys == D.Keys
      ensures r.Pass? ==>
        && vars == old(vars) && doc == D[k := vals[i]]
        && multiset(out) == ExpandEach(D, k, vals, old(vars), i + 1)
      ensures r.Fail? ==> Explained(r.error, D, old(vars), ExpandEach(D, k, vals, old(vars), |vals|))
      ensures ArraysNonEmpty(D, old(vars)) && !AllArrays(D, old(vars)) ==> r.Fail? && r.error.NotArray?
    {
      SetTwice(D, k, doc[k], vals[i]);
      SetOutside(D, k, vals[i], vars);
      doc := doc[k := vals[i]];
      ghost var o;
      r, o := Visit(Expand(doc, vars));
      BagStep(D, k, vals, old(vars), i, log, o);
      AppendAssoc(W, log, o);
      out := log + o;
    }

    /** The recursive call of span.go:135, with the bag it is to emit named `e`. */
    method Visit(ghost e: multiset<Config>) returns (r: Status<GenError>, ghost out: seq<Config>)
      requires e == Expand(doc, vars)
      modifies this
      decreases |vars| + 1, 0
      ensures written == old(written) + out && multiset(out) <= e
      ensures NoneFails(multiset(out))
      ensures vars <= old(vars) && doc.Keys == old(doc).Keys
      ensures r.Pass? ==> vars == old(vars) && doc == old(doc) && multiset(out) == e
      ensures r.Fail? ==> Explained(r.error, old(doc), old(vars), e)
      ensures ArraysNonEmpty(old(doc), old(vars)) && !AllArrays(old(doc), old(vars)) ==> r.Fail? && r.error.NotArray?
    {
      r, out := GenerateOutput();
    }
  }

  /** One more branch's output, as part of the whole walk's bag. */
  lemma BagStep(D: Config, k: string, vals: seq<Value>, rest: set<string>, i: nat, log: seq<Config>, o: seq<Config>)
    requires i < |vals| && multiset(log) == ExpandEach(D, k, vals, rest, i)
    requires multiset(o) <= Expand(D[k := vals[i]], rest)
    ensures multiset(log + o) <= ExpandEach(D, k, vals, rest, |vals|)
    ensures multiset(o) == Expand(D[k := vals[i]], rest) ==> multiset(log + o) == ExpandEach(D, k, vals, rest, i + 1)
    ensures Expand(D[k := vals[i]], rest) <= ExpandEach(D, k, vals, rest, |vals|)
  {
    EachGrows(D, k, vals, rest, i + 1, |vals|);
  }

  /** ExpandAt, with the branches summed as the walk sums them. */
  lemma ExpandAtEach(doc: Config, vars: set<string>, k: string)
    requires k in vars && k in doc && doc[k].Array?
    ensures Expand(doc, vars) == ExpandEach(doc, k, doc[k].elems, vars - {k}, |doc[k].elems|)
  {
    ExpandAt(doc, vars, k);
    EachIsSum(doc, k, doc[k].elems, vars - {k}, |doc[k].elems|);
  }

  /** Taking an array variable out keeps the variables that are not arrays, and it has elements. */
  lemma ArraysWithout(doc: Config, vars: set<string>, k: string)
    requires k in vars && k in doc && doc[k].Array?
    ensures ArraysNonEmpty(doc, vars) ==> ArraysNonEmpty(doc, vars - {k}) && doc[k].elems != []
    ensures !AllArrays(doc, vars) ==> !AllArrays(doc, vars - {k})
  {
  }

  /** Storing at a key that is not a variable changes nothing the variables see. */
  lemma SetOutside(doc: Config, k: string, v: Value, vars: set<string>)
    requires k !in vars
    ensures AllArrays(doc[k := v], vars) == AllArrays(doc, vars)
    ensures ArraysNonEmpty(doc[k := v], vars) == ArraysNonEmpty(doc, vars)
  {
    assert forall j | j in vars :: j in doc[k := v] <==> j in doc;
  }

  lemma AppendAssoc(a: seq<Config>, b: seq<Config>, c: seq<Config>)
    ensures a + b + c == a + (b + c)
  {
  }

  lemma SetSame(d: Config, k: string)
    requires k in d
    ensures d == d[k := d[k]]
  {
  }

  lemma SetTwice(d: Config, k: string, u: Value, v: Value)
    ensures d[k := u][k := v] == d[k := v]
  {
  }

  /** A variable holding an array of tables is not walked: nothing is emitted. */
  lemma TableArrayNotExpanded(doc: Config, vars: set<string>, k: string, rows: seq<map<string, Value>>)
    requires k in vars && k in doc && doc[k] == TableArray(rows)
    ensures !AllArrays(doc, vars) && Expand(doc, vars) == multiset{}
  {
    ExpandNotArrays(doc, vars);
  }

  /** Something emitted means every variable named an array. */
  lemma EmittedMeansArrays(doc: Config, vars: set<string>, out: seq<Config>)
    requires out != [] && multiset(out) <= Expand(doc, vars)
    ensures AllArrays(doc, vars)
  {
    assert out[0] in Expand(doc, vars);
    if !AllArrays(doc, vars) {
      ExpandNotArrays(doc, vars);
    }
  }
}
