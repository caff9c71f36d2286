/**
 * Key sets and bind groups (parse.go:39-184): the render set filled by
 * `-r`, the bind groups filled by `-b`, the lookup of a key's group, and
 * RemoveBound, which drops from the expand list the keys that ride along
 * with an earlier member of their group.
 */
module Bindings {
  import opened Results
  import opened KeyGrammar

  datatype SetError =
    | Malformed(cause: ParseError)   // the text did not parse as a key (set)
    | AlreadyBound(key: Key)         // "variable %q is already bound"

  /** Key.Equals (parse.go:40-50): same length and the same segments pairwise. */
  method Equals(k: Key, a: Key) returns (r: bool)
    ensures r <==> k == a
  {
    if |k| != |a| {
      return false;
    }
    for i := 0 to |k|
      invariant k[..i] == a[..i]
    {
      if a[i] != k[i] {
        return false;
      }
    }
    assert k == k[..|k|] && a == a[..|a|];
    return true;
  }

  predicate NoDuplicates(keys: seq<Key>) {
    forall i, j | 0 <= i < j < |keys| :: keys[i] != keys[j]
  }

  /** No key belongs to two different groups. */
  predicate Disjoint(groups: seq<seq<Key>>) {
    forall i, j, x | 0 <= i < j < |groups| && x in groups[i] :: x !in groups[j]
  }

  predicate IsBound(groups: seq<seq<Key>>, x: Key) {
    exists g | g in groups :: x in g
  }

  predicate SameGroup(groups: seq<seq<Key>>, x: Key, y: Key) {
    exists g | g in groups :: x in g && y in g
  }

  /** The render set: a list of keys without repetition (parse.go:53, 65-77). */
  class KeySet {
    var keys: seq<Key>

    constructor ()
      ensures keys == []
    {
      keys := [];
    }

    /**
     * Set (parse.go:65-77): parses one key and appends it unless an equal
     * key is already present. A malformed key leaves the set unchanged.
     */
    method Set(s: string) returns (r: Status<SetError>)
      modifies this
      ensures MakeKey(s).Err? ==> r == Fail(Malformed(MakeKey(s).error)) && keys == old(keys)
      ensures MakeKey(s).Ok? ==>
        && r == Pass
        && keys == (if MakeKey(s).value in old(keys) then old(keys) else old(keys) + [MakeKey(s).value])
      ensures NoDuplicates(old(keys)) ==> NoDuplicates(keys)
    {
      var m := MakeKey(s);
      if m.Err? {
        return Fail(Malformed(m.error));
      }
      var key := m.value;
      var present := keys;
      for i := 0 to |present|
        invariant keys == present
        invariant forall j | 0 <= j < i :: present[j] != key
      {
        var same := Equals(present[i], key);
        if same {
          return Pass;
        }
      }
      keys := keys + [key];
      r := Pass;
    }
  }

  /** The bind groups: one group of keys per `-b` flag (parse.go:80, 92-120). */
  class KeySetSet {
    var groups: seq<seq<Key>>

    constructor ()
      ensures groups == []
    {
      groups := [];
    }

    /**
     * Set (parse.go:92-108): parses a key set and appends it as a new group,
     * unless one of its keys already belongs to an earlier group; the first
     * such key (in the order of the new set) is reported and nothing changes.
     */
    method Set(s: string) returns (r: Status<SetError>)
      modifies this
      ensures KeySetOf(s).Err? ==> r == Fail(Malformed(KeySetOf(s).error)) && groups == old(groups)
      ensures KeySetOf(s).Ok? && (forall k | k in KeySetOf(s).value :: !IsBound(old(groups), k)) ==>
        r == Pass && groups == old(groups) + [KeySetOf(s).value]
      ensures KeySetOf(s).Ok? && (exists k | k in KeySetOf(s).value :: IsBound(old(groups), k)) ==>
        r.Fail? && r.error.AlreadyBound?
      ensures r.Fail? && r.error.AlreadyBound? ==>
        && KeySetOf(s).Ok?
        && groups == old(groups)
        && exists i | 0 <= i < |KeySetOf(s).value| ::
             && r.error.key == KeySetOf(s).value[i]
             && IsBound(old(groups), r.error.key)
             && forall j | 0 <= j < i :: !IsBound(old(groups), KeySetOf(s).value[j])
      ensures Disjoint(old(groups)) ==> Disjoint(groups)
    {
      var parsed := ParseKeySet(s);
      if parsed.Err? {
        return Fail(Malformed(parsed.error));
      }
      var ks := parsed.value;
      var bound := groups;
      for i := 0 to |ks|
        invariant groups == bound
        invariant forall j | 0 <= j < i :: !IsBound(bound, ks[j])
      {
        var k := ks[i];
        for g := 0 to |bound|
          invariant groups == bound
          invariant forall h | 0 <= h < g :: k !in bound[h]
        {
          var pks := bound[g];
          for m := 0 to |pks|
            invariant groups == bound
            invariant forall n | 0 <= n < m :: pks[n] != k
          {
            var same := Equals(pks[m], k);
            if same {
              assert IsBound(bound, k) by { assert pks in bound; }
              return Fail(AlreadyBound(k));
            }
          }
        }
        assert !IsBound(bound, k) by {
          forall g | g in bound ensures k !in g {
            var h :| 0 <= h < |bound| && bound[h] == g;
          }
        }
      }
      assert forall k | k in ks :: !IsBound(bound, k);
      groups := groups + [ks];
      r := Pass;
    }

    /** Find (parse.go:111-120): the group that holds `k`, or the singleton `[k]`. */
    method Find(k: Key) returns (r: seq<Key>)
      ensures r == GroupOf(groups, k)
    {
      for g := 0 to |groups|
        invariant GroupOf(groups, k) == GroupOf(groups[g..], k)
      {
        var ks := groups[g];
        GroupOfAt(groups, g, k);
        for m := 0 to |ks|
          invariant k !in ks[..m]
        {
          var same := Equals(k, ks[m]);
          if same {
            return ks;
          }
        }
        assert ks == ks[..|ks|];
      }
      assert groups[|groups|..] == [];
      return [k];
    }
  }

  /**
   * The group KeySetSet.Find returns (parse.go:111-120): the first group
   * holding `k`, or the singleton `[k]` when no group holds it.
   */
  function GroupOf(groups: seq<seq<Key>>, k: Key): (r: seq<Key>)
    ensures k in r
    ensures !IsBound(groups, k) ==> r == [k]
    ensures IsBound(groups, k) ==> exists i | 0 <= i < |groups| ::
      r == groups[i] && forall j | 0 <= j < i :: k !in groups[j]
  {
    if groups == [] then [k]
    else if k in groups[0] then groups[0]
    else
      var r := GroupOf(groups[1..], k);
      assert IsBound(groups, k) ==> IsBound(groups[1..], k) by {
        if IsBound(groups, k) {
          var g :| g in groups && k in g;
          assert g != groups[0];
          var h :| 0 <= h < |groups| && groups[h] == g;
          assert groups[1..][h - 1] == g;
        }
      }
      assert IsBound(groups[1..], k) ==> IsBound(groups, k) by {
        if IsBound(groups[1..], k) {
          var g :| g in groups[1..] && k in g;
          assert g in groups;
        }
      }
      if IsBound(groups, k) then
        assert exists i | 0 <= i < |groups| :: r == groups[i] && forall j | 0 <= j < i :: k !in groups[j] by {
          var i :| 0 <= i < |groups[1..]| && r == groups[1..][i] && forall j | 0 <= j < i :: k !in groups[1..][j];
          assert r == groups[i + 1];
          forall j | 0 <= j < i + 1 ensures k !in groups[j] {
            if j > 0 { assert groups[j] == groups[1..][j - 1]; }
          }
        }
        r
      else r
  }

  /** The group found from position `g` on: the one at `g`, or one further on. */
  lemma GroupOfAt(groups: seq<seq<Key>>, g: nat, k: Key)
    requires g < |groups|
    ensures GroupOf(groups[g..], k) == if k in groups[g] then groups[g] else GroupOf(groups[g + 1..], k)
  {
    assert groups[g..][0] == groups[g] && groups[g..][1..] == groups[g + 1..];
  }

  /** A key found in another key's group is bound, and so is that other key. */
  lemma MatesAreBound(groups: seq<seq<Key>>, x: Key, y: Key)
    requires y != x && y in GroupOf(groups, x)
    ensures IsBound(groups, x) && IsBound(groups, y)
  {
    assert IsBound(groups, x);
    var i :| 0 <= i < |groups| && GroupOf(groups, x) == groups[i] && forall j | 0 <= j < i :: x !in groups[j];
    assert groups[i] in groups;
  }

  /** With disjoint groups, two keys of one group find each other with Find. */
  lemma SameGroupFound(groups: seq<seq<Key>>, x: Key, y: Key)
    requires Disjoint(groups) && SameGroup(groups, x, y)
    ensures y in GroupOf(groups, x)
  {
    var g :| g in groups && x in g && y in g;
    var h :| 0 <= h < |groups| && groups[h] == g;
    assert IsBound(groups, x);
    var i :| 0 <= i < |groups| && GroupOf(groups, x) == groups[i] && forall j | 0 <= j < i :: x !in groups[j];
    assert x in GroupOf(groups, x);
    assert x in groups[i];
  }

  /** Only bound keys are ever removed: an unbound key keeps its count. */
  lemma UnboundKept(before: seq<Key>, after: seq<Key>, n: nat, groups: seq<seq<Key>>)
    requires n <= |after|
    requires multiset(after[..n]) <= multiset(before)
    requires forall x | x in multiset(before) - multiset(after[..n]) :: RidesWith(after[..n], x, groups)
    ensures forall x | !IsBound(groups, x) :: multiset(after[..n])[x] == multiset(before)[x]
  {
    forall x | !IsBound(groups, x) ensures multiset(after[..n])[x] == multiset(before)[x] {
      if x in multiset(before) - multiset(after[..n]) {
        var p :| 0 <= p < n && x != after[..n][p] && x in GroupOf(groups, after[..n][p]);
        MatesAreBound(groups, after[p], x);
      }
    }
  }

  /** With disjoint groups, keys kept apart from each other's Find are in different groups. */
  lemma GroupsApart(s: seq<Key>, n: nat, groups: seq<seq<Key>>)
    requires n <= |s| && Disjoint(groups)
    requires forall p, q | 0 <= p < q < n :: s[q] !in GroupOf(groups, s[p])
    ensures forall p, q | 0 <= p < q < n :: !SameGroup(groups, s[p], s[q])
  {
    forall p, q | 0 <= p < q < n ensures !SameGroup(groups, s[p], s[q]) {
      if SameGroup(groups, s[p], s[q]) {
        SameGroupFound(groups, s[p], s[q]);
      }
    }
  }

  /**
   * Removing position `j` of the first `n` elements by moving the last one
   * into its place shrinks their bag by exactly `s[j]`.
   */
  lemma SwapRemoveBag(s: seq<Key>, n: nat, j: nat)
    requires j < n <= |s|
    ensures multiset(s[j := s[n - 1]][..n - 1]) + multiset{s[j]} == multiset(s[..n])
  {
    var t := s[j := s[n - 1]][..n - 1];
    var front := s[..n - 1];
    assert s[..n] == front + [s[n - 1]];
    if j == n - 1 {
      assert t == front;
    } else {
      assert t == front[j := s[n - 1]];
      assert front[j] == s[j] && s[j] in multiset(front);
    }
  }

  /** The same removal keeps distinct elements distinct, with `s[j]` gone. */
  lemma SwapRemoveDistinct(s: seq<Key>, n: nat, j: nat)
    requires j < n <= |s|
    requires NoDuplicates(s[..n])
    ensures NoDuplicates(s[j := s[n - 1]][..n - 1])
    ensures s[j] !in s[j := s[n - 1]][..n - 1]
  {
    var t := s[j := s[n - 1]][..n - 1];
    forall p, q | 0 <= p < q < |t| ensures t[p] != t[q] {
      var p' := if p == j then n - 1 else p;
      var q' := if q == j then n - 1 else q;
      assert t[p] == s[..n][p'] && t[q] == s[..n][q'];
    }
    forall p | 0 <= p < |t| ensures t[p] != s[j] {
      var p' := if p == j then n - 1 else p;
      assert t[p] == s[..n][p'] && s[j] == s[..n][j];
    }
  }

  /** `x` is in the group of some key of `kept` other than `x` itself. */
  ghost predicate RidesWith(kept: seq<Key>, x: Key, groups: seq<seq<Key>>) {
    exists p | 0 <= p < |kept| :: x != kept[p] && x in GroupOf(groups, kept[p])
  }

  /** Every removed key is a group-mate of a key kept before position `lim`. */
  ghost predicate Covered(s: seq<Key>, n: nat, lim: nat, removed: multiset<Key>, groups: seq<seq<Key>>)
    requires n <= |s|
  {
    forall x | x in removed :: exists p | 0 <= p < n && p < lim :: x != s[p] && x in GroupOf(groups, s[p])
  }

  /** No key kept after a position `p < lim` is in the group of `s[p]`. */
  ghost predicate Spread(s: seq<Key>, n: nat, lim: nat, groups: seq<seq<Key>>)
    requires n <= |s|
  {
    forall p, q | 0 <= p < lim && p < q < n :: s[q] !in GroupOf(groups, s[p])
  }

  /** The members `g[..t]` other than `kx` are gone from the positions after `i`. */
  ghost predicate Cleared(s: seq<Key>, n: nat, i: nat, g: seq<Key>, kx: Key, t: nat)
    requires n <= |s| && t <= |g|
  {
    forall u, q | 0 <= u < t && i < q < n && g[u] != kx :: s[q] != g[u]
  }

  /** Removing the group-mate `s[j]` of `s[i]` keeps the removed keys covered. */
  lemma RemoveKeepsCovered(s: seq<Key>, n: nat, i: nat, j: nat, removed: multiset<Key>, groups: seq<seq<Key>>)
    requires i < j < n <= |s|
    requires Covered(s, n, i + 1, removed, groups)
    requires s[j] != s[i] && s[j] in GroupOf(groups, s[i])
    ensures Covered(s[j := s[n - 1]], n - 1, i + 1, removed + multiset{s[j]}, groups)
  {
    var c := s[j := s[n - 1]];
    forall x | x in removed + multiset{s[j]}
      ensures exists p | 0 <= p < n - 1 && p < i + 1 :: x != c[p] && x in GroupOf(groups, c[p])
    {
      if x in removed {
        var p :| 0 <= p < n && p < i + 1 && x != s[p] && x in GroupOf(groups, s[p]);
        assert c[p] == s[p];
      } else {
        assert c[i] == s[i];
      }
    }
  }

  /** The same removal keeps the keys after earlier positions apart from their groups. */
  lemma RemoveKeepsSpread(s: seq<Key>, n: nat, i: nat, j: nat, groups: seq<seq<Key>>)
    requires i < j < n <= |s|
    requires Spread(s, n, i, groups)
    ensures Spread(s[j := s[n - 1]], n - 1, i, groups)
  {
    var c := s[j := s[n - 1]];
    forall p, q | 0 <= p < i && p < q < n - 1 ensures c[q] !in GroupOf(groups, c[p]) {
      assert c[p] == s[p];
      if q == j {
        assert c[q] == s[n - 1];
      } else {
        assert c[q] == s[q];
      }
    }
  }

  /**
   * Removing the only occurrence after `i` of `k == g[t]` clears `g[..t + 1]`
   * from the positions after `i`, when the keys were distinct.
   */
  lemma RemoveKeepsCleared(s: seq<Key>, n: nat, i: nat, j: nat, g: seq<Key>, kx: Key, t: nat)
    requires i < j < n <= |s| && t < |g| && s[j] == g[t]
    requires NoDuplicates(s[..n])
    requires Cleared(s, n, i, g, kx, t)
    ensures Cleared(s[j := s[n - 1]], n - 1, i, g, kx, t + 1)
  {
    var c := s[j := s[n - 1]];
    SwapRemoveDistinct(s, n, j);
    forall u, q | 0 <= u < t + 1 && i < q < n - 1 && g[u] != kx ensures c[q] != g[u] {
      assert c[q] == c[..n - 1][q];
      if q != j {
        assert c[q] == s[q];
      } else {
        assert c[q] == s[n - 1];
      }
    }
  }

  /** When `g` is the group of `s[i]` and all of it is cleared after `i`, position `i` is spread too. */
  lemma SpreadExtend(s: seq<Key>, n: nat, i: nat, groups: seq<seq<Key>>)
    requires i < n <= |s|
    requires NoDuplicates(s[..n])
    requires Spread(s, n, i, groups)
    requires Cleared(s, n, i, GroupOf(groups, s[i]), s[i], |GroupOf(groups, s[i])|)
    ensures Spread(s, n, i + 1, groups)
  {
    var g := GroupOf(groups, s[i]);
    forall q | i < q < n ensures s[q] !in g {
      assert s[..n][i] != s[..n][q];
    }
  }

  /**
   * The inner loop of RemoveBound (parse.go:173-180): finds the first `k`
   * after position `i` among the first `n` keys of `a`, overwrites it with
   * the last key and returns the shortened length `m` and the position `j`;
   * `m == n` when `k` does not occur there.
   */
  method DropAfter(a: array<Key>, n: nat, i: nat, k: Key) returns (m: nat, j: nat)
    requires n <= a.Length
    modifies a
    ensures m == n ==> a[..] == old(a[..]) && forall q | i < q < n :: a[q] != k
    ensures m != n ==>
      && i < j < n && m == n - 1
      && old(a[j]) == k && (forall q | i < q < j :: old(a[q]) != k)
      && a[..] == old(a[..])[j := old(a[n - 1])]
  {
    j := i + 1;
    while j < n
      invariant j == i + 1 || i + 1 <= j <= n
      invariant a[..] == old(a[..])
      invariant forall q | i < q < j :: a[q] != k
    {
      var eq := Equals(k, a[j]);
      if eq {
        a[j] := a[n - 1];
        return n - 1, j;
      }
      j := j + 1;
    }
    m := n;
  }

  /**
   * One removal made by RemoveBound keeps its loop invariants: `b` and `n`
   * are the list before, `b[i]` the key being walked, `g` its group and
   * `b[j] == g[t]` the group-mate removed; `distinct` says the keys were
   * distinct to begin with.
   */
  lemma DropKeeps(b: seq<Key>, c: seq<Key>, n: nat, i: nat, j: nat, g: seq<Key>, t: nat, removed: multiset<Key>,
                  bag: multiset<Key>, distinct: bool, groups: seq<seq<Key>>)
    requires i < j < n <= |b| && t < |g| && c == b[j := b[n - 1]]
    requires b[j] == g[t] && b[j] != b[i] && g == GroupOf(groups, b[i])
    requires multiset(b[..n]) + removed == bag
    requires Covered(b, n, i + 1, removed, groups)
    requires distinct ==> NoDuplicates(b[..n]) && Spread(b, n, i, groups) && Cleared(b, n, i, g, b[i], t)
    ensures multiset(c[..n - 1]) + (removed + multiset{b[j]}) == bag
    ensures Covered(c, n - 1, i + 1, removed + multiset{b[j]}, groups)
    ensures distinct ==>
      && NoDuplicates(c[..n - 1])
      && Spread(c, n - 1, i, groups)
      && Cleared(c, n - 1, i, g, b[i], t + 1)
  {
    SwapRemoveBag(b, n, j);
    RemoveKeepsCovered(b, n, i, j, removed, groups);
    if distinct {
      RemoveKeepsSpread(b, n, i, j, groups);
      SwapRemoveDistinct(b, n, j);
      RemoveKeepsCleared(b, n, i, j, g, b[i], t);
    }
  }

  /** A member of the group found nowhere after `i` (or equal to `kx`) extends Cleared by one. */
  lemma ClearedStep(s: seq<Key>, n: nat, i: nat, g: seq<Key>, kx: Key, t: nat)
    requires n <= |s| && t < |g|
    requires Cleared(s, n, i, g, kx, t)
    requires g[t] == kx || forall q | i < q < n :: s[q] != g[t]
    ensures Cleared(s, n, i, g, kx, t + 1)
  {
  }

  /**
   * The middle loop of RemoveBound (parse.go:169-181): for each member `k`
   * of the group `g` of `kx`, the key at position `i`, other than `kx`
   * itself, drops the first `k` after position `i` among the first `n`
   * keys. `removed` collects, as a ghost, the keys dropped so far.
   */
  method DropMates(a: array<Key>, n: nat, i: nat, kx: Key, g: seq<Key>,
                   ghost removed: multiset<Key>, ghost groups: seq<seq<Key>>)
    returns (m: nat, ghost removed': multiset<Key>)
    requires n <= a.Length && i < a.Length
    requires i < n ==> a[i] == kx
    requires g == GroupOf(groups, kx)
    requires Covered(a[..], n, i + 1, removed, groups)
    modifies a
    ensures m <= n && (n <= i ==> m == n) && (i < n ==> i < m)
    ensures forall p | 0 <= p <= i :: a[p] == old(a[p])
    ensures multiset(a[..m]) + removed' == multiset(old(a[..n])) + removed
    ensures Covered(a[..], m, i + 1, removed', groups)
    ensures NoDuplicates(old(a[..n])) && Spread(old(a[..]), n, i, groups) ==>
      NoDuplicates(a[..m]) && Spread(a[..], m, i + 1, groups)
  {
    ghost var bag := multiset(a[..n]) + removed;
    ghost var distinct := NoDuplicates(a[..n]) && Spread(a[..], n, i, groups);
    m, removed' := n, removed;
    for t := 0 to |g|
      invariant m <= n && (n <= i ==> m == n) && (i < n ==> i < m)
      invariant forall p | 0 <= p <= i :: a[p] == old(a[p])
      invariant MatesInv(a[..], m, i, kx, g, t, removed', bag, distinct, groups)
    {
      m, removed' := DropMate(a, m, i, kx, g, t, removed', bag, distinct, groups);
    }
    if distinct && i < m {
      SpreadExtend(a[..], m, i, groups);
    }
  }

  /**
   * The invariant of DropMates' loop once the members `g[..t]` are done:
   * the keys left and the keys removed make up `bag`, every removed key is
   * covered, and with distinct keys the list stays spread and `g[..t]` is
   * cleared after position `i`.
   */
  ghost predicate MatesInv(s: seq<Key>, m: nat, i: nat, kx: Key, g: seq<Key>, t: nat, removed: multiset<Key>,
                           bag: multiset<Key>, distinct: bool, groups: seq<seq<Key>>)
    requires m <= |s| && t <= |g|
  {
    && multiset(s[..m]) + removed == bag
    && Covered(s, m, i + 1, removed, groups)
    && (distinct ==> NoDuplicates(s[..m]) && Spread(s, m, i, groups) && Cleared(s, m, i, g, kx, t))
  }

  /** One turn of DropMates' loop: the group member `g[t]`. */
  method DropMate(a: array<Key>, m: nat, i: nat, kx: Key, g: seq<Key>, t: nat,
                  ghost removed: multiset<Key>, ghost bag: multiset<Key>, ghost distinct: bool,
                  ghost groups: seq<seq<Key>>)
    returns (m': nat, ghost removed': multiset<Key>)
    requires m <= a.Length && i < a.Length && t < |g|
    requires i < m ==> a[i] == kx
    requires g == GroupOf(groups, kx)
    requires MatesInv(a[..], m, i, kx, g, t, removed, bag, distinct, groups)
    modifies a
    ensures m' <= m && (m <= i ==> m' == m) && (i < m ==> i < m')
    ensures forall p | 0 <= p <= i :: a[p] == old(a[p])
    ensures MatesInv(a[..], m', i, kx, g, t + 1, removed', bag, distinct, groups)
  {
    var k := g[t];
    var same := Equals(k, kx);
    if same {
      MateSkipped(a[..], m, i, kx, g, t, removed, bag, distinct, groups);
      return m, removed;
    }
    ghost var b := a[..];
    var j;
    m', j := DropAfter(a, m, i, k);
    if m' != m {
      MateDropped(b, a[..], m, i, j, kx, g, t, removed, bag, distinct, groups);
      removed' := removed + multiset{k};
    } else {
      MateSkipped(a[..], m, i, kx, g, t, removed, bag, distinct, groups);
      removed' := removed;
    }
  }

  /** A member that is `kx` itself, or that occurs nowhere after `i`, changes nothing. */
  lemma MateSkipped(s: seq<Key>, m: nat, i: nat, kx: Key, g: seq<Key>, t: nat, removed: multiset<Key>,
                    bag: multiset<Key>, distinct: bool, groups: seq<seq<Key>>)
    requires m <= |s| && t < |g|
    requires MatesInv(s, m, i, kx, g, t, removed, bag, distinct, groups)
    requires g[t] == kx || forall q | i < q < m :: s[q] != g[t]
    ensures MatesInv(s, m, i, kx, g, t + 1, removed, bag, distinct, groups)
  {
    if distinct {
      ClearedStep(s, m, i, g, kx, t);
    }
  }

  /** Dropping the member found at `j` moves the invariant to the shortened list. */
  lemma MateDropped(b: seq<Key>, c: seq<Key>, m: nat, i: nat, j: nat, kx: Key, g: seq<Key>, t: nat,
                    removed: multiset<Key>, bag: multiset<Key>, distinct: bool, groups: seq<seq<Key>>)
    requires i < j < m <= |b| && t < |g| && c == b[j := b[m - 1]]
    requires b[i] == kx && b[j] == g[t] && g[t] != kx && g == GroupOf(groups, kx)
    requires MatesInv(b, m, i, kx, g, t, removed, bag, distinct, groups)
    ensures MatesInv(c, m - 1, i, kx, g, t + 1, removed + multiset{g[t]}, bag, distinct, groups)
  {
    DropKeeps(b, c, m, i, j, g, t, removed, bag, distinct, groups);
  }

  lemma CoveredWiden(s: seq<Key>, n: nat, lim: nat, removed: multiset<Key>, groups: seq<seq<Key>>)
    requires n <= |s| && Covered(s, n, lim, removed, groups)
    ensures Covered(s, n, lim + 1, removed, groups)
  {
    forall x | x in removed ensures exists p | 0 <= p < n && p < lim + 1 :: x != s[p] && x in GroupOf(groups, s[p]) {
      var p :| 0 <= p < n && p < lim && x != s[p] && x in GroupOf(groups, s[p]);
    }
  }

  /** What RemoveBound's loop leaves, `after[..n]` with `removed` dropped, gives its postconditions. */
  lemma RemoveBoundPost(before: seq<Key>, after: seq<Key>, n: nat, removed: multiset<Key>, groups: seq<seq<Key>>)
    requires n <= |after|
    requires multiset(after[..n]) + removed == multiset(before)
    requires Covered(after, n, |after|, removed, groups)
    requires NoDuplicates(before) ==> NoDuplicates(after[..n]) && Spread(after, n, |after|, groups)
    ensures multiset(after[..n]) <= multiset(before)
    ensures forall x | x in multiset(before) - multiset(after[..n]) :: RidesWith(after[..n], x, groups)
    ensures NoDuplicates(before) ==> forall p, q | 0 <= p < q < n :: after[q] !in GroupOf(groups, after[p])
    ensures forall x | !IsBound(groups, x) :: multiset(after[..n])[x] == multiset(before)[x]
    ensures NoDuplicates(before) && Disjoint(groups) ==>
      forall p, q | 0 <= p < q < n :: !SameGroup(groups, after[p], after[q])
  {
    assert multiset(before) - multiset(after[..n]) == removed;
    forall x | x in removed ensures RidesWith(after[..n], x, groups) {
      var p :| 0 <= p < n && p < |after| && x != after[p] && x in GroupOf(groups, after[p]);
      assert after[..n][p] == after[p];
    }
    UnboundKept(before, after, n, groups);
    if NoDuplicates(before) && Disjoint(groups) {
      GroupsApart(after, n, groups);
    }
  }

  /**
   * RemoveBound (parse.go:167-184), in place on the expand list `a`; the
   * list that remains is `a[..n]`. Walking the list, each key removes from
   * the positions after it the first occurrence of every other member of
   * its bind group, moving the last key into the hole.
   */
  method RemoveBound(a: array<Key>, bind: KeySetSet) returns (n: nat)
    modifies a
    ensures n <= a.Length
    ensures a.Length > 0 ==> 1 <= n && a[0] == old(a[0])
    ensures multiset(a[..n]) <= multiset(old(a[..]))
    ensures forall x | x in multiset(old(a[..])) - multiset(a[..n]) :: RidesWith(a[..n], x, bind.groups)
    ensures NoDuplicates(old(a[..])) ==> NoDuplicates(a[..n])
    ensures NoDuplicates(old(a[..])) ==> forall p, q | 0 <= p < q < n :: a[q] !in GroupOf(bind.groups, a[p])
    ensures forall x | !IsBound(bind.groups, x) :: multiset(a[..n])[x] == multiset(old(a[..]))[x]
    ensures NoDuplicates(old(a[..])) && Disjoint(bind.groups) ==>
      forall p, q | 0 <= p < q < n :: !SameGroup(bind.groups, a[p], a[q])
  {
    ghost var A := a[..];
    ghost var G := bind.groups;
    ghost var R: multiset<Key> := multiset{};
    n := a.Length;
    assert a[..n] == A;
    // `range expand` runs over the original length; once the list is
    // shorter than `i + 1` an iteration changes nothing.
    for i := 0 to a.Length
      invariant n <= a.Length
      invariant a.Length > 0 ==> 1 <= n && a[0] == A[0]
      invariant multiset(a[..n]) + R == multiset(A)
      invariant Covered(a[..], n, i, R, G)
      invariant NoDuplicates(A) ==> NoDuplicates(a[..n]) && Spread(a[..], n, i, G)
    {
      var kx := a[i];
      var g := bind.Find(kx);
      CoveredWiden(a[..], n, i, R, G);
      n, R := DropMates(a, n, i, kx, g, R, G);
    }
    RemoveBoundPost(A, a[..], n, R, G);
  }
}
