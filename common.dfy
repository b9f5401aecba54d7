/** Value-level counterparts of the JavaScript array, string and object
    operations the screens are built from: `filter`, `map` over a
    condition, `find`, `every`, `includes`, `toLowerCase`, `||` on strings,
    and plain objects used as insertion-ordered dictionaries. */
module Common {

  datatype Option<+T> = None | Some(value: T)

  // ---------------------------------------------------------------------
  // Sequences

  /** Array.prototype.filter: the elements satisfying `p`, in order. */
  function Filter<T>(s: seq<T>, p: T -> bool): (r: seq<T>)
    ensures |r| <= |s|
    ensures forall x :: x in r ==> x in s && p(x)
    ensures forall x :: x in s && p(x) ==> x in r
  {
    if s == [] then []
    else if p(s[0]) then [s[0]] + Filter(s[1..], p)
    else Filter(s[1..], p)
  }

  /** `r` can be obtained from `s` by deleting elements (order is kept). */
  predicate IsSubsequence<T(==)>(r: seq<T>, s: seq<T>)
    decreases |s|
  {
    |r| <= |s| &&
    (r == [] || (r[0] == s[0] && IsSubsequence(r[1..], s[1..])) || IsSubsequence(r, s[1..]))
  }

  predicate NoDuplicates<T(==)>(s: seq<T>) {
    forall i, j :: 0 <= i < j < |s| ==> s[i] != s[j]
  }

  lemma {:induction false} SubsequenceOfSelf<T>(s: seq<T>)
    ensures IsSubsequence(s, s)
  {
    if s != [] {
      SubsequenceOfSelf(s[1..]);
    }
  }

  lemma {:induction false} FilterIsSubsequence<T>(s: seq<T>, p: T -> bool)
    ensures IsSubsequence(Filter(s, p), s)
  {
    if s != [] {
      FilterIsSubsequence(s[1..], p);
    }
  }

  /** Filter keeps every copy of a satisfying element and no copy of any other. */
  lemma {:induction false} FilterMultiplicity<T>(s: seq<T>, p: T -> bool, x: T)
    ensures multiset(Filter(s, p))[x] == if p(x) then multiset(s)[x] else 0
  {
    if s != [] {
      FilterMultiplicity(s[1..], p, x);
      assert s == [s[0]] + s[1..];
      assert multiset(s) == multiset([s[0]]) + multiset(s[1..]);
      if p(s[0]) {
        assert multiset(Filter(s, p)) == multiset([s[0]]) + multiset(Filter(s[1..], p));
      }
    }
  }

  /** A filter whose condition holds everywhere changes nothing. */
  lemma {:induction false} FilterKeepsAll<T>(s: seq<T>, p: T -> bool)
    requires forall i :: 0 <= i < |s| ==> p(s[i])
    ensures Filter(s, p) == s
  {
    if s != [] {
      assert p(s[0]);
      FilterKeepsAll(s[1..], p);
      assert s == [s[0]] + s[1..];
    }
  }

  /** Two filters in a row are one filter by the conjunction `r`. */
  lemma {:induction false} FilterFilter<T>(s: seq<T>, p: T -> bool, q: T -> bool, r: T -> bool)
    requires forall i :: 0 <= i < |s| ==> r(s[i]) == (p(s[i]) && q(s[i]))
    ensures Filter(Filter(s, p), q) == Filter(s, r)
  {
    if s != [] {
      assert forall i :: 1 <= i < |s| ==> s[1..][i - 1] == s[i];
      FilterFilter(s[1..], p, q, r);
      if p(s[0]) {
        assert Filter(s, p) == [s[0]] + Filter(s[1..], p);
        assert Filter(s, p)[1..] == Filter(s[1..], p);
      }
    }
  }

  /** Filters by conditions that agree on every element are equal. */
  lemma {:induction false} FilterCongruence<T>(s: seq<T>, p: T -> bool, q: T -> bool)
    requires forall i :: 0 <= i < |s| ==> p(s[i]) == q(s[i])
    ensures Filter(s, p) == Filter(s, q)
  {
    if s != [] {
      assert forall i :: 1 <= i < |s| ==> s[1..][i - 1] == s[i];
      FilterCongruence(s[1..], p, q);
    }
  }

  /** A filter step that runs only while its control is active, like
      `if (term) result = result.filter(...)`. */
  function FilterWhen<T>(s: seq<T>, active: bool, p: T -> bool): seq<T> {
    if active then Filter(s, p) else s
  }

  /** Two conditional steps are one filter by `r`, the conjunction of
      the active conditions. */
  lemma FilterWhenTwice<T>(s: seq<T>, a: bool, p: T -> bool, b: bool, q: T -> bool, r: T -> bool)
    requires forall i :: 0 <= i < |s| ==> r(s[i]) == ((!a || p(s[i])) && (!b || q(s[i])))
    ensures FilterWhen(FilterWhen(s, a, p), b, q) == Filter(s, r)
  {
    if a && b {
      FilterFilter(s, p, q, r);
    } else if a {
      FilterCongruence(s, p, r);
    } else if b {
      FilterCongruence(s, q, r);
    } else {
      FilterKeepsAll(s, r);
    }
  }

  /** Three conditional steps are one filter by `r`, the conjunction of
      the active conditions. */
  lemma FilterWhenThrice<T>(s: seq<T>, a: bool, p: T -> bool, b: bool, q: T -> bool,
                            c: bool, t: T -> bool, r: T -> bool)
    requires forall i :: 0 <= i < |s| ==>
               r(s[i]) == ((!a || p(s[i])) && (!b || q(s[i])) && (!c || t(s[i])))
    ensures FilterWhen(FilterWhen(FilterWhen(s, a, p), b, q), c, t) == Filter(s, r)
  {
    var pq := (x: T) => (!a || p(x)) && (!b || q(x));
    FilterWhenTwice(s, a, p, b, q, pq);
    if c {
      FilterFilter(s, pq, t, r);
    } else {
      FilterCongruence(s, pq, r);
    }
  }

  /** The elements kept by `p` and those kept by its negation `q`
      together make up `s`. */
  lemma {:induction false} FilterPartition<T>(s: seq<T>, p: T -> bool, q: T -> bool)
    requires forall i :: 0 <= i < |s| ==> q(s[i]) == !p(s[i])
    ensures |Filter(s, p)| + |Filter(s, q)| == |s|
    ensures multiset(Filter(s, p)) + multiset(Filter(s, q)) == multiset(s)
  {
    if s != [] {
      assert forall i :: 0 <= i < |s[1..]| ==> s[1..][i] == s[i + 1];
      FilterPartition(s[1..], p, q);
      assert s == [s[0]] + s[1..];
      assert multiset(s) == multiset([s[0]]) + multiset(s[1..]);
      if p(s[0]) {
        assert multiset(Filter(s, p)) == multiset([s[0]]) + multiset(Filter(s[1..], p));
      } else {
        assert multiset(Filter(s, q)) == multiset([s[0]]) + multiset(Filter(s[1..], q));
      }
    }
  }

  lemma {:induction false} FilterNoDuplicates<T>(s: seq<T>, p: T -> bool)
    requires NoDuplicates(s)
    ensures NoDuplicates(Filter(s, p))
  {
    if s != [] {
      assert NoDuplicates(s[1..]) by {
        forall i, j | 0 <= i < j < |s[1..]| ensures s[1..][i] != s[1..][j] {
          assert s[1..][i] == s[i + 1] && s[1..][j] == s[j + 1];
        }
      }
      FilterNoDuplicates(s[1..], p);
      if p(s[0]) {
        var rest := Filter(s[1..], p);
        assert s[0] !in s[1..] by {
          forall k | 0 <= k < |s[1..]| ensures s[1..][k] != s[0] {
            assert s[1..][k] == s[k + 1];
          }
        }
        assert s[0] !in rest;
        ConsNoDuplicates(s[0], rest);
      }
    }
  }

  lemma ConsNoDuplicates<T>(x: T, s: seq<T>)
    requires NoDuplicates(s) && x !in s
    ensures NoDuplicates([x] + s)
  {
    var r := [x] + s;
    forall i, j | 0 <= i < j < |r| ensures r[i] != r[j] {
      assert r[j] == s[j - 1];
      if i > 0 {
        assert r[i] == s[i - 1];
      }
    }
  }

  lemma AppendNoDuplicates<T>(s: seq<T>, x: T)
    requires NoDuplicates(s) && x !in s
    ensures NoDuplicates(s + [x])
  {
    var r := s + [x];
    forall i, j | 0 <= i < j < |r| ensures r[i] != r[j] {
      assert r[i] == s[i];
      if j < |s| {
        assert r[j] == s[j];
      }
    }
  }

  /** `s.map(x => p(x) ? f(x) : x)`: rewrite exactly the elements satisfying `p`. */
  function MapWhere<T>(s: seq<T>, p: T -> bool, f: T -> T): (r: seq<T>)
    ensures |r| == |s|
    ensures forall i :: 0 <= i < |s| ==> r[i] == if p(s[i]) then f(s[i]) else s[i]
  {
    if s == [] then []
    else [if p(s[0]) then f(s[0]) else s[0]] + MapWhere(s[1..], p, f)
  }

  /** Filtering out every element `q` rejects, after rewriting elements
      that `q` rejects both before and after the rewrite, is filtering
      the original. */
  lemma {:induction false} FilterAfterMapWhere<T>(s: seq<T>, p: T -> bool, f: T -> T, q: T -> bool)
    requires forall i :: 0 <= i < |s| && p(s[i]) ==> !q(s[i]) && !q(f(s[i]))
    ensures Filter(MapWhere(s, p, f), q) == Filter(s, q)
  {
    if s != [] {
      assert MapWhere(s, p, f)[1..] == MapWhere(s[1..], p, f);
      assert forall i :: 0 <= i < |s[1..]| ==> s[1..][i] == s[i + 1];
      FilterAfterMapWhere(s[1..], p, f, q);
    }
  }

  /** Array.prototype.find: the first element satisfying `p`, if any. */
  function FindFirst<T>(s: seq<T>, p: T -> bool): (r: Option<T>)
    ensures r.None? <==> forall i :: 0 <= i < |s| ==> !p(s[i])
    ensures r.Some? ==> exists i :: 0 <= i < |s| && s[i] == r.value && p(s[i]) &&
                          forall j :: 0 <= j < i ==> !p(s[j])
  {
    if s == [] then None
    else if p(s[0]) then Some(s[0])
    else
      var r := FindFirst(s[1..], p);
      assert r.Some? ==> exists i :: 0 <= i < |s| && s[i] == r.value && p(s[i]) &&
                                   forall j :: 0 <= j < i ==> !p(s[j]) by {
        if r.Some? {
          var i :| 0 <= i < |s[1..]| && s[1..][i] == r.value && p(s[1..][i]) &&
                   forall j :: 0 <= j < i ==> !p(s[1..][j]);
          assert s[i + 1] == r.value && p(s[i + 1]);
          forall j | 0 <= j < i + 1 ensures !p(s[j]) {
            if j > 0 {
              assert s[j] == s[1..][j - 1];
            }
          }
        }
      }
      r
  }

  /** Array.prototype.every. */
  predicate All<T>(s: seq<T>, p: T -> bool) {
    s == [] || (p(s[0]) && All(s[1..], p))
  }

  lemma {:induction false} AllMeansEvery<T>(s: seq<T>, p: T -> bool)
    ensures All(s, p) <==> forall i :: 0 <= i < |s| ==> p(s[i])
  {
    if s != [] {
      AllMeansEvery(s[1..], p);
      assert forall i :: 1 <= i < |s| ==> s[i] == s[1..][i - 1];
    }
  }

  /** Membership toggle on a selection list: `prev.includes(x) ?
      prev.filter(y => y !== x) : [...prev, x]`. */
  function Toggle<T(==)>(s: seq<T>, x: T): (r: seq<T>)
    ensures x in r <==> x !in s
    ensures forall y :: y in r && y != x ==> y in s
    ensures forall y :: y in s && y != x ==> y in r
    ensures x !in s ==> r == s + [x]
  {
    if x in s then Filter(s, y => y != x) else s + [x]
  }

  /** Toggling an element that is present removes every copy of it and
      keeps the rest of the selection in order. */
  lemma ToggleRemovesAll<T>(s: seq<T>, x: T)
    requires x in s
    ensures IsSubsequence(Toggle(s, x), s)
    ensures multiset(Toggle(s, x))[x] == 0
    ensures forall y :: y in s && y != x ==> multiset(Toggle(s, x))[y] == multiset(s)[y]
  {
    FilterIsSubsequence(s, y => y != x);
    forall y | y in s || y == x ensures multiset(Toggle(s, x))[y] == if y != x then multiset(s)[y] else 0 {
      FilterMultiplicity(s, z => z != x, y);
    }
  }

  /** A duplicate-free selection stays duplicate-free under toggling. */
  lemma ToggleNoDuplicates<T>(s: seq<T>, x: T)
    requires NoDuplicates(s)
    ensures NoDuplicates(Toggle(s, x))
  {
    if x in s {
      FilterNoDuplicates(s, y => y != x);
    } else {
      AppendNoDuplicates(s, x);
    }
  }

  /** Toggling the same element twice, starting from a selection that
      does not hold it, gives the selection back. */
  lemma ToggleTwice<T>(s: seq<T>, x: T)
    requires x !in s
    ensures Toggle(Toggle(s, x), x) == s
  {
    var t := s + [x];
    assert x in t;
    FilterKeepsAll(s, y => y != x);
    assert Filter(t, y => y != x) == Filter(s, y => y != x) by {
      FilterAppendLast(s, x, y => y != x);
    }
  }

  lemma {:induction false} FilterAppendLast<T>(s: seq<T>, x: T, p: T -> bool)
    requires !p(x)
    ensures Filter(s + [x], p) == Filter(s, p)
  {
    if s == [] {
      assert [] + [x] == [x];
    } else {
      assert (s + [x])[1..] == s[1..] + [x];
      FilterAppendLast(s[1..], x, p);
    }
  }

  // ---------------------------------------------------------------------
  // Strings

  /** String.prototype.toLowerCase restricted to ASCII letters. */
  function LowerChar(c: char): char {
    if 'A' <= c <= 'Z' then (c as int + 32) as char else c
  }

  function Lower(s: string): (r: string)
    ensures |r| == |s|
    ensures forall i :: 0 <= i < |s| ==> r[i] == LowerChar(s[i])
    ensures forall i :: 0 <= i < |s| ==> !('A' <= r[i] <= 'Z')
  {
    if s == [] then [] else [LowerChar(s[0])] + Lower(s[1..])
  }

  lemma LowerIdempotent(s: string)
    ensures Lower(Lower(s)) == Lower(s)
  {
  }

  predicate StartsWith(s: string, t: string) {
    |t| <= |s| && s[..|t|] == t
  }

  /** String.prototype.includes: `t` occurs in `s` as a contiguous block. */
  predicate Includes(s: string, t: string)
    decreases |s|
  {
    StartsWith(s, t) || (s != [] && Includes(s[1..], t))
  }

  /** `t` occurs in `s` starting at index `i`. */
  predicate OccursAt(s: string, t: string, i: int) {
    0 <= i <= |s| - |t| && s[i..i + |t|] == t
  }

  lemma {:induction false} IncludesMeansOccurs(s: string, t: string)
    ensures Includes(s, t) <==> exists i :: OccursAt(s, t, i)
  {
    if s == [] {
      if exists i :: OccursAt(s, t, i) {
        var i :| OccursAt(s, t, i);
        assert t == [];
      }
      if t == [] {
        assert OccursAt(s, t, 0);
      }
    } else {
      IncludesMeansOccurs(s[1..], t);
      if StartsWith(s, t) {
        assert OccursAt(s, t, 0);
      } else if Includes(s[1..], t) {
        var i :| OccursAt(s[1..], t, i);
        assert s[i + 1..i + 1 + |t|] == s[1..][i..i + |t|];
        assert OccursAt(s, t, i + 1);
      }
      if exists i :: OccursAt(s, t, i) {
        var i :| OccursAt(s, t, i);
        if i > 0 {
          assert s[1..][i - 1..i - 1 + |t|] == s[i..i + |t|];
          assert OccursAt(s[1..], t, i - 1);
        }
      }
    }
  }

  /** The JavaScript `a || b` on strings: `b` when `a` is empty. */
  function OrElse(a: string, b: string): (r: string)
    ensures r == a || r == b
    ensures r == b <==> a == "" || a == b
  {
    if a == "" then b else a
  }

  // ---------------------------------------------------------------------
  // Plain objects with string keys, as insertion-ordered dictionaries

  function KeysOf<V>(m: seq<(string, V)>): (ks: seq<string>)
    ensures |ks| == |m|
    ensures forall i :: 0 <= i < |m| ==> ks[i] == m[i].0
  {
    if m == [] then [] else [m[0].0] + KeysOf(m[1..])
  }

  predicate DistinctKeys<V>(m: seq<(string, V)>) {
    NoDuplicates(KeysOf(m))
  }

  /** `obj[k]`, or None when `k` is not a key. */
  function Get<V>(m: seq<(string, V)>, k: string): (r: Option<V>)
    ensures r.Some? <==> k in KeysOf(m)
  {
    if m == [] then None
    else if m[0].0 == k then Some(m[0].1)
    else Get(m[1..], k)
  }

  /** The value found is the one paired with the first occurrence of the key. */
  lemma {:induction false} GetFindsFirst<V>(m: seq<(string, V)>, k: string)
    ensures Get(m, k).Some? ==>
              exists i :: 0 <= i < |m| && m[i] == (k, Get(m, k).value) && forall j :: 0 <= j < i ==> m[j].0 != k
  {
    if m != [] && m[0].0 != k && Get(m, k).Some? {
      var v := Get(m, k).value;
      assert Get(m[1..], k) == Some(v);
      GetFindsFirst(m[1..], k);
      var i :| 0 <= i < |m[1..]| && m[1..][i] == (k, v) && forall j :: 0 <= j < i ==> m[1..][j].0 != k;
      assert m[i + 1] == (k, v);
      forall j | 0 <= j < i + 1 ensures m[j].0 != k {
        if j > 0 {
          assert m[j] == m[1..][j - 1];
        }
      }
    } else if m != [] && m[0].0 == k {
      assert m[0] == (k, Get(m, k).value);
    }
  }

  /** `{...obj, [k]: v}`: an existing key keeps its place and gets the new
      value, a new key goes at the end. */
  function Put<V>(m: seq<(string, V)>, k: string, v: V): (r: seq<(string, V)>)
    ensures Get(r, k) == Some(v)
    ensures forall k' :: k' in KeysOf(m) && k' != k ==> Get(r, k') == Get(m, k')
  {
    if m == [] then [(k, v)]
    else if m[0].0 == k then [(k, v)] + m[1..]
    else [m[0]] + Put(m[1..], k, v)
  }

  /** Put never disturbs the insertion order of the keys. */
  lemma {:induction false} PutKeys<V>(m: seq<(string, V)>, k: string, v: V)
    ensures KeysOf(Put(m, k, v)) == if k in KeysOf(m) then KeysOf(m) else KeysOf(m) + [k]
  {
    if m != [] && m[0].0 != k {
      PutKeys(m[1..], k, v);
      assert KeysOf(m) == [m[0].0] + KeysOf(m[1..]);
      assert KeysOf(Put(m, k, v)) == [m[0].0] + KeysOf(Put(m[1..], k, v));
    }
  }

  /** After Put, the keys are the old ones and `k`. */
  lemma PutHasKey<V>(m: seq<(string, V)>, k: string, v: V, c: string)
    ensures Get(Put(m, k, v), c).Some? <==> c == k || Get(m, c).Some?
  {
    PutKeys(m, k, v);
  }

  /** A key Put does not name keeps its value, present or absent. */
  lemma PutOtherKey<V>(m: seq<(string, V)>, k: string, v: V, k': string)
    requires k' != k
    ensures Get(Put(m, k, v), k') == Get(m, k')
  {
    PutKeys(m, k, v);
  }

  lemma PutDistinctKeys<V>(m: seq<(string, V)>, k: string, v: V)
    requires DistinctKeys(m)
    ensures DistinctKeys(Put(m, k, v))
  {
    PutKeys(m, k, v);
    if k !in KeysOf(m) {
      AppendNoDuplicates(KeysOf(m), k);
    }
  }
}
