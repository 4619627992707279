/**
 * Sequence operations that stand for what the document store does with a
 * query: keep the documents a filter admits, sort them on a key, and cut one
 * page out of the sorted list with skip and limit.
 */
module Seqs {

  /** `s` lists no element twice. */
  predicate Distinct<T(==)>(s: seq<T>) {
    forall i, j :: 0 <= i < j < |s| ==> s[i] != s[j]
  }

  /** `Array.prototype.map`. */
  function Map<A, B>(s: seq<A>, f: A -> B): (r: seq<B>)
    ensures |r| == |s|
    ensures forall i :: 0 <= i < |s| ==> r[i] == f(s[i])
  {
    if s == [] then [] else [f(s[0])] + Map(s[1..], f)
  }

  /**
   * `Array.prototype.filter`, and a query filter over a collection: each
   * element the predicate admits is kept as often as it occurs, the others
   * are dropped.
   */
  function Filter<T(==,!new)>(s: seq<T>, p: T -> bool): (r: seq<T>)
    ensures |r| <= |s|
    ensures forall x :: multiset(r)[x] == if p(x) then multiset(s)[x] else 0
    ensures forall x :: x in r <==> x in s && p(x)
  {
    if s == [] then []
    else
      var rest := Filter(s[1..], p);
      assert s == [s[0]] + s[1..];
      if p(s[0]) then [s[0]] + rest else rest
  }

  /** Mapping a concatenation maps each part and keeps them in order. */
  lemma MapConcat<A, B>(a: seq<A>, b: seq<A>, f: A -> B)
    ensures Map(a + b, f) == Map(a, f) + Map(b, f)
  {
    var l, r := Map(a + b, f), Map(a, f) + Map(b, f);
    assert forall i :: 0 <= i < |l| ==> l[i] == r[i] by {
      forall i | 0 <= i < |l| ensures l[i] == r[i] {
        if i < |a| {
          assert (a + b)[i] == a[i];
        } else {
          assert (a + b)[i] == b[i - |a|];
        }
      }
    }
  }

  /** Filtering a concatenation filters each part and keeps them in order. */
  lemma {:induction false} FilterConcat<T(!new)>(a: seq<T>, b: seq<T>, p: T -> bool)
    ensures Filter(a + b, p) == Filter(a, p) + Filter(b, p)
  {
    if a == [] {
      assert a + b == b;
    } else {
      assert (a + b)[0] == a[0];
      assert (a + b)[1..] == a[1..] + b;
      FilterConcat(a[1..], b, p);
      if p(a[0]) {
        assert [a[0]] + (Filter(a[1..], p) + Filter(b, p)) == ([a[0]] + Filter(a[1..], p)) + Filter(b, p);
      }
    }
  }

  /** Filtering a list every element of which passes changes nothing. */
  lemma {:induction false} FilterAll<T(!new)>(s: seq<T>, p: T -> bool)
    requires forall i :: 0 <= i < |s| ==> p(s[i])
    ensures Filter(s, p) == s
  {
    if s != [] {
      FilterAll(s[1..], p);
    }
  }

  /** A filtered list of distinct elements has distinct elements. */
  lemma {:induction false} FilterDistinct<T(!new)>(s: seq<T>, p: T -> bool)
    requires Distinct(s)
    ensures Distinct(Filter(s, p))
  {
    if s != [] {
      FilterDistinct(s[1..], p);
      var rest := Filter(s[1..], p);
      if p(s[0]) {
        assert s[0] !in s[1..];
        ConsDistinct(s[0], rest);
      }
    }
  }

  /** Putting an element in front of a distinct list that lacks it keeps it distinct. */
  lemma ConsDistinct<T>(x: T, s: seq<T>)
    requires Distinct(s) && x !in s
    ensures Distinct([x] + s)
  {
    var r := [x] + s;
    forall i, j | 0 <= i < j < |r| ensures r[i] != r[j] {
      if i == 0 {
        assert r[j] == s[j - 1];
      } else {
        assert r[i] == s[i - 1] && r[j] == s[j - 1];
      }
    }
  }

  /** A list is distinct exactly when no element occurs in it twice. */
  lemma {:induction false} DistinctMultiset<T>(s: seq<T>)
    ensures Distinct(s) <==> forall x :: multiset(s)[x] <= 1
  {
    if s != [] {
      DistinctMultiset(s[1..]);
      assert s == [s[0]] + s[1..];
      if Distinct(s) {
        assert s[0] !in s[1..];
      } else {
        var i, j :| 0 <= i < j < |s| && s[i] == s[j];
        TwiceCounted(s, i, j);
      }
    }
  }

  /** An element found at two positions occurs at least twice. */
  lemma TwiceCounted<T>(s: seq<T>, i: nat, j: nat)
    requires i < j < |s| && s[i] == s[j]
    ensures multiset(s)[s[i]] >= 2
  {
    var x := s[i];
    assert s == s[..j] + s[j..];
    assert x in multiset(s[..j]) by {
      assert s[..j][i] == x;
    }
    assert x in multiset(s[j..]) by {
      assert s[j..][0] == x;
    }
  }

  /** A permutation of a distinct list is distinct. */
  lemma PermutationDistinct<T>(s: seq<T>, t: seq<T>)
    requires multiset(s) == multiset(t) && Distinct(s)
    ensures Distinct(t)
  {
    DistinctMultiset(s);
    DistinctMultiset(t);
  }

  /** Sorted on `key` in descending order: the newest first when `key` is a timestamp. */
  predicate SortedDesc<T>(s: seq<T>, key: T -> int) {
    forall i, j :: 0 <= i < j < |s| ==> key(s[i]) >= key(s[j])
  }

  /** Inserts `x` into a descending list in front of the first element whose key it reaches. */
  function InsertDesc<T(==)>(x: T, s: seq<T>, key: T -> int): (r: seq<T>)
    requires SortedDesc(s, key)
    ensures |r| == |s| + 1
    ensures r[0] == x || (s != [] && r[0] == s[0])
    ensures SortedDesc(r, key)
    ensures multiset(r) == multiset(s) + multiset{x}
  {
    if s == [] || key(x) >= key(s[0]) then
      assert SortedDesc([x] + s, key) by {
        var r := [x] + s;
        forall i, j | 0 <= i < j < |r| ensures key(r[i]) >= key(r[j]) {
          if i == 0 {
            assert r[j] == s[j - 1];
          } else {
            assert r[i] == s[i - 1] && r[j] == s[j - 1];
          }
        }
      }
      [x] + s
    else
      var rest := InsertDesc(x, s[1..], key);
      assert s == [s[0]] + s[1..];
      assert key(s[0]) >= key(rest[0]);
      var r := [s[0]] + rest;
      assert SortedDesc(r, key) by {
        forall i, j | 0 <= i < j < |r| ensures key(r[i]) >= key(r[j]) {
          if i == 0 {
            assert key(rest[0]) >= key(rest[j - 1]) || j == 1;
          } else {
            assert r[i] == rest[i - 1] && r[j] == rest[j - 1];
          }
        }
      }
      r
  }

  /** The list sorted on `key`, largest key first: a permutation of `s`. */
  function SortDesc<T(==)>(s: seq<T>, key: T -> int): (r: seq<T>)
    ensures SortedDesc(r, key)
    ensures multiset(r) == multiset(s)
  {
    if s == [] then []
    else
      assert s == [s[0]] + s[1..];
      InsertDesc(s[0], SortDesc(s[1..], key), key)
  }

  /** The smaller of two integers. */
  function Min(a: int, b: int): int {
    if a <= b then a else b
  }

  /**
   * `.skip(skip).limit(n)` on a list: at most `n` elements, taken in order
   * from position `skip` on.
   */
  function Window<T>(s: seq<T>, skip: nat, n: nat): (r: seq<T>)
    ensures |r| == if skip >= |s| then 0 else Min(n, |s| - skip)
    ensures forall i :: 0 <= i < |r| ==> r[i] == s[skip + i]
  {
    if skip >= |s| then [] else s[skip..skip + Min(n, |s| - skip)]
  }

  /** JavaScript's `Math.ceil(a / b)` for a count `a` and a non-zero integer `b`. */
  function CeilDiv(a: nat, b: int): (r: int)
    requires b != 0
    ensures b > 0 ==> (r - 1) * b < a <= r * b
    ensures b < 0 ==> r * b <= a < (r - 1) * b
    ensures b > 0 ==> r >= 0 && (a > 0 <==> r >= 1)
    ensures b < 0 ==> r <= 0
  {
    if b > 0 then
      var r := (a + b - 1) / b;
      assert r * b <= a + b - 1 < (r + 1) * b;
      r
    else
      var q := a / -b;
      assert q * -b <= a < (q + 1) * -b;
      -q
  }

  /** Page `p` (counting from 1) of `s` with `limit` elements a page. */
  function Page<T>(s: seq<T>, p: int, limit: int): seq<T>
    requires p >= 1 && limit > 0
  {
    Window(s, (p - 1) * limit, limit)
  }

  /** Multiplying by a positive number keeps the order. */
  lemma MulMonotone(a: int, b: int, limit: int)
    requires a <= b && limit > 0
    ensures a * limit <= b * limit
  {
    assert b * limit - a * limit == (b - a) * limit;
  }

  /** A product with a positive factor keeps the order of the other factors. */
  lemma MulCancel(a: int, b: int, limit: int)
    requires limit > 0 && a * limit < b * limit
    ensures a < b
  {
    if b <= a {
      MulMonotone(b, a, limit);
      assert false;
    }
  }

  /** `q * limit <= i < (q + 1) * limit` fixes `q` to `i / limit`. */
  lemma DivUnique(i: nat, limit: int, q: int)
    requires limit > 0
    requires q * limit <= i < (q + 1) * limit
    ensures q == i / limit
  {
    var d := i / limit;
    assert d * limit <= i < (d + 1) * limit;
    MulCancel(q, d + 1, limit);
    MulCancel(d, q + 1, limit);
  }

  /**
   * The element at position `i` of a list is on page `i / limit + 1`, at
   * position `i % limit`, and that page is within `CeilDiv(|s|, limit)`.
   */
  lemma PageOfIndex<T>(s: seq<T>, limit: int, i: nat)
    requires limit > 0 && i < |s|
    ensures 1 <= i / limit + 1 <= CeilDiv(|s|, limit)
    ensures i % limit < |Page(s, i / limit + 1, limit)|
    ensures Page(s, i / limit + 1, limit)[i % limit] == s[i]
  {
    var q := i / limit;
    var r := CeilDiv(|s|, limit);
    assert q * limit + i % limit == i;
    assert q * limit < r * limit;
    MulCancel(q, r, limit);
  }

  /** The element at position `i` is on page `i / limit + 1`, one of the first `CeilDiv(|s|, limit)` pages. */
  lemma PageHolding<T>(s: seq<T>, limit: int, i: nat)
    requires limit > 0 && i < |s|
    ensures 1 <= i / limit + 1 <= CeilDiv(|s|, limit)
    ensures s[i] in Page(s, i / limit + 1, limit)
  {
    PageOfIndex(s, limit, i);
    assert Page(s, i / limit + 1, limit)[i % limit] == s[i];
  }

  /** Position `k` of page `p` is position `(p - 1) * limit + k` of the list, and only that page holds it. */
  lemma IndexOnOnePage<T>(s: seq<T>, limit: int, p: int, k: int)
    requires limit > 0 && p >= 1
    requires 0 <= k < |Page(s, p, limit)|
    ensures Page(s, p, limit)[k] == s[(p - 1) * limit + k]
    ensures p == ((p - 1) * limit + k) / limit + 1
  {
    var start := (p - 1) * limit;
    assert start + limit == p * limit;
    assert k < limit;
    DivUnique(start + k, limit, p - 1);
  }

  /** Pages after the last one are empty, and every page up to it holds something. */
  lemma PageEmptyBeyondLast<T>(s: seq<T>, limit: int, p: int)
    requires limit > 0 && p >= 1
    ensures Page(s, p, limit) == [] <==> p > CeilDiv(|s|, limit)
  {
    var r := CeilDiv(|s|, limit);
    if p > r {
      MulMonotone(r, p - 1, limit);
    } else {
      MulMonotone(p, r, limit);
    }
  }

  /** With distinct elements, two different pages share no element. */
  lemma PagesDisjoint<T>(s: seq<T>, limit: int, p: int, p': int)
    requires Distinct(s) && limit > 0
    requires 1 <= p && 1 <= p' && p != p'
    ensures forall x :: x in Page(s, p, limit) ==> x !in Page(s, p', limit)
  {
    var a := Page(s, p, limit);
    var b := Page(s, p', limit);
    forall k, k' | 0 <= k < |a| && 0 <= k' < |b| ensures a[k] != b[k'] {
      IndexOnOnePage(s, limit, p, k);
      IndexOnOnePage(s, limit, p', k');
    }
  }

  /** `s` without its entry at position `i`; the others keep their order. */
  function RemoveAt<T>(s: seq<T>, i: nat): (r: seq<T>)
    requires i < |s|
    ensures |r| == |s| - 1
    ensures forall x :: 0 <= x < |r| ==> r[x] == s[if x < i then x else x + 1]
    ensures multiset(r) == multiset(s) - multiset{s[i]}
  {
    assert s == s[..i] + [s[i]] + s[i + 1..];
    s[..i] + s[i + 1..]
  }
}
