/** `Array.prototype.sort` with a comparator of the form `(a, b) => key(a) - key(b)`,
    as the ranking and schedule pages use it: an in-place, stable sort by an
    integer key. The engine's algorithm is not visible; what the language
    guarantees about the result (ordered, a permutation, stable) is what is
    specified, and an insertion sort by adjacent swaps is proved to meet it. */
module StableSort {

  /** The elements of s whose key is k, in their order in s. */
  function KeyFilter<T>(s: seq<T>, key: T -> int, k: int): (r: seq<T>)
    ensures |r| <= |s|
    ensures forall i :: 0 <= i < |r| ==> key(r[i]) == k && r[i] in s
    decreases |s|
  {
    if |s| == 0 then [] else (if key(s[0]) == k then [s[0]] else []) + KeyFilter(s[1..], key, k)
  }

  /** s is non-decreasing by key. */
  predicate SortedByKey<T>(s: seq<T>, key: T -> int)
  {
    forall i, j :: 0 <= i < j < |s| ==> key(s[i]) <= key(s[j])
  }

  /** Stability: for every key, the elements carrying it appear in s in the
      same order as in t. */
  ghost predicate SameKeyOrder<T>(s: seq<T>, t: seq<T>, key: T -> int)
  {
    forall k :: KeyFilter(s, key, k) == KeyFilter(t, key, k)
  }

  lemma {:induction false} KeyFilterConcat<T>(a: seq<T>, b: seq<T>, key: T -> int, k: int)
    ensures KeyFilter(a + b, key, k) == KeyFilter(a, key, k) + KeyFilter(b, key, k)
    decreases |a|
  {
    if |a| == 0 {
      assert a + b == b;
    } else {
      assert (a + b)[1..] == a[1..] + b;
      KeyFilterConcat(a[1..], b, key, k);
    }
  }

  /** Two elements with different keys: at most one of them has key k, so
      their order does not matter to the key-k elements. */
  lemma PairKeyFilter<T>(x: T, y: T, key: T -> int, k: int)
    requires key(x) != key(y)
    ensures KeyFilter([x, y], key, k) == KeyFilter([y, x], key, k)
  {
    assert [x, y][1..] == [y] && [y, x][1..] == [x];
    assert [y][1..] == [] && [x][1..] == [];
  }

  /** So exchanging two neighbours with different keys keeps the key-k elements. */
  lemma SwapKeepsKeyFilter<T>(pre: seq<T>, x: T, y: T, post: seq<T>, key: T -> int, k: int)
    requires key(x) != key(y)
    ensures KeyFilter(pre + [x, y] + post, key, k) == KeyFilter(pre + [y, x] + post, key, k)
  {
    var u, v := [x, y], [y, x];
    PairKeyFilter(x, y, key, k);
    KeyFilterConcat(pre, u, key, k);
    KeyFilterConcat(pre + u, post, key, k);
    KeyFilterConcat(pre, v, key, k);
    KeyFilterConcat(pre + v, post, key, k);
  }

  /** Exchanging two neighbours with different keys keeps every key's order. */
  lemma SwapKeepsKeyOrder<T>(s: seq<T>, j: nat, key: T -> int)
    requires 0 < j < |s|
    requires key(s[j - 1]) != key(s[j])
    ensures SameKeyOrder(s[j - 1 := s[j]][j := s[j - 1]], s, key)
  {
    var t := s[j - 1 := s[j]][j := s[j - 1]];
    var pre, post := s[..j - 1], s[j + 1..];
    assert s == pre + [s[j - 1], s[j]] + post;
    assert t == pre + [s[j], s[j - 1]] + post;
    forall k
      ensures KeyFilter(t, key, k) == KeyFilter(s, key, k)
    {
      SwapKeepsKeyFilter(pre, s[j - 1], s[j], post, key, k);
    }
  }

  /** An element whose key is k heads the key-k elements when it heads s. */
  lemma KeyFilterHead<T>(s: seq<T>, key: T -> int)
    requires |s| > 0
    ensures KeyFilter(s, key, key(s[0])) == [s[0]] + KeyFilter(s[1..], key, key(s[0]))
  {
  }

  /** A sorted, stable result is unique: two sequences that are both ordered by
      key and agree on every key's order are equal. So the sort's result does
      not depend on the algorithm, and sorting an already sorted sequence
      changes nothing. */
  lemma {:induction false} SortedSameKeyOrderUnique<T>(s: seq<T>, t: seq<T>, key: T -> int)
    requires SortedByKey(s, key) && SortedByKey(t, key)
    requires SameKeyOrder(s, t, key)
    ensures s == t
    decreases |s|
  {
    if |s| == 0 && |t| == 0 {
    } else if |s| == 0 {
      KeyFilterHead(t, key);
      assert false;
    } else if |t| == 0 {
      KeyFilterHead(s, key);
      assert false;
    } else {
      var k0, k1 := key(s[0]), key(t[0]);
      KeyFilterHead(s, key);
      KeyFilterHead(t, key);
      var fs, ft := KeyFilter(s, key, k0), KeyFilter(t, key, k1);
      assert KeyFilter(t, key, k0) == fs;
      assert fs[0] in t;
      assert k1 <= k0;
      assert KeyFilter(s, key, k1) == ft;
      assert ft[0] in s;
      assert k0 <= k1;
      assert s[0] == t[0];
      forall k
        ensures KeyFilter(s[1..], key, k) == KeyFilter(t[1..], key, k)
      {
        var head := if key(s[0]) == k then [s[0]] else [];
        assert KeyFilter(s, key, k) == head + KeyFilter(s[1..], key, k);
        assert KeyFilter(t, key, k) == head + KeyFilter(t[1..], key, k);
        assert KeyFilter(s[1..], key, k) == KeyFilter(s, key, k)[|head|..];
        assert KeyFilter(t[1..], key, k) == KeyFilter(t, key, k)[|head|..];
      }
      SortedSameKeyOrderUnique(s[1..], t[1..], key);
      assert s == [s[0]] + s[1..];
      assert t == [t[0]] + t[1..];
    }
  }

  lemma SameKeyOrderTrans<T>(s: seq<T>, t: seq<T>, u: seq<T>, key: T -> int)
    requires SameKeyOrder(s, t, key) && SameKeyOrder(t, u, key)
    ensures SameKeyOrder(s, u, key)
  {
  }

  /** Exchanges the neighbours at j - 1 and j, whose keys differ. */
  method SwapNeighbours<T>(a: array<T>, j: int, key: T -> int)
    requires 0 < j < a.Length
    requires key(a[j - 1]) != key(a[j])
    modifies a
    ensures a[..] == old(a[..])[j - 1 := old(a[j])][j := old(a[j - 1])]
    ensures multiset(a[..]) == multiset(old(a[..]))
    ensures SameKeyOrder(a[..], old(a[..]), key)
  {
    SwapKeepsKeyOrder(a[..], j, key);
    a[j - 1], a[j] := a[j], a[j - 1];
  }

  /** While the element that was at i moves left it sits at j: the rest of
      the prefix up to i is ordered, and everything after j up to i has a
      strictly larger key. */
  predicate Inserting<T>(s: seq<T>, j: int, i: int, key: T -> int)
    requires 0 <= j <= i < |s|
  {
    && (forall p, q :: 0 <= p < q <= i && p != j && q != j ==> key(s[p]) <= key(s[q]))
    && (forall q :: j < q <= i ==> key(s[j]) < key(s[q]))
  }

  /** Moving the inserted element one place to the left keeps the insertion
      invariant, one position further left. */
  lemma InsertStep<T>(s: seq<T>, j: int, i: int, key: T -> int)
    requires 0 < j <= i < |s|
    requires Inserting(s, j, i, key)
    requires key(s[j]) < key(s[j - 1])
    ensures Inserting(s[j - 1 := s[j]][j := s[j - 1]], j - 1, i, key)
  {
  }

  /** When the inserted element stops (at the front, or behind a key no
      larger than its own), the prefix up to i is sorted. */
  lemma InsertDone<T>(s: seq<T>, j: int, i: int, key: T -> int)
    requires 0 <= j <= i < |s|
    requires Inserting(s, j, i, key)
    requires j == 0 || key(s[j - 1]) <= key(s[j])
    ensures forall p, q :: 0 <= p < q <= i ==> key(s[p]) <= key(s[q])
  {
    forall p, q | 0 <= p < q <= i
      ensures key(s[p]) <= key(s[q])
    {
      if q == j && p < j - 1 {
        assert key(s[p]) <= key(s[j - 1]);
      }
    }
  }

  /** One turn of the insertion loop: the element at j moves one place left. */
  method MoveLeft<T>(a: array<T>, j: int, i: int, key: T -> int)
    requires 0 < j <= i < a.Length
    requires Inserting(a[..], j, i, key) && key(a[j]) < key(a[j - 1])
    modifies a
    ensures Inserting(a[..], j - 1, i, key)
    ensures multiset(a[..]) == multiset(old(a[..]))
    ensures SameKeyOrder(a[..], old(a[..]), key)
  {
    InsertStep(a[..], j, i, key);
    SwapNeighbours(a, j, key);
  }

  /** One step of insertion sort: a[..i] is sorted; move a[i] left past every
      element with a strictly larger key, so that a[..i + 1] is sorted. */
  method InsertLast<T>(a: array<T>, i: int, key: T -> int)
    requires 0 <= i < a.Length
    requires forall p, q :: 0 <= p < q < i ==> key(a[p]) <= key(a[q])
    modifies a
    ensures forall p, q :: 0 <= p < q <= i ==> key(a[p]) <= key(a[q])
    ensures multiset(a[..]) == multiset(old(a[..]))
    ensures SameKeyOrder(a[..], old(a[..]), key)
  {
    var j := i;
    while 0 < j && key(a[j]) < key(a[j - 1])
      invariant 0 <= j <= i
      invariant Inserting(a[..], j, i, key)
      invariant multiset(a[..]) == multiset(old(a[..]))
      invariant SameKeyOrder(a[..], old(a[..]), key)
    {
      ghost var before := a[..];
      MoveLeft(a, j, i, key);
      SameKeyOrderTrans(a[..], before, old(a[..]), key);
      j := j - 1;
    }
    InsertDone(a[..], j, i, key);
  }

  /** Sorts a in place, non-decreasing by key, keeping equal keys in their
      original order. */
  method SortByKey<T>(a: array<T>, key: T -> int)
    modifies a
    ensures SortedByKey(a[..], key)
    ensures multiset(a[..]) == multiset(old(a[..]))
    ensures SameKeyOrder(a[..], old(a[..]), key)
  {
    var i := 0;
    while i < a.Length
      invariant 0 <= i <= a.Length
      invariant forall p, q :: 0 <= p < q < i ==> key(a[p]) <= key(a[q])
      invariant multiset(a[..]) == multiset(old(a[..]))
      invariant SameKeyOrder(a[..], old(a[..]), key)
    {
      ghost var before := a[..];
      InsertLast(a, i, key);
      SameKeyOrderTrans(a[..], before, old(a[..]), key);
      i := i + 1;
    }
  }
}
