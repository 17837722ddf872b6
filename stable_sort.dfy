/** A stable sort in descending order of an integer key, the order that
    `Array.prototype.sort((a, b) => key(b) - key(a))` produces (the ECMAScript
    specification has required `sort` to be stable since its 2019 edition),
    and `slice(0, n)`. */
module StableSort {

  function Min(a: int, b: int): int {
    if a <= b then a else b
  }

  /** `s` is non-increasing in `key`. */
  predicate SortedDesc<T>(s: seq<T>, key: T -> int) {
    forall i, j :: 0 <= i < j < |s| ==> key(s[i]) >= key(s[j])
  }

  /** The elements of `s` whose key is `k`, in the order they have in `s`.
      A sort is stable when it keeps every one of these subsequences. */
  function WithKey<T>(s: seq<T>, key: T -> int, k: int): (r: seq<T>)
    ensures forall x :: x in r ==> x in s && key(x) == k
  {
    if s == [] then []
    else (if key(s[0]) == k then [s[0]] else []) + WithKey(s[1..], key, k)
  }

  lemma {:induction false} WithKeyAppend<T>(a: seq<T>, b: seq<T>, key: T -> int, k: int)
    ensures WithKey(a + b, key, k) == WithKey(a, key, k) + WithKey(b, key, k)
  {
    if a == [] {
      assert a + b == b;
    } else {
      assert (a + b)[1..] == a[1..] + b;
      WithKeyAppend(a[1..], b, key, k);
    }
  }

  /** Equal-key elements of a prefix are a prefix of the equal-key elements. */
  lemma WithKeyOfPrefix<T>(s: seq<T>, n: nat, key: T -> int, k: int)
    requires n <= |s|
    ensures WithKey(s[..n], key, k) <= WithKey(s, key, k)
  {
    assert s == s[..n] + s[n..];
    WithKeyAppend(s[..n], s[n..], key, k);
  }

  /** Every element of a sorted sequence has a key no larger than the first. */
  lemma SortedHeadIsMax<T>(s: seq<T>, key: T -> int, x: T)
    requires SortedDesc(s, key)
    requires x in s
    ensures key(x) <= key(s[0])
  {
    var i :| 0 <= i < |s| && s[i] == x;
    if i > 0 {
      assert key(s[0]) >= key(s[i]);
    }
  }

  lemma WithKeyCons<T>(x: T, s: seq<T>, key: T -> int, k: int)
    ensures WithKey([x] + s, key, k) == (if key(x) == k then [x] else []) + WithKey(s, key, k)
  {
    assert ([x] + s)[1..] == s;
  }

  /** Inserts `x` before the first element whose key is no larger than its
      own, so `x` precedes every element of `s` with an equal key. */
  function Insert<T>(x: T, s: seq<T>, key: T -> int): (r: seq<T>)
    requires SortedDesc(s, key)
    ensures SortedDesc(r, key)
    ensures multiset(r) == multiset(s) + multiset{x}
    ensures forall y :: y in r ==> y == x || y in s
  {
    if s == [] || key(x) >= key(s[0]) then
      SortedBelowHead(s, key);
      SortedConsIsSorted(x, s, key);
      [x] + s
    else
      var rest := Insert(x, s[1..], key);
      InsertedBelowHead(x, s, rest, key);
      SortedConsIsSorted(s[0], rest, key);
      assert multiset(s) == multiset{s[0]} + multiset(s[1..]) by {
        assert s == [s[0]] + s[1..];
      }
      [s[0]] + rest
  }

  /** What is inserted behind the head of a sorted sequence stays below it. */
  lemma InsertedBelowHead<T>(x: T, s: seq<T>, rest: seq<T>, key: T -> int)
    requires SortedDesc(s, key) && s != [] && key(x) < key(s[0])
    requires forall y :: y in rest ==> y == x || y in s[1..]
    ensures forall y :: y in rest ==> key(y) <= key(s[0])
  {
    SortedBelowHead(s, key);
    assert forall y :: y in s[1..] ==> y in s;
  }

  lemma SortedBelowHead<T>(s: seq<T>, key: T -> int)
    requires SortedDesc(s, key)
    ensures forall y :: y in s ==> key(y) <= key(s[0])
  {
    forall y | y in s
      ensures key(y) <= key(s[0])
    {
      SortedHeadIsMax(s, key, y);
    }
  }

  lemma SortedConsIsSorted<T>(x: T, s: seq<T>, key: T -> int)
    requires SortedDesc(s, key)
    requires forall y :: y in s ==> key(y) <= key(x)
    ensures SortedDesc([x] + s, key)
  {
    var r := [x] + s;
    forall i, j | 0 <= i < j < |r|
      ensures key(r[i]) >= key(r[j])
    {
      assert r[j] == s[j - 1];
      if i > 0 {
        assert r[i] == s[i - 1];
      }
    }
  }

  /** Putting a head with a larger key than `x` in front of both sides keeps
      `x`'s place in each key's subsequence. */
  lemma WithKeyConsBoth<T>(h: T, x: T, rest: seq<T>, tail: seq<T>, key: T -> int, k: int)
    requires key(x) < key(h)
    requires WithKey(rest, key, k) == (if key(x) == k then [x] else []) + WithKey(tail, key, k)
    ensures WithKey([h] + rest, key, k) == (if key(x) == k then [x] else []) + WithKey([h] + tail, key, k)
  {
    WithKeyCons(h, rest, key, k);
    WithKeyCons(h, tail, key, k);
  }

  /** `x` lands in front of the elements of `s` that share its key. */
  lemma {:induction false} InsertWithKey<T>(x: T, s: seq<T>, key: T -> int, k: int)
    requires SortedDesc(s, key)
    ensures WithKey(Insert(x, s, key), key, k) == (if key(x) == k then [x] else []) + WithKey(s, key, k)
  {
    if s == [] || key(x) >= key(s[0]) {
      WithKeyCons(x, s, key, k);
    } else {
      var head, tail := s[0], s[1..];
      var rest := Insert(x, tail, key);
      assert Insert(x, s, key) == [head] + rest;
      assert s == [head] + tail;
      InsertWithKey(x, tail, key, k);
      WithKeyConsBoth(head, x, rest, tail, key, k);
    }
  }

  /** Insertion sort: descending in `key` and a permutation of `s`. */
  function SortDesc<T>(s: seq<T>, key: T -> int): (r: seq<T>)
    ensures |r| == |s|
    ensures SortedDesc(r, key)
    ensures multiset(r) == multiset(s)
  {
    if s == [] then []
    else
      assert s == [s[0]] + s[1..];
      var r := Insert(s[0], SortDesc(s[1..], key), key);
      assert |r| == |multiset(r)|;
      r
  }

  /** The sort is stable: the elements with any one key keep their order. */
  lemma {:induction false} SortDescStable<T>(s: seq<T>, key: T -> int, k: int)
    ensures WithKey(SortDesc(s, key), key, k) == WithKey(s, key, k)
  {
    if s != [] {
      SortDescStable(s[1..], key, k);
      InsertWithKey(s[0], SortDesc(s[1..], key), key, k);
      WithKeyCons(s[0], s[1..], key, k);
      assert s == [s[0]] + s[1..];
    }
  }

  /** Dropping the head drops it from its key's subsequence and from no other. */
  lemma WithKeyOfTail<T>(s: seq<T>, key: T -> int, k: int)
    requires s != []
    ensures WithKey(s[1..], key, k) == if key(s[0]) == k then WithKey(s, key, k)[1..] else WithKey(s, key, k)
  {
    if key(s[0]) == k {
      assert WithKey(s, key, k) == [s[0]] + WithKey(s[1..], key, k);
    } else {
      assert WithKey(s, key, k) == [] + WithKey(s[1..], key, k);
    }
  }

  /** The head of a sequence leads its own key's subsequence. */
  lemma HeadInOwnKey<T>(s: seq<T>, key: T -> int)
    requires s != []
    ensures WithKey(s, key, key(s[0])) != [] && WithKey(s, key, key(s[0]))[0] == s[0]
  {
  }

  /** Both sequences are sorted and start with the same key. */
  lemma SameLeadingKey<T>(a: seq<T>, b: seq<T>, key: T -> int)
    requires SortedDesc(a, key) && SortedDesc(b, key)
    requires a != [] && b != []
    requires WithKey(a, key, key(a[0])) == WithKey(b, key, key(a[0]))
    requires WithKey(a, key, key(b[0])) == WithKey(b, key, key(b[0]))
    ensures key(a[0]) == key(b[0])
  {
    HeadInOwnKey(a, key);
    HeadInOwnKey(b, key);
    SortedHeadIsMax(b, key, a[0]);
    SortedHeadIsMax(a, key, b[0]);
  }

  /** A sorted sequence is fixed by its equal-key subsequences: there is only
      one stable descending sort of any input. */
  lemma {:induction false} StableSortUnique<T>(a: seq<T>, b: seq<T>, key: T -> int)
    requires SortedDesc(a, key) && SortedDesc(b, key)
    requires forall k :: WithKey(a, key, k) == WithKey(b, key, k)
    ensures a == b
    decreases |a|
  {
    if a == [] {
      if b != [] {
        HeadInOwnKey(b, key);
      }
    } else if b == [] {
      HeadInOwnKey(a, key);
    } else {
      assert a == [a[0]] + a[1..];
      assert b == [b[0]] + b[1..];
      SameLeadingKey(a, b, key);
      var k0 := key(a[0]);
      forall k
        ensures WithKey(a[1..], key, k) == WithKey(b[1..], key, k)
      {
        WithKeyOfTail(a, key, k);
        WithKeyOfTail(b, key, k);
      }
      HeadInOwnKey(a, key);
      HeadInOwnKey(b, key);
      StableSortUnique(a[1..], b[1..], key);
    }
  }

  /** Any sequence that is sorted descending and keeps every equal-key
      subsequence of `s` is exactly `SortDesc(s, key)`. */
  lemma StableSortIsSortDesc<T>(s: seq<T>, r: seq<T>, key: T -> int)
    requires SortedDesc(r, key)
    requires forall k :: WithKey(r, key, k) == WithKey(s, key, k)
    ensures r == SortDesc(s, key)
  {
    forall k
      ensures WithKey(r, key, k) == WithKey(SortDesc(s, key), key, k)
    {
      SortDescStable(s, key, k);
    }
    StableSortUnique(r, SortDesc(s, key), key);
  }

  /** `slice(0, n)` for a non-negative `n`. */
  function Take<T>(s: seq<T>, n: nat): (r: seq<T>)
    ensures |r| == Min(n, |s|)
    ensures r <= s
  {
    if n <= |s| then s[..n] else s
  }

  /** Truncating a sorted sequence keeps the top of it: no element left out
      has a larger key than an element kept, and the kept part is sorted. */
  lemma TakeKeepsLargest<T>(s: seq<T>, n: nat, key: T -> int)
    requires SortedDesc(s, key)
    ensures SortedDesc(Take(s, n), key)
    ensures multiset(Take(s, n)) <= multiset(s)
    ensures forall x, y :: x in multiset(s) - multiset(Take(s, n)) && y in Take(s, n) ==> key(x) <= key(y)
  {
    var t := Take(s, n);
    var m := |t|;
    TakeLeavesSuffix(s, n);
    assert SortedDesc(t, key) by {
      assert forall i :: 0 <= i < m ==> t[i] == s[i];
    }
    forall x, y | x in multiset(s) - multiset(t) && y in t
      ensures key(x) <= key(y)
    {
      SortedSuffixBelowPrefix(s, m, key, x, y);
    }
  }

  /** What a truncation leaves out is the rest of the sequence. */
  lemma TakeLeavesSuffix<T>(s: seq<T>, n: nat)
    ensures Take(s, n) == s[..|Take(s, n)|]
    ensures multiset(s) - multiset(Take(s, n)) == multiset(s[|Take(s, n)|..])
    ensures multiset(Take(s, n)) <= multiset(s)
  {
    var t := Take(s, n);
    assert s == t + s[|t|..];
  }

  /** In a sorted sequence, everything after a cut is no larger than anything before it. */
  lemma SortedSuffixBelowPrefix<T>(s: seq<T>, m: nat, key: T -> int, x: T, y: T)
    requires SortedDesc(s, key) && m <= |s|
    requires x in multiset(s[m..]) && y in s[..m]
    ensures key(x) <= key(y)
  {
    var i :| m <= i < |s| && s[i] == x by {
      assert x in s[m..];
      var i' :| 0 <= i' < |s[m..]| && s[m..][i'] == x;
      assert s[m + i'] == x;
    }
    var j :| 0 <= j < m && s[j] == y by {
      var j' :| 0 <= j' < |s[..m]| && s[..m][j'] == y;
      assert s[j'] == y;
    }
  }

  /** An element of a sorted sequence that the truncation drops has a key no
      larger than any element it keeps. */
  lemma TakeDropsNoLarger<T>(s: seq<T>, n: nat, key: T -> int, x: T, y: T)
    requires SortedDesc(s, key)
    requires x in s && x !in Take(s, n) && y in Take(s, n)
    ensures key(x) <= key(y)
  {
    var t := Take(s, n);
    var i :| 0 <= i < |s| && s[i] == x;
    var j :| 0 <= j < |t| && t[j] == y;
    assert s[j] == y;
    assert forall m :: 0 <= m < |t| ==> t[m] == s[m];
  }

  /** The equal-key elements of a truncation are a prefix of the equal-key
      elements of the whole. */
  lemma TakeKeepsKeyOrder<T>(s: seq<T>, n: nat, key: T -> int, k: int)
    ensures WithKey(Take(s, n), key, k) <= WithKey(s, key, k)
  {
    WithKeyOfPrefix(s, |Take(s, n)|, key, k);
    assert Take(s, n) == s[..|Take(s, n)|];
  }

  /** `s[i]` sits in its key's subsequence at the place given by the number
      of elements of that key before it. */
  lemma WithKeyPosition<T>(s: seq<T>, key: T -> int, i: nat)
    requires i < |s|
    ensures var w, p := WithKey(s, key, key(s[i])), |WithKey(s[..i], key, key(s[i]))|;
            p < |w| && w[p] == s[i]
  {
    var k := key(s[i]);
    assert s == s[..i] + ([s[i]] + s[i + 1..]);
    WithKeyAppend(s[..i], [s[i]] + s[i + 1..], key, k);
    WithKeyCons(s[i], s[i + 1..], key, k);
  }

  /** Counting the elements of one key before a position is monotone, and
      strictly so past an element of that key. */
  lemma WithKeyCountGrows<T>(s: seq<T>, key: T -> int, k: int, i: nat, j: nat)
    requires i < j <= |s|
    ensures |WithKey(s[..i], key, k)| <= |WithKey(s[..j], key, k)|
    ensures key(s[i]) == k ==> |WithKey(s[..i], key, k)| < |WithKey(s[..j], key, k)|
  {
    assert s[..j] == s[..i] + ([s[i]] + s[i + 1..j]);
    WithKeyAppend(s[..i], [s[i]] + s[i + 1..j], key, k);
    WithKeyCons(s[i], s[i + 1..j], key, k);
  }

  /** A prefix of `s` one longer than a prefix of its tail adds only the head. */
  lemma WithKeyOfShiftedPrefix<T>(s: seq<T>, key: T -> int, k: int, n: nat)
    requires n < |s|
    ensures |WithKey(s[..n + 1], key, k)| == (if key(s[0]) == k then 1 else 0) + |WithKey(s[1..][..n], key, k)|
  {
    assert s[..n + 1][1..] == s[1..][..n];
  }

  /** Every element of a key's subsequence comes from some position of `s`,
      with exactly its place's count of that key before it. */
  lemma {:induction false} WithKeySource<T>(s: seq<T>, key: T -> int, k: int, p: nat)
    requires p < |WithKey(s, key, k)|
    ensures exists i :: 0 <= i < |s| && s[i] == WithKey(s, key, k)[p] && |WithKey(s[..i], key, k)| == p
  {
    var t := s[1..];
    var ws, rest := WithKey(s, key, k), WithKey(t, key, k);
    if key(s[0]) == k && p == 0 {
      assert s[..0] == [];
    } else {
      var p' := if key(s[0]) == k then p - 1 else p;
      assert ws[p] == rest[p'];
      WithKeySource(t, key, k, p');
      var i' :| 0 <= i' < |t| && t[i'] == rest[p'] && |WithKey(t[..i'], key, k)| == p';
      WithKeyOfShiftedPrefix(s, key, k, i');
      assert s[i' + 1] == ws[p];
    }
  }

  /** Two elements of `t` with the same key appear in `s` in the same order
      when `t` keeps a prefix of that key's subsequence of `s`. */
  lemma TiesKeepOrder<T>(s: seq<T>, t: seq<T>, key: T -> int, i: nat, j: nat)
    requires i < j < |t| && key(t[i]) == key(t[j])
    requires WithKey(t, key, key(t[i])) <= WithKey(s, key, key(t[i]))
    ensures exists i', j' :: 0 <= i' < j' < |s| && s[i'] == t[i] && s[j'] == t[j]
  {
    var k := key(t[i]);
    var ws := WithKey(s, key, k);
    var p, q := |WithKey(t[..i], key, k)|, |WithKey(t[..j], key, k)|;
    WithKeyPosition(t, key, i);
    WithKeyPosition(t, key, j);
    WithKeyCountGrows(t, key, k, i, j);
    assert ws[p] == t[i] && ws[q] == t[j];
    WithKeySource(s, key, k, p);
    WithKeySource(s, key, k, q);
    var i' :| 0 <= i' < |s| && s[i'] == ws[p] && |WithKey(s[..i'], key, k)| == p;
    var j' :| 0 <= j' < |s| && s[j'] == ws[q] && |WithKey(s[..j'], key, k)| == q;
    if j' < i' {
      WithKeyCountGrows(s, key, k, j', i');
    } else if j' == i' {
    } else {
      assert 0 <= i' < j' < |s| && s[i'] == t[i] && s[j'] == t[j];
    }
  }

  /** An element of `w` missing from a prefix `u` of `w` sits past `u`. */
  lemma PrefixMisses<T>(w: seq<T>, u: seq<T>, q: nat)
    requires u <= w && q < |w| && w[q] !in u
    ensures |u| <= q
  {
    assert forall m :: 0 <= m < |u| ==> u[m] == w[m];
  }

  /** An element that a prefix-keeping result `t` drops comes, in `s`, after
      every element of its key that `t` keeps. */
  lemma DroppedTieComesLater<T>(s: seq<T>, t: seq<T>, key: T -> int, i: nat, x: T)
    requires i < |t| && x in s && x !in t && key(x) == key(t[i])
    requires WithKey(t, key, key(t[i])) <= WithKey(s, key, key(t[i]))
    ensures exists i', j' :: 0 <= i' < j' < |s| && s[i'] == t[i] && s[j'] == x
  {
    var k := key(t[i]);
    var ws, wt := WithKey(s, key, k), WithKey(t, key, k);
    var p := |WithKey(t[..i], key, k)|;
    WithKeyPosition(t, key, i);
    var a :| 0 <= a < |s| && s[a] == x;
    WithKeyPosition(s, key, a);
    var q := |WithKey(s[..a], key, k)|;
    PrefixMisses(ws, wt, q);
    WithKeySource(s, key, k, p);
    var i' :| 0 <= i' < |s| && s[i'] == ws[p] && |WithKey(s[..i'], key, k)| == p;
    if a < i' {
      WithKeyCountGrows(s, key, k, a, i');
    } else if a == i' {
    } else {
      assert 0 <= i' < a < |s| && s[i'] == t[i] && s[a] == x;
    }
  }
}
