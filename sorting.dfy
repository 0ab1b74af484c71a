/** A stable insertion sort by an integer key, standing for the data-frame
    `sort` calls of the source. Only sortedness and "permutation of the input"
    are promised to callers; the order of rows with equal keys is not. */
module Sorting {

  predicate SortedBy<T>(s: seq<T>, key: T -> int) {
    forall i, j :: 0 <= i < j < |s| ==> key(s[i]) <= key(s[j])
  }

  predicate StrictlySortedBy<T>(s: seq<T>, key: T -> int) {
    forall i, j :: 0 <= i < j < |s| ==> key(s[i]) < key(s[j])
  }

  /** No two positions share a key. */
  predicate KeysDistinct<T>(s: seq<T>, key: T -> int) {
    forall i, j :: 0 <= i < j < |s| ==> key(s[i]) != key(s[j])
  }

  function InsertBy<T>(x: T, s: seq<T>, key: T -> int): (r: seq<T>)
    ensures |r| == |s| + 1
    ensures multiset(r) == multiset(s) + multiset{x}
  {
    if s == [] || key(x) <= key(s[0]) then [x] + s
    else
      assert s == [s[0]] + s[1..];
      [s[0]] + InsertBy(x, s[1..], key)
  }

  lemma {:induction false} InsertSorted<T>(x: T, s: seq<T>, key: T -> int)
    requires SortedBy(s, key)
    ensures SortedBy(InsertBy(x, s, key), key)
  {
    if s != [] && key(x) > key(s[0]) {
      var rest := InsertBy(x, s[1..], key);
      SortedTail(s, key);
      InsertSorted(x, s[1..], key);
      assert forall k :: 0 <= k < |s[1..]| ==> s[1..][k] == s[k + 1];
      InsertedAbove(s[0], x, s[1..], key);
      SortedCons(s[0], rest, key);
    }
  }

  /** A lower bound of the element and the sequence bounds the insertion. */
  lemma InsertedAbove<T>(h: T, x: T, t: seq<T>, key: T -> int)
    requires key(h) <= key(x)
    requires forall k :: 0 <= k < |t| ==> key(h) <= key(t[k])
    ensures forall k :: 0 <= k < |InsertBy(x, t, key)| ==> key(h) <= key(InsertBy(x, t, key)[k])
  {
    var r := InsertBy(x, t, key);
    forall k | 0 <= k < |r| ensures key(h) <= key(r[k]) {
      assert r[k] in multiset(r);
      if r[k] != x {
        assert r[k] in multiset(t);
        var j :| 0 <= j < |t| && t[j] == r[k];
      }
    }
  }

  lemma SortedTail<T>(s: seq<T>, key: T -> int)
    requires s != [] && SortedBy(s, key)
    ensures SortedBy(s[1..], key)
  {
    var t := s[1..];
    forall i, j | 0 <= i < j < |t| ensures key(t[i]) <= key(t[j]) {
      assert t[i] == s[i + 1] && t[j] == s[j + 1];
    }
  }

  lemma SortedCons<T>(h: T, t: seq<T>, key: T -> int)
    requires SortedBy(t, key)
    requires forall k :: 0 <= k < |t| ==> key(h) <= key(t[k])
    ensures SortedBy([h] + t, key)
  {
    var s := [h] + t;
    forall i, j | 0 <= i < j < |s| ensures key(s[i]) <= key(s[j]) {
      assert s[j] == t[j - 1];
      if i > 0 {
        assert s[i] == t[i - 1];
      }
    }
  }

  function SortBy<T>(s: seq<T>, key: T -> int): (r: seq<T>)
    ensures |r| == |s|
    ensures SortedBy(r, key)
    ensures multiset(r) == multiset(s)
  {
    if s == [] then []
    else
      assert s == [s[0]] + s[1..];
      InsertSorted(s[0], SortBy(s[1..], key), key);
      InsertBy(s[0], SortBy(s[1..], key), key)
  }

  /** Sorting what is already sorted changes nothing. */
  lemma {:induction false} SortOfSorted<T>(s: seq<T>, key: T -> int)
    requires SortedBy(s, key)
    ensures SortBy(s, key) == s
  {
    if s != [] {
      SortOfSorted(s[1..], key);
      assert s == [s[0]] + s[1..];
    }
  }

  /** Two sorted orderings of the same elements coincide when the key tells
      the elements apart. */
  lemma HeadsAgree<T>(s: seq<T>, t: seq<T>, key: T -> int)
    requires s != [] && SortedBy(s, key) && SortedBy(t, key)
    requires multiset(s) == multiset(t)
    requires forall a, b :: a in t && b in t && key(a) == key(b) ==> a == b
    ensures t != [] && s[0] == t[0]
  {
    assert s[0] in multiset(t);
    assert t != [];
    assert t[0] in multiset(s);
    var i :| 0 <= i < |s| && s[i] == t[0];
    var j :| 0 <= j < |t| && t[j] == s[0];
    assert key(s[0]) <= key(s[i]);
    assert key(t[0]) <= key(t[j]);
  }

  /** Two sorted orderings of the same elements coincide when the key tells
      the elements apart. */
  lemma {:induction false} SortedUnique<T>(s: seq<T>, t: seq<T>, key: T -> int)
    requires SortedBy(s, key) && SortedBy(t, key)
    requires multiset(s) == multiset(t)
    requires forall a, b :: a in t && b in t && key(a) == key(b) ==> a == b
    ensures s == t
  {
    if s == [] {
      assert |t| == |multiset(t)| == 0;
    } else {
      HeadsAgree(s, t, key);
      TailsAgree(s, t);
      SortedTail(s, key);
      SortedTail(t, key);
      DistinctKeysTail(t, key);
      SortedUnique(s[1..], t[1..], key);
      assert s == [s[0]] + s[1..];
      assert t == [t[0]] + t[1..];
    }
  }

  lemma DistinctKeysTail<T>(t: seq<T>, key: T -> int)
    requires t != []
    requires forall a, b :: a in t && b in t && key(a) == key(b) ==> a == b
    ensures forall a, b :: a in t[1..] && b in t[1..] && key(a) == key(b) ==> a == b
  {
    forall a, b | a in t[1..] && b in t[1..] && key(a) == key(b) ensures a == b {
      assert a in t && b in t;
    }
  }

  /** Equal first elements leave equal multisets behind. */
  lemma TailsAgree<T>(s: seq<T>, t: seq<T>)
    requires s != [] && t != [] && s[0] == t[0] && multiset(s) == multiset(t)
    ensures multiset(s[1..]) == multiset(t[1..])
  {
    assert s == [s[0]] + s[1..];
    assert t == [t[0]] + t[1..];
    assert multiset(s[1..]) == multiset(s) - multiset{s[0]};
    assert multiset(t[1..]) == multiset(t) - multiset{t[0]};
  }

  /** The elementwise image of a sequence. */
  function Map<A, B>(f: A -> B, s: seq<A>): (r: seq<B>)
    ensures |r| == |s|
  {
    seq(|s|, i requires 0 <= i < |s| => f(s[i]))
  }

  lemma MapAppend<A, B>(f: A -> B, a: seq<A>, b: seq<A>)
    ensures Map(f, a + b) == Map(f, a) + Map(f, b)
  {
  }

  /** Taking one element out of a sequence takes it out of its multiset. */
  lemma RemoveAt<A>(t: seq<A>, j: int)
    requires 0 <= j < |t|
    ensures t == t[..j] + [t[j]] + t[j + 1..]
    ensures multiset(t[..j] + t[j + 1..]) == multiset(t) - multiset{t[j]}
  {
    assert t == t[..j] + [t[j]] + t[j + 1..];
  }

  /** Taking one element out of a sequence takes its image out of the
      multiset of images. */
  lemma MapRemoveAt<A, B>(f: A -> B, t: seq<A>, j: int)
    requires 0 <= j < |t|
    ensures multiset(Map(f, t)) == multiset(Map(f, t[..j] + t[j + 1..])) + multiset{f(t[j])}
  {
    var a, b := Map(f, t[..j]), Map(f, t[j + 1..]);
    assert Map(f, t[..j] + t[j + 1..]) == a + b by {
      MapAppend(f, t[..j], t[j + 1..]);
    }
    assert Map(f, t) == a + [f(t[j])] + b by {
      RemoveAt(t, j);
      MapAppend(f, t[..j] + [t[j]], t[j + 1..]);
      MapAppend(f, t[..j], [t[j]]);
      assert Map(f, [t[j]]) == [f(t[j])];
    }
  }

  /** Rearranging the elements rearranges their images the same way. */
  lemma {:induction false} MapMultiset<A, B>(f: A -> B, s: seq<A>, t: seq<A>)
    requires multiset(s) == multiset(t)
    ensures multiset(Map(f, s)) == multiset(Map(f, t))
  {
    if s == [] {
      assert |t| == |multiset(t)| == 0;
    } else {
      var x := s[0];
      assert x in multiset(t);
      var j :| 0 <= j < |t| && t[j] == x;
      var rest := t[..j] + t[j + 1..];
      RemoveAt(t, j);
      RemoveAt(s, 0);
      assert s[..0] + s[1..] == s[1..];
      calc {
        multiset(Map(f, s));
        { MapRemoveAt(f, s, 0); }
        multiset(Map(f, s[1..])) + multiset{f(x)};
        { MapMultiset(f, s[1..], rest); }
        multiset(Map(f, rest)) + multiset{f(x)};
        { MapRemoveAt(f, t, j); }
        multiset(Map(f, t));
      }
    }
  }

  /** Taking one element out keeps the other keys distinct, and none of
      them equals the key taken out. */
  lemma KeysDistinctRemove<T>(s: seq<T>, p: int, rest: seq<T>, key: T -> int)
    requires 0 <= p < |s| && KeysDistinct(s, key) && rest == s[..p] + s[p + 1..]
    ensures KeysDistinct(rest, key)
    ensures forall q :: 0 <= q < |rest| ==> key(rest[q]) != key(s[p])
  {
    assert forall q :: 0 <= q < p ==> rest[q] == s[q];
    assert forall q :: p <= q < |rest| ==> rest[q] == s[q + 1];
  }

  lemma KeyNotTaken<T>(rest: seq<T>, y: T, x: T, key: T -> int)
    requires y in multiset(rest)
    requires forall q :: 0 <= q < |rest| ==> key(rest[q]) != key(x)
    ensures key(y) != key(x)
  {
    var q :| 0 <= q < |rest| && rest[q] == y;
  }

  lemma KeysDistinctCons<T>(t: seq<T>, key: T -> int)
    requires t != [] && KeysDistinct(t[1..], key)
    requires forall j :: 1 <= j < |t| ==> key(t[j]) != key(t[0])
    ensures KeysDistinct(t, key)
  {
    forall i, j | 0 <= i < j < |t| ensures key(t[i]) != key(t[j]) {
      if i > 0 {
        assert t[i] == t[1..][i - 1] && t[j] == t[1..][j - 1];
      }
    }
  }

  /** Rearranging elements whose keys are distinct keeps them distinct. */
  lemma {:induction false} KeysDistinctPermutation<T>(s: seq<T>, t: seq<T>, key: T -> int)
    requires multiset(s) == multiset(t) && KeysDistinct(s, key)
    ensures KeysDistinct(t, key)
    decreases |t|
  {
    if t != [] {
      assert t[0] in multiset(s);
      var p :| 0 <= p < |s| && s[p] == t[0];
      var rest := s[..p] + s[p + 1..];
      RemoveMatching(s, t, p, rest);
      KeysDistinctRemove(s, p, rest, key);
      KeysDistinctPermutation(rest, t[1..], key);
      HeadKeyAlone(rest, t, key);
      KeysDistinctCons(t, key);
    }
  }

  lemma RemoveMatching<T>(s: seq<T>, t: seq<T>, p: int, rest: seq<T>)
    requires multiset(s) == multiset(t) && t != [] && 0 <= p < |s| && s[p] == t[0]
    requires rest == s[..p] + s[p + 1..]
    ensures multiset(rest) == multiset(t[1..])
  {
    RemoveAt(s, p);
    assert t == [t[0]] + t[1..];
    assert multiset(t[1..]) == multiset(t) - multiset{t[0]};
  }

  /** The rest of a rearrangement avoids the first element's key when the
      elements it was taken from do. */
  lemma HeadKeyAlone<T>(rest: seq<T>, t: seq<T>, key: T -> int)
    requires t != [] && multiset(rest) == multiset(t[1..])
    requires forall q :: 0 <= q < |rest| ==> key(rest[q]) != key(t[0])
    ensures forall j :: 1 <= j < |t| ==> key(t[j]) != key(t[0])
  {
    forall j | 1 <= j < |t| ensures key(t[j]) != key(t[0]) {
      assert t[j] == t[1..][j - 1];
      assert t[j] in multiset(t[1..]);
      KeyNotTaken(rest, t[j], t[0], key);
    }
  }

  /** Sorting elements whose keys are distinct orders them strictly. */
  lemma SortDistinctStrict<T>(s: seq<T>, key: T -> int)
    requires KeysDistinct(s, key)
    ensures StrictlySortedBy(SortBy(s, key), key)
  {
    var r := SortBy(s, key);
    KeysDistinctPermutation(s, r, key);
    forall i, j | 0 <= i < j < |r| ensures key(r[i]) < key(r[j]) {
      assert key(r[i]) <= key(r[j]) && key(r[i]) != key(r[j]);
    }
  }
}
