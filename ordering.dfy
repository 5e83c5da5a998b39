/** The output order of `execute`: a stable sort of the records by
    (buy date, name), keys compared the way Python compares tuples of a date
    and a string.  Insertion sort is the reference; the lemmas show that it
    is sorted, a permutation, stable, and the only sequence that is all three,
    so any stable sort yields the same order. */
module Ordering {
  import opened Common

  datatype Key = Key(date: Date, name: string)

  /** Python's order on strings: by code point at the first difference, a
      proper prefix before the longer string. */
  predicate StrLess(a: string, b: string)
    decreases |a|
  {
    if |a| == 0 then |b| > 0
    else if |b| == 0 then false
    else if a[0] != b[0] then a[0] < b[0]
    else StrLess(a[1..], b[1..])
  }

  /** Lexicographic order on (date, name). */
  predicate KeyLess(x: Key, y: Key)
  {
    x.date < y.date || (x.date == y.date && StrLess(x.name, y.name))
  }

  lemma {:induction false} StrLessIrreflexive(a: string)
    ensures !StrLess(a, a)
    decreases |a|
  {
    if |a| > 0 {
      StrLessIrreflexive(a[1..]);
    }
  }

  lemma {:induction false} StrLessTransitive(a: string, b: string, c: string)
    requires StrLess(a, b) && StrLess(b, c)
    ensures StrLess(a, c)
    decreases |a|
  {
    if |a| > 0 && a[0] == b[0] && b[0] == c[0] {
      StrLessTransitive(a[1..], b[1..], c[1..]);
    }
  }

  lemma {:induction false} StrLessTotal(a: string, b: string)
    ensures a == b || StrLess(a, b) || StrLess(b, a)
    decreases |a|
  {
    if |a| > 0 && |b| > 0 && a[0] == b[0] {
      StrLessTotal(a[1..], b[1..]);
      if a[1..] == b[1..] {
        assert a == [a[0]] + a[1..] && b == [b[0]] + b[1..];
      }
    }
  }

  lemma KeyLessIrreflexive(x: Key)
    ensures !KeyLess(x, x)
  {
    StrLessIrreflexive(x.name);
  }

  lemma KeyLessTransitive(x: Key, y: Key, z: Key)
    requires KeyLess(x, y) && KeyLess(y, z)
    ensures KeyLess(x, z)
  {
    if x.date == y.date && y.date == z.date {
      StrLessTransitive(x.name, y.name, z.name);
    }
  }

  lemma KeyLessTotal(x: Key, y: Key)
    ensures x == y || KeyLess(x, y) || KeyLess(y, x)
  {
    StrLessTotal(x.name, y.name);
  }

  /** "Not after" is transitive. */
  lemma NotAfterTransitive(x: Key, y: Key, z: Key)
    requires !KeyLess(y, x) && !KeyLess(z, y)
    ensures !KeyLess(z, x)
  {
    if KeyLess(z, x) {
      KeyLessTotal(x, y);
      if x != y {
        KeyLessTransitive(z, x, y);
      }
      KeyLessIrreflexive(z);
    }
  }

  /** `x` goes before the first element whose key is not less than its own. */
  function Insert<T>(x: T, s: seq<T>, key: T -> Key): (r: seq<T>)
    ensures |r| == |s| + 1
  {
    if s == [] then [x]
    else if KeyLess(key(s[0]), key(x)) then [s[0]] + Insert(x, s[1..], key)
    else [x] + s
  }

  /** Insertion adds `x` and keeps every other element. */
  lemma {:induction false} InsertPermutation<T>(x: T, s: seq<T>, key: T -> Key)
    ensures multiset(Insert(x, s, key)) == multiset(s) + multiset{x}
    decreases |s|
  {
    if s != [] && KeyLess(key(s[0]), key(x)) {
      InsertPermutation(x, s[1..], key);
      assert s == [s[0]] + s[1..];
    }
  }

  function SortBy<T>(s: seq<T>, key: T -> Key): seq<T>
  {
    if s == [] then [] else Insert(s[0], SortBy(s[1..], key), key)
  }

  ghost predicate SortedBy<T>(s: seq<T>, key: T -> Key)
  {
    forall i, j :: 0 <= i < j < |s| ==> !KeyLess(key(s[j]), key(s[i]))
  }

  /** The elements with key `k`, in order. */
  function WithKey<T>(s: seq<T>, key: T -> Key, k: Key): seq<T>
  {
    if s == [] then [] else (if key(s[0]) == k then [s[0]] else []) + WithKey(s[1..], key, k)
  }

  lemma {:induction false} WithKeyConcat<T>(a: seq<T>, b: seq<T>, key: T -> Key, k: Key)
    ensures WithKey(a + b, key, k) == WithKey(a, key, k) + WithKey(b, key, k)
    decreases |a|
  {
    if a != [] {
      assert (a + b)[1..] == a[1..] + b;
      WithKeyConcat(a[1..], b, key, k);
    } else {
      assert a + b == b;
    }
  }

  lemma {:induction false} WithKeyMember<T>(s: seq<T>, key: T -> Key, k: Key, x: T)
    requires x in WithKey(s, key, k)
    ensures x in s && key(x) == k
    decreases |s|
  {
    if s != [] && !(key(s[0]) == k && x == s[0]) {
      WithKeyConcat([s[0]], s[1..], key, k);
      assert s == [s[0]] + s[1..];
      WithKeyMember(s[1..], key, k, x);
    }
  }

  lemma {:induction false} InsertSorted<T>(x: T, s: seq<T>, key: T -> Key)
    requires SortedBy(s, key)
    ensures SortedBy(Insert(x, s, key), key)
    decreases |s|
  {
    if s != [] {
      var r := Insert(x, s, key);
      if KeyLess(key(s[0]), key(x)) {
        var tail := Insert(x, s[1..], key);
        assert SortedBy(s[1..], key) by {
          forall i, j | 0 <= i < j < |s[1..]| ensures !KeyLess(key(s[1..][j]), key(s[1..][i])) {
            assert s[1..][j] == s[j + 1] && s[1..][i] == s[i + 1];
          }
        }
        InsertSorted(x, s[1..], key);
        InsertPermutation(x, s[1..], key);
        forall j | 0 <= j < |tail| ensures !KeyLess(key(tail[j]), key(s[0])) {
          assert tail[j] in multiset(tail);
          if tail[j] == x {
            if KeyLess(key(x), key(s[0])) {
              KeyLessTransitive(key(x), key(s[0]), key(x));
              KeyLessIrreflexive(key(x));
            }
          } else {
            assert tail[j] in multiset(s[1..]);
            var m :| 0 <= m < |s[1..]| && s[1..][m] == tail[j];
            assert s[1..][m] == s[m + 1];
          }
        }
        assert r == [s[0]] + tail;
        forall i, j | 0 <= i < j < |r| ensures !KeyLess(key(r[j]), key(r[i])) {
          assert r[j] == tail[j - 1];
          if i > 0 {
            assert r[i] == tail[i - 1];
          }
        }
      } else {
        assert r == [x] + s;
        forall i, j | 0 <= i < j < |r| ensures !KeyLess(key(r[j]), key(r[i])) {
          assert r[j] == s[j - 1];
          if i > 0 {
            assert r[i] == s[i - 1];
          } else if j > 1 {
            NotAfterTransitive(key(x), key(s[0]), key(s[j - 1]));
          }
        }
      }
    }
  }

  /** The sort's result is ordered by key. */
  lemma {:induction false} SortSorted<T>(s: seq<T>, key: T -> Key)
    ensures SortedBy(SortBy(s, key), key)
    decreases |s|
  {
    if s != [] {
      SortSorted(s[1..], key);
      InsertSorted(s[0], SortBy(s[1..], key), key);
    } else {
      assert SortBy(s, key) == [];
    }
  }

  /** The sort's result holds the same elements, each as often. */
  lemma {:induction false} SortPermutation<T>(s: seq<T>, key: T -> Key)
    ensures |SortBy(s, key)| == |s| && multiset(SortBy(s, key)) == multiset(s)
    decreases |s|
  {
    if s != [] {
      SortPermutation(s[1..], key);
      InsertPermutation(s[0], SortBy(s[1..], key), key);
      assert s == [s[0]] + s[1..];
    }
  }

  lemma WithKeyCons<T>(y: T, s: seq<T>, key: T -> Key, k: Key)
    ensures WithKey([y] + s, key, k) == (if key(y) == k then [y] else []) + WithKey(s, key, k)
  {
    assert ([y] + s)[1..] == s;
  }

  lemma {:induction false} InsertStable<T>(x: T, s: seq<T>, key: T -> Key, k: Key)
    ensures WithKey(Insert(x, s, key), key, k) == WithKey([x] + s, key, k)
    decreases |s|
  {
    if s != [] && KeyLess(key(s[0]), key(x)) {
      var t := Insert(x, s[1..], key);
      assert Insert(x, s, key) == [s[0]] + t;
      InsertStable(x, s[1..], key, k);
      WithKeyCons(s[0], t, key, k);
      WithKeyCons(x, s[1..], key, k);
      WithKeyCons(x, s, key, k);
      assert s == [s[0]] + s[1..];
      WithKeyCons(s[0], s[1..], key, k);
      KeyLessIrreflexive(key(x));
      var w := WithKey(s[1..], key, k);
      if key(x) == k {
        assert key(s[0]) != k;
      } else {
        assert [] + w == w;
      }
    }
  }

  /** Stability: the elements sharing a key keep their relative order. */
  lemma {:induction false} SortStable<T>(s: seq<T>, key: T -> Key, k: Key)
    ensures WithKey(SortBy(s, key), key, k) == WithKey(s, key, k)
    decreases |s|
  {
    if s != [] {
      SortStable(s[1..], key, k);
      InsertStable(s[0], SortBy(s[1..], key), key, k);
      WithKeyConcat([s[0]], SortBy(s[1..], key), key, k);
      WithKeyConcat([s[0]], s[1..], key, k);
      assert s == [s[0]] + s[1..];
    }
  }

  lemma SortedTail<T>(s: seq<T>, key: T -> Key)
    requires SortedBy(s, key) && s != []
    ensures SortedBy(s[1..], key)
  {
    forall i, j | 0 <= i < j < |s[1..]| ensures !KeyLess(key(s[1..][j]), key(s[1..][i])) {
      assert s[1..][j] == s[j + 1] && s[1..][i] == s[i + 1];
    }
  }

  /** Two sequences ordered by key that agree on the elements of every key,
      in order, are equal. */
  lemma {:induction false} SortedUnique<T>(r1: seq<T>, r2: seq<T>, key: T -> Key)
    requires SortedBy(r1, key) && SortedBy(r2, key)
    requires forall k :: WithKey(r1, key, k) == WithKey(r2, key, k)
    ensures r1 == r2
    decreases |r1|
  {
    if r1 != [] {
      assert r1[0] in WithKey(r1, key, key(r1[0]));
    }
    if r2 != [] {
      assert r2[0] in WithKey(r2, key, key(r2[0]));
    }
    if r1 != [] && r2 != [] {
      var k1, k2 := key(r1[0]), key(r2[0]);
      assert r1[0] in WithKey(r1, key, k1);
      WithKeyMember(r2, key, k1, r1[0]);
      var j :| 0 <= j < |r2| && r2[j] == r1[0];
      assert !KeyLess(k1, k2) by {
        if j > 0 {
          assert !KeyLess(key(r2[j]), key(r2[0]));
        } else {
          KeyLessIrreflexive(k1);
        }
      }
      assert r2[0] in WithKey(r2, key, k2);
      WithKeyMember(r1, key, k2, r2[0]);
      var i :| 0 <= i < |r1| && r1[i] == r2[0];
      assert !KeyLess(k2, k1) by {
        if i > 0 {
          assert !KeyLess(key(r1[i]), key(r1[0]));
        } else {
          KeyLessIrreflexive(k2);
        }
      }
      KeyLessTotal(k1, k2);
      assert r1 == [r1[0]] + r1[1..] && r2 == [r2[0]] + r2[1..];
      assert r1[0] == r2[0] by {
        WithKeyConcat([r1[0]], r1[1..], key, k1);
        WithKeyConcat([r2[0]], r2[1..], key, k1);
        assert WithKey(r1, key, k1)[0] == r1[0];
        assert WithKey(r2, key, k1) == WithKey(r1, key, k1);
      }
      forall k ensures WithKey(r1[1..], key, k) == WithKey(r2[1..], key, k) {
        WithKeyConcat([r1[0]], r1[1..], key, k);
        WithKeyConcat([r2[0]], r2[1..], key, k);
        assert WithKey(r1, key, k) == WithKey(r2, key, k);
        var head := WithKey([r1[0]], key, k);
        assert WithKey([r2[0]], key, k) == head;
        assert WithKey(r1[1..], key, k) == WithKey(r1, key, k)[|head|..];
        assert WithKey(r2[1..], key, k) == WithKey(r2, key, k)[|head|..];
      }
      SortedTail(r1, key);
      SortedTail(r2, key);
      SortedUnique(r1[1..], r2[1..], key);
    }
  }

  /** Any stable sort by key (Python's `sorted` with a key is one) produces
      exactly what `SortBy` produces. */
  lemma StableSortIsSortBy<T>(s: seq<T>, r: seq<T>, key: T -> Key)
    requires SortedBy(r, key)
    requires forall k :: WithKey(r, key, k) == WithKey(s, key, k)
    ensures r == SortBy(s, key)
  {
    SortSorted(s, key);
    forall k ensures WithKey(r, key, k) == WithKey(SortBy(s, key), key, k) {
      SortStable(s, key, k);
    }
    SortedUnique(r, SortBy(s, key), key);
  }
}
