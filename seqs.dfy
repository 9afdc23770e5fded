/** Option and Result, and the list operations the storefront applies to its
    arrays: `filter`, `some`, uniqueness of a key, and ordering by a numeric key
    (the `orderBy: { createdAt: "desc" }` of the store queries). */
module Seqs {

  datatype Option<+T> = None | Some(value: T)

  datatype Result<+T> = Ok(value: T) | Err(message: string)

  // ---------------------------------------------------------------------------
  // filter

  /** `s.filter(keep)`: the elements of `s` that satisfy `keep`, in order. */
  function Filter<T>(s: seq<T>, keep: T -> bool): (r: seq<T>)
    ensures |r| <= |s|
    ensures forall i :: 0 <= i < |r| ==> keep(r[i])
  {
    if s == [] then []
    else Filter(s[..|s| - 1], keep) + (if keep(s[|s| - 1]) then [s[|s| - 1]] else [])
  }

  /** The positions of `s` whose elements satisfy `keep`, in increasing order. */
  function KeptPositions<T>(s: seq<T>, keep: T -> bool): seq<nat>
  {
    if s == [] then []
    else KeptPositions(s[..|s| - 1], keep) + (if keep(s[|s| - 1]) then [|s| - 1] else [])
  }

  /** `idx` picks `r` out of `s`: strictly increasing positions of `s`
      at which `s` holds the elements of `r`. */
  ghost predicate Embedding<T>(r: seq<T>, s: seq<T>, idx: seq<nat>)
  {
    && |idx| == |r|
    && (forall i, j :: 0 <= i < j < |idx| ==> idx[i] < idx[j])
    && (forall i :: 0 <= i < |idx| ==> idx[i] < |s| && r[i] == s[idx[i]])
  }

  /** `r` is `s` with some elements dropped and the rest kept in order. */
  ghost predicate IsSubsequence<T>(r: seq<T>, s: seq<T>)
  {
    exists idx :: Embedding(r, s, idx)
  }

  lemma {:induction false} FilterEmbedding<T>(s: seq<T>, keep: T -> bool)
    ensures Embedding(Filter(s, keep), s, KeptPositions(s, keep))
  {
    if s != [] {
      var n := |s| - 1;
      FilterEmbedding(s[..n], keep);
      var idx := KeptPositions(s[..n], keep);
      assert forall i :: 0 <= i < |idx| ==> idx[i] < n;
    }
  }

  /** A filtered list is an order-preserving subsequence of the original. */
  lemma FilterIsSubsequence<T>(s: seq<T>, keep: T -> bool)
    ensures IsSubsequence(Filter(s, keep), s)
  {
    FilterEmbedding(s, keep);
  }

  /** Every element occurs in the filtered list exactly as often as in the
      original when it satisfies `keep`, and not at all otherwise. */
  lemma {:induction false} FilterCount<T>(s: seq<T>, keep: T -> bool, x: T)
    ensures multiset(Filter(s, keep))[x] == if keep(x) then multiset(s)[x] else 0
  {
    if s != [] {
      var n := |s| - 1;
      FilterCount(s[..n], keep, x);
      assert s == s[..n] + [s[n]];
    }
  }

  /** Membership: `x` survives the filter iff it was there and satisfies `keep`. */
  lemma FilterMembership<T>(s: seq<T>, keep: T -> bool, x: T)
    ensures x in Filter(s, keep) <==> x in s && keep(x)
  {
    FilterCount(s, keep, x);
  }

  /** A filter whose test every element passes gives the list back unchanged. */
  lemma {:induction false} FilterKeepsAll<T>(s: seq<T>, keep: T -> bool)
    requires forall i :: 0 <= i < |s| ==> keep(s[i])
    ensures Filter(s, keep) == s
  {
    if s != [] {
      var n := |s| - 1;
      FilterKeepsAll(s[..n], keep);
      assert s == s[..n] + [s[n]];
    }
  }

  /** A filter whose test no element passes gives the empty list. */
  lemma {:induction false} FilterKeepsNone<T>(s: seq<T>, keep: T -> bool)
    requires forall i :: 0 <= i < |s| ==> !keep(s[i])
    ensures Filter(s, keep) == []
  {
    if s != [] {
      FilterKeepsNone(s[..|s| - 1], keep);
    }
  }

  /** Two tests that agree on every element filter alike. */
  lemma {:induction false} FilterSameTest<T>(s: seq<T>, f: T -> bool, g: T -> bool)
    requires forall i :: 0 <= i < |s| ==> f(s[i]) == g(s[i])
    ensures Filter(s, f) == Filter(s, g)
  {
    if s != [] {
      FilterSameTest(s[..|s| - 1], f, g);
    }
  }

  // ---------------------------------------------------------------------------
  // unique keys

  /** No two elements of `s` share a key (a primary key or a unique column). */
  ghost predicate UniqueKeys<T, K>(s: seq<T>, key: T -> K)
  {
    forall i, j :: 0 <= i < j < |s| ==> key(s[i]) != key(s[j])
  }

  /** Appending an element whose key is new keeps keys unique. */
  lemma AppendKeepsKeysUnique<T, K>(s: seq<T>, x: T, key: T -> K)
    requires UniqueKeys(s, key)
    requires forall i :: 0 <= i < |s| ==> key(s[i]) != key(x)
    ensures UniqueKeys(s + [x], key)
  {
  }

  /** No element of `s` occurs twice. */
  ghost predicate NoDuplicates<T>(s: seq<T>)
  {
    forall i, j :: 0 <= i < j < |s| ==> s[i] != s[j]
  }

  /** The elements of a list, as a set: never more than its length, and
      exactly its length iff nothing repeats. */
  lemma {:induction false} ElementsCard<T>(s: seq<T>)
    ensures |set x | x in s| <= |s|
    ensures |set x | x in s| == |s| <==> NoDuplicates(s)
  {
    if s != [] {
      var n := |s| - 1;
      var pre := s[..n];
      ElementsCard(pre);
      assert (set x | x in s) == (set x | x in pre) + {s[n]};
      if s[n] in pre {
        var k :| 0 <= k < n && pre[k] == s[n];
        assert (set x | x in s) == (set x | x in pre);
        assert !NoDuplicates(s) by { assert s[k] == s[n]; }
      } else {
        assert NoDuplicates(s) <==> NoDuplicates(pre) by {
          if NoDuplicates(pre) {
            forall i, j | 0 <= i < j < |s| ensures s[i] != s[j] {
              if j == n { assert s[i] in pre; }
            }
          }
        }
      }
    }
  }

  /** A subset is never larger, and one of the same size is the whole set. */
  lemma SubsetCard<T>(a: set<T>, b: set<T>)
    requires a <= b
    ensures |a| <= |b|
    ensures |a| == |b| ==> a == b
  {
    var rest := b - a;
    assert b == a + rest && a * rest == {};
    assert |b| == |a| + |rest|;
    if rest != {} {
      var x :| x in rest;
      assert |rest| >= 1;
    }
  }

  /** The keys the rows of `rows` carry. */
  ghost function KeySet<T, K>(rows: seq<T>, key: T -> K): set<K>
  {
    set i | 0 <= i < |rows| :: key(rows[i])
  }

  /** The keys of a non-empty list: those of all but its last row, plus
      the last row's, which is new when keys are unique. */
  lemma KeySetSnoc<T, K>(rows: seq<T>, key: T -> K)
    requires rows != []
    ensures KeySet(rows, key) == KeySet(rows[..|rows| - 1], key) + {key(rows[|rows| - 1])}
    ensures UniqueKeys(rows, key) ==> key(rows[|rows| - 1]) !in KeySet(rows[..|rows| - 1], key)
  {
    var n := |rows| - 1;
    var pre := rows[..n];
    forall k | k in KeySet(rows, key) ensures k in KeySet(pre, key) + {key(rows[n])} {
      var i :| 0 <= i < |rows| && key(rows[i]) == k;
      if i < n { assert key(pre[i]) == k; }
    }
    forall k | k in KeySet(pre, key) ensures k in KeySet(rows, key) {
      var i :| 0 <= i < |pre| && key(pre[i]) == k;
      assert key(rows[i]) == k;
    }
    if UniqueKeys(rows, key) {
      forall i | 0 <= i < |pre| ensures key(pre[i]) != key(rows[n]) {
        assert pre[i] == rows[i];
      }
    }
  }

  /** Filtering rows with unique keys by "key is in `wanted`" keeps one row
      per wanted key that some row carries. */
  lemma {:induction false} FilterByKeyCount<T, K>(rows: seq<T>, key: T -> K, wanted: set<K>, keep: T -> bool)
    requires UniqueKeys(rows, key)
    requires forall r :: keep(r) <==> key(r) in wanted
    ensures |Filter(rows, keep)| == |KeySet(rows, key) * wanted|
  {
    if rows == [] {
      assert KeySet(rows, key) == {};
    } else {
      var n := |rows| - 1;
      var pre := rows[..n];
      var last := rows[n];
      assert UniqueKeys(pre, key);
      FilterByKeyCount(pre, key, wanted, keep);
      KeySetSnoc(rows, key);
      var before := KeySet(pre, key) * wanted;
      if keep(last) {
        assert KeySet(rows, key) * wanted == before + {key(last)};
        assert key(last) !in before;
      } else {
        assert KeySet(rows, key) * wanted == before;
      }
    }
  }

  // ---------------------------------------------------------------------------
  // ordering by a numeric key, newest first

  /** `s` is ordered by `key`, largest first. */
  ghost predicate SortedDesc<T>(s: seq<T>, key: T -> int)
  {
    forall i, j :: 0 <= i < j < |s| ==> key(s[i]) >= key(s[j])
  }

  /** Inserts `x` into a list ordered largest first, before the first element
      with a smaller key. */
  function InsertDesc<T>(x: T, s: seq<T>, key: T -> int): (r: seq<T>)
    ensures |r| == |s| + 1
    ensures multiset(r) == multiset(s) + multiset{x}
  {
    if s == [] || key(s[0]) <= key(x) then [x] + s
    else
      assert s == [s[0]] + s[1..];
      [s[0]] + InsertDesc(x, s[1..], key)
  }

  lemma {:induction false} InsertDescSorted<T>(x: T, s: seq<T>, key: T -> int)
    requires SortedDesc(s, key)
    ensures SortedDesc(InsertDesc(x, s, key), key)
  {
    if s != [] && key(s[0]) > key(x) {
      InsertDescSorted(x, s[1..], key);
      var r := InsertDesc(x, s[1..], key);
      assert multiset(r) == multiset(s[1..]) + multiset{x};
      forall k | 0 <= k < |r| ensures key(s[0]) >= key(r[k]) {
        assert r[k] in multiset(r);
        if r[k] == x {
        } else {
          assert r[k] in multiset(s[1..]);
          var m :| 0 <= m < |s[1..]| && s[1..][m] == r[k];
          assert s[1..][m] == s[m + 1];
        }
      }
    }
  }

  /** The rows of `s` ordered by `key`, largest first (ties in no particular
      order, as the store gives no order among equal keys). */
  function SortDesc<T>(s: seq<T>, key: T -> int): (r: seq<T>)
    ensures multiset(r) == multiset(s)
  {
    if s == [] then []
    else
      assert s == [s[0]] + s[1..];
      InsertDesc(s[0], SortDesc(s[1..], key), key)
  }

  /** Ordering newest first gives an ordered permutation of the input. */
  lemma {:induction false} SortDescSorted<T>(s: seq<T>, key: T -> int)
    ensures SortedDesc(SortDesc(s, key), key)
    ensures multiset(SortDesc(s, key)) == multiset(s)
  {
    if s != [] {
      SortDescSorted(s[1..], key);
      InsertDescSorted(s[0], SortDesc(s[1..], key), key);
    }
  }
}
