/** Generic operations on the sequences that stand for store tables and query results. */
module Seqs {
  import opened Wrappers

  /** The elements of `s` that satisfy `p`, in their order in `s`. */
  function Filter<T>(s: seq<T>, p: T -> bool): (r: seq<T>)
    ensures |r| <= |s|
    ensures forall x :: x in r ==> x in s && p(x)
  {
    if s == [] then [] else (if p(s[0]) then [s[0]] else []) + Filter(s[1..], p)
  }

  lemma {:induction false} FilterAppend<T>(a: seq<T>, b: seq<T>, p: T -> bool)
    ensures Filter(a + b, p) == Filter(a, p) + Filter(b, p)
  {
    if a == [] {
      assert a + b == b;
    } else {
      assert (a + b)[0] == a[0];
      assert (a + b)[1..] == a[1..] + b;
      FilterAppend(a[1..], b, p);
    }
  }

  /** `idx` lists, in increasing order, the positions of `s` whose elements make up `r`. */
  ghost predicate SubsequenceAt<T>(s: seq<T>, r: seq<T>, idx: seq<nat>)
  {
    && |idx| == |r|
    && (forall j :: 0 <= j < |idx| ==> idx[j] < |s| && r[j] == s[idx[j]])
    && (forall j, k :: 0 <= j < k < |idx| ==> idx[j] < idx[k])
  }

  /** Every position of `rest`, moved one place to the right. */
  function Shift(rest: seq<nat>): (r: seq<nat>)
    ensures |r| == |rest|
    ensures forall j :: 0 <= j < |r| ==> r[j] == rest[j] + 1
  {
    seq(|rest|, j requires 0 <= j < |rest| => rest[j] + 1)
  }

  lemma ShiftMembership(rest: seq<nat>, i: nat)
    ensures i in Shift(rest) <==> 1 <= i && i - 1 in rest
  {
    var shifted := Shift(rest);
    if 1 <= i && i - 1 in rest {
      var j :| 0 <= j < |rest| && rest[j] == i - 1;
      assert shifted[j] == i;
    }
  }

  /** Positions into the tail of `s` become positions into `s`, one place further right. */
  lemma ShiftSubsequence<T>(s: seq<T>, r: seq<T>, rest: seq<nat>)
    requires |s| > 0 && SubsequenceAt(s[1..], r, rest)
    ensures SubsequenceAt(s, r, Shift(rest))
    ensures forall j :: 0 <= j < |rest| ==> Shift(rest)[j] >= 1
  {
    var shifted := Shift(rest);
    forall j | 0 <= j < |shifted|
      ensures shifted[j] < |s| && r[j] == s[shifted[j]]
    {
      assert s[1..][rest[j]] == s[rest[j] + 1];
    }
  }

  /** Position 0 may be put in front of positions that are all further right. */
  lemma ConsZero<T>(s: seq<T>, r: seq<T>, idx: seq<nat>)
    requires |s| > 0 && SubsequenceAt(s, r, idx)
    requires forall j :: 0 <= j < |idx| ==> idx[j] >= 1
    ensures SubsequenceAt(s, [s[0]] + r, [0] + idx)
  {
    var r' := [s[0]] + r;
    var idx' := [0] + idx;
    assert forall j :: 1 <= j < |idx'| ==> idx'[j] == idx[j - 1] && r'[j] == r[j - 1];
  }

  /** A filter keeps exactly the satisfying positions, in order, each once. */
  lemma {:induction false} FilterPositions<T>(s: seq<T>, p: T -> bool) returns (idx: seq<nat>)
    ensures SubsequenceAt(s, Filter(s, p), idx)
    ensures forall i :: 0 <= i < |s| ==> (p(s[i]) <==> i in idx)
  {
    if s == [] {
      idx := [];
    } else {
      var tail := s[1..];
      var rest := FilterPositions(tail, p);
      var shifted := Shift(rest);
      ShiftSubsequence(s, Filter(tail, p), rest);
      if p(s[0]) {
        assert Filter(s, p) == [s[0]] + Filter(tail, p);
        ConsZero(s, Filter(tail, p), shifted);
        idx := [0] + shifted;
      } else {
        assert Filter(s, p) == Filter(tail, p);
        idx := shifted;
      }
      forall i | 0 <= i < |s|
        ensures p(s[i]) <==> i in idx
      {
        ShiftMembership(rest, i);
        if i > 0 {
          assert s[i] == tail[i - 1];
        }
      }
    }
  }

  /** The first element of `s` whose key is `k` (a primary-key `get`). */
  function Find<T, K(==)>(s: seq<T>, key: T -> K, k: K): (r: Option<T>)
    ensures r.Some? ==> r.value in s && key(r.value) == k
    ensures r.None? <==> forall i :: 0 <= i < |s| ==> key(s[i]) != k
  {
    if s == [] then None
    else if key(s[0]) == k then Some(s[0])
    else
      var r := Find(s[1..], key, k);
      assert forall i :: 1 <= i < |s| ==> s[i] == s[1..][i - 1];
      r
  }

  /** An element appended under another key does not change what a lookup finds. */
  lemma {:induction false} FindAppendOther<T, K>(s: seq<T>, key: T -> K, x: T, k: K)
    requires key(x) != k
    ensures Find(s + [x], key, k) == Find(s, key, k)
  {
    if s != [] {
      assert (s + [x])[1..] == s[1..] + [x];
      FindAppendOther(s[1..], key, x, k);
    }
  }

  /** No two elements of `s` share a key. */
  predicate UniqueKeys<T, K(==)>(s: seq<T>, key: T -> K)
  {
    forall i, j :: 0 <= i < j < |s| ==> key(s[i]) != key(s[j])
  }

  /** `k` is above every key of `s`: what an auto-increment key generator hands out next. */
  predicate FreshKey<T>(s: seq<T>, key: T -> int, k: int)
  {
    forall i :: 0 <= i < |s| ==> key(s[i]) < k
  }

  /** The set of keys present in `s`. */
  function Keys<T, K>(s: seq<T>, key: T -> K): set<K>
  {
    set i | 0 <= i < |s| :: key(s[i])
  }

  /** With unique keys, a lookup by the key of an element finds that element. */
  lemma {:induction false} FindUnique<T, K>(s: seq<T>, key: T -> K, i: nat)
    requires UniqueKeys(s, key) && i < |s|
    ensures Find(s, key, key(s[i])) == Some(s[i])
  {
    if i > 0 {
      assert key(s[0]) != key(s[i]);
      assert s[1..][i - 1] == s[i];
      FindUnique(s[1..], key, i - 1);
    }
  }

  /** Appending an element under a fresh key keeps the keys unique. */
  lemma AppendFresh<T>(s: seq<T>, key: T -> int, x: T)
    requires UniqueKeys(s, key) && FreshKey(s, key, key(x))
    ensures UniqueKeys(s + [x], key)
    ensures Keys(s + [x], key) == Keys(s, key) + {key(x)}
  {
    var r := s + [x];
    assert forall i :: 0 <= i < |s| ==> r[i] == s[i];
    assert r[|s|] == x;
    forall k | k in Keys(r, key)
      ensures k in Keys(s, key) + {key(x)}
    {
      var i :| 0 <= i < |r| && key(r[i]) == k;
      if i < |s| { assert key(s[i]) == k; }
    }
    forall k | k in Keys(s, key)
      ensures k in Keys(r, key)
    {
      var i :| 0 <= i < |s| && key(s[i]) == k;
      assert key(r[i]) == k;
    }
  }

  /** Insert `x`, or overwrite the first element with the same key (a `put`). */
  function Upsert<T, K(==)>(s: seq<T>, key: T -> K, x: T): (r: seq<T>)
    ensures |r| == |s| || |r| == |s| + 1
  {
    if s == [] then [x]
    else if key(s[0]) == key(x) then [x] + s[1..]
    else [s[0]] + Upsert(s[1..], key, x)
  }

  /** A put whose key is already present overwrites that element in place. */
  lemma {:induction false} UpsertReplaces<T, K>(s: seq<T>, key: T -> K, x: T, i: nat)
    requires UniqueKeys(s, key) && i < |s| && key(s[i]) == key(x)
    ensures Upsert(s, key, x) == s[i := x]
  {
    if i > 0 {
      assert key(s[0]) != key(s[i]);
      UpsertReplaces(s[1..], key, x, i - 1);
      assert [s[0]] + s[1..][i - 1 := x] == s[i := x];
    }
  }

  /** A put whose key is absent appends at the end. */
  lemma {:induction false} UpsertAppends<T, K>(s: seq<T>, key: T -> K, x: T)
    requires forall i :: 0 <= i < |s| ==> key(s[i]) != key(x)
    ensures Upsert(s, key, x) == s + [x]
  {
    if s != [] {
      assert key(s[0]) != key(x);
      UpsertAppends(s[1..], key, x);
      assert [s[0]] + (s[1..] + [x]) == s + [x];
    }
  }

  /** A put brings in no element other than the one it stores. */
  lemma {:induction false} UpsertMembers<T, K>(s: seq<T>, key: T -> K, x: T)
    ensures forall y :: y in Upsert(s, key, x) ==> y in s || y == x
  {
    if s != [] && key(s[0]) != key(x) {
      UpsertMembers(s[1..], key, x);
      assert forall y :: y in s[1..] ==> y in s;
    }
  }

  /** A put keeps keys unique, adds exactly the key of `x`, and stores `x`. */
  lemma UpsertKeys<T, K>(s: seq<T>, key: T -> K, x: T)
    requires UniqueKeys(s, key)
    ensures UniqueKeys(Upsert(s, key, x), key)
    ensures Keys(Upsert(s, key, x), key) == Keys(s, key) + {key(x)}
    ensures x in Upsert(s, key, x)
  {
    if i :| 0 <= i < |s| && key(s[i]) == key(x) {
      UpsertReplaces(s, key, x, i);
      var r := s[i := x];
      forall k | k in Keys(s, key) ensures k in Keys(r, key) {
        var j :| 0 <= j < |s| && key(s[j]) == k;
        assert key(r[j]) == k;
      }
      forall k | k in Keys(r, key) ensures k in Keys(s, key) {
        var j :| 0 <= j < |r| && key(r[j]) == k;
        assert key(s[j]) == k;
      }
      assert r[i] == x;
    } else {
      UpsertAppends(s, key, x);
      var r := s + [x];
      assert forall j :: 0 <= j < |s| ==> r[j] == s[j];
      assert r[|s|] == x;
      forall k | k in Keys(r, key) ensures k in Keys(s, key) + {key(x)} {
        var j :| 0 <= j < |r| && key(r[j]) == k;
        if j < |s| { assert key(s[j]) == k; }
      }
      forall k | k in Keys(s, key) ensures k in Keys(r, key) {
        var j :| 0 <= j < |s| && key(s[j]) == k;
        assert key(r[j]) == k;
      }
    }
  }
}
