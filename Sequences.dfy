/**
 * Sequence vocabulary shared by the driver and the multi-material
 * application: first-occurrence de-duplication (the `if (not contains(...))
 * push_back` idiom), prefix sums, counting, selecting the entries that carry
 * a given key, and flattening.  Every recursive definition peels the LAST
 * element, because the modelled loops grow their vectors with `push_back`.
 */
module Sequences {

  datatype Option<T> = None | Some(value: T)

  // ---------------------------------------------------------------------
  // Distinctness and first occurrences
  // ---------------------------------------------------------------------

  ghost predicate NoDuplicates<T>(s: seq<T>) {
    forall i, j :: 0 <= i < j < |s| ==> s[i] != s[j]
  }

  /** Index of the first occurrence of `x` in `s`. */
  function FirstIndex<T(==)>(s: seq<T>, x: T): (r: nat)
    requires x in s
    ensures r < |s| && s[r] == x && x !in s[..r]
  {
    if s[0] == x then 0
    else
      assert s == [s[0]] + s[1..];
      var k := FirstIndex(s[1..], x);
      assert s[..k + 1] == [s[0]] + s[1..][..k];
      k + 1
  }

  lemma FirstIndexExtend<T>(s: seq<T>, y: T, x: T)
    requires x in s
    ensures x in s + [y] && FirstIndex(s + [y], x) == FirstIndex(s, x)
  {
    var i := FirstIndex(s, x);
    var j := FirstIndex(s + [y], x);
    assert (s + [y])[..i] == s[..i];
    assert (s + [y])[i] == x;
  }

  /**
   * The distinct elements of `s` in the order of their first occurrence:
   * the result of scanning `s` and appending every element not seen yet.
   */
  function Dedup<T(==)>(s: seq<T>): seq<T>
  {
    if |s| == 0 then []
    else
      var d := Dedup(s[..|s| - 1]);
      if s[|s| - 1] in d then d else d + [s[|s| - 1]]
  }

  lemma DedupSnoc<T>(s: seq<T>, x: T)
    ensures Dedup(s + [x]) == if x in Dedup(s) then Dedup(s) else Dedup(s) + [x]
  {
    assert (s + [x])[..|s + [x]| - 1] == s;
  }

  /** Dedup keeps exactly the elements of its input, ... */
  lemma {:induction false} DedupElements<T>(s: seq<T>)
    ensures forall x :: x in Dedup(s) <==> x in s
  {
    if |s| > 0 {
      var p := s[..|s| - 1];
      DedupElements(p);
      assert s == p + [s[|s| - 1]];
    }
  }

  /** ... each of them once, ... */
  lemma {:induction false} DedupNoDuplicates<T>(s: seq<T>)
    ensures NoDuplicates(Dedup(s))
  {
    if |s| > 0 {
      DedupNoDuplicates(s[..|s| - 1]);
    }
  }

  /** ... in the order in which they first occur in the input. */
  lemma {:induction false} DedupFirstOccurrenceOrder<T>(s: seq<T>)
    ensures forall x :: x in Dedup(s) ==> x in s
    ensures forall i, j :: 0 <= i < j < |Dedup(s)| ==>
              FirstIndex(s, Dedup(s)[i]) < FirstIndex(s, Dedup(s)[j])
  {
    DedupElements(s);
    if |s| > 0 {
      var p := s[..|s| - 1];
      var y := s[|s| - 1];
      assert s == p + [y];
      DedupFirstOccurrenceOrder(p);
      DedupElements(p);
      var d := Dedup(p);
      forall i | 0 <= i < |d| ensures FirstIndex(s, d[i]) == FirstIndex(p, d[i]) < |p| {
        FirstIndexExtend(p, y, d[i]);
      }
      if y !in d {
        assert y !in p;
        assert FirstIndex(s, y) == |p|;
      }
    }
  }

  // ---------------------------------------------------------------------
  // Sums and prefix sums
  // ---------------------------------------------------------------------

  function Sum(s: seq<nat>): nat
  {
    if |s| == 0 then 0 else Sum(s[..|s| - 1]) + s[|s| - 1]
  }

  lemma SumSnoc(s: seq<nat>, x: nat)
    ensures Sum(s + [x]) == Sum(s) + x
  {
    assert (s + [x])[..|s|] == s;
  }

  /** A prefix never sums to more than the whole. */
  lemma {:induction false} SumPrefixMonotone(s: seq<nat>, i: nat, j: nat)
    requires i <= j <= |s|
    ensures Sum(s[..i]) <= Sum(s[..j])
  {
    if i < j {
      SumPrefixMonotone(s, i, j - 1);
      assert s[..j] == s[..j - 1] + [s[j - 1]];
      SumSnoc(s[..j - 1], s[j - 1]);
    }
  }

  // ---------------------------------------------------------------------
  // Counting and selecting by key
  // ---------------------------------------------------------------------

  /** Number of occurrences of `x` in `s`. */
  function Count<T(==)>(s: seq<T>, x: T): nat
  {
    if |s| == 0 then 0
    else Count(s[..|s| - 1], x) + (if s[|s| - 1] == x then 1 else 0)
  }

  lemma CountSnoc<T>(s: seq<T>, y: T, x: T)
    ensures Count(s + [y], x) == Count(s, x) + (if y == x then 1 else 0)
  {
    assert (s + [y])[..|s|] == s;
  }

  lemma {:induction false} CountAppend<T>(a: seq<T>, b: seq<T>, x: T)
    ensures Count(a + b, x) == Count(a, x) + Count(b, x)
  {
    if |b| == 0 {
      assert a + b == a;
    } else {
      var b' := b[..|b| - 1];
      CountAppend(a, b', x);
      assert a + b == (a + b') + [b[|b| - 1]];
      CountSnoc(a + b', b[|b| - 1], x);
    }
  }

  lemma {:induction false} CountMember<T>(s: seq<T>, x: T)
    ensures Count(s, x) > 0 <==> x in s
  {
    if |s| > 0 {
      CountMember(s[..|s| - 1], x);
      assert s == s[..|s| - 1] + [s[|s| - 1]];
    }
  }

  /** Without repeats, a value occurs once or not at all. */
  lemma {:induction false} CountDistinct<T>(s: seq<T>, x: T)
    requires NoDuplicates(s)
    ensures Count(s, x) == if x in s then 1 else 0
  {
    if |s| > 0 {
      var n := |s| - 1;
      var p := s[..n];
      assert forall i, j :: 0 <= i < j < |p| ==> p[i] == s[i] && p[j] == s[j];
      CountDistinct(p, x);
      assert forall i :: 0 <= i < |p| ==> p[i] == s[i] != s[n];
      assert s == p + [s[n]];
    }
  }

  /**
   * The entries of `vals` whose parallel entry of `keys` equals `k`, in
   * their original order.
   */
  function Select<K(==), V>(keys: seq<K>, vals: seq<V>, k: K): (r: seq<V>)
    requires |keys| == |vals|
    ensures |r| == Count(keys, k)
  {
    if |keys| == 0 then []
    else
      var n := |keys| - 1;
      Select(keys[..n], vals[..n], k) + (if keys[n] == k then [vals[n]] else [])
  }

  lemma SelectSnoc<K, V>(keys: seq<K>, vals: seq<V>, k: K, v: V, x: K)
    requires |keys| == |vals|
    ensures Select(keys + [k], vals + [v], x)
         == Select(keys, vals, x) + (if k == x then [v] else [])
  {
    assert (keys + [k])[..|keys|] == keys;
    assert (vals + [v])[..|vals|] == vals;
  }

  /** `v` is selected by `k` exactly when some position carries both. */
  lemma {:induction false} SelectMember<K, V>(keys: seq<K>, vals: seq<V>, k: K, v: V)
    requires |keys| == |vals|
    ensures v in Select(keys, vals, k) <==>
            exists e :: 0 <= e < |keys| && keys[e] == k && vals[e] == v
  {
    if |keys| > 0 {
      var n := |keys| - 1;
      SelectMember(keys[..n], vals[..n], k, v);
      if v in Select(keys, vals, k) && v !in Select(keys[..n], vals[..n], k) {
        assert keys[n] == k && vals[n] == v;
      }
      if exists e :: 0 <= e < |keys| && keys[e] == k && vals[e] == v {
        var e :| 0 <= e < |keys| && keys[e] == k && vals[e] == v;
        if e < n {
          assert keys[..n][e] == k && vals[..n][e] == v;
        }
      }
    }
  }

  ghost predicate NonDecreasing(s: seq<int>) {
    forall i, j :: 0 <= i < j < |s| ==> s[i] <= s[j]
  }

  /** Selection keeps the order of a non-decreasing value sequence. */
  lemma {:induction false} SelectNonDecreasing<K>(keys: seq<K>, vals: seq<nat>, k: K)
    requires |keys| == |vals| && NonDecreasing(vals)
    ensures NonDecreasing(Select(keys, vals, k))
    ensures forall v :: v in Select(keys, vals, k) ==> v in vals
  {
    if |keys| > 0 {
      var n := |keys| - 1;
      assert NonDecreasing(vals[..n]);
      SelectNonDecreasing(keys[..n], vals[..n], k);
      var prev := Select(keys[..n], vals[..n], k);
      forall v | v in prev ensures v <= vals[n] {
        assert v in vals[..n];
      }
      var r := Select(keys, vals, k);
      assert r == prev + (if keys[n] == k then [vals[n]] else []);
      forall i, j | 0 <= i < j < |r| ensures r[i] <= r[j] {
        if j < |prev| {
          assert r[i] == prev[i] && r[j] == prev[j];
        } else {
          assert r[i] in prev;
        }
      }
    }
  }

  /** Total number of keys that fall in [0, bound), counted key by key. */
  function CountBelow(keys: seq<int>, bound: nat): nat
  {
    if bound == 0 then 0 else CountBelow(keys, bound - 1) + Count(keys, bound - 1)
  }

  lemma {:induction false} CountBelowSnoc(keys: seq<int>, y: int, bound: nat)
    ensures CountBelow(keys + [y], bound)
         == CountBelow(keys, bound) + (if 0 <= y < bound then 1 else 0)
  {
    if bound > 0 {
      CountBelowSnoc(keys, y, bound - 1);
      CountSnoc(keys, y, bound - 1);
    }
  }

  /** When every key lies in [0, bound), the per-key counts add up to the length. */
  lemma {:induction false} CountBelowTotal(keys: seq<int>, bound: nat)
    requires forall e :: 0 <= e < |keys| ==> 0 <= keys[e] < bound
    ensures CountBelow(keys, bound) == |keys|
  {
    if |keys| == 0 {
      CountBelowEmpty(bound);
    } else {
      var p := keys[..|keys| - 1];
      CountBelowTotal(p, bound);
      assert keys == p + [keys[|keys| - 1]];
      CountBelowSnoc(p, keys[|keys| - 1], bound);
    }
  }

  lemma {:induction false} CountBelowEmpty(bound: nat)
    ensures CountBelow([], bound) == 0
  {
    if bound > 0 { CountBelowEmpty(bound - 1); }
  }

  // ---------------------------------------------------------------------
  // Flattening blocks
  // ---------------------------------------------------------------------

  /** A prefix one element longer. */
  lemma SliceAt<T>(s: seq<T>, lo: nat, hi: nat, i: nat)
    requires lo <= hi <= |s| && i < hi - lo
    ensures s[lo..hi][i] == s[lo + i]
  {}

  lemma PrefixSnoc<T>(s: seq<T>, p: nat)
    requires p < |s|
    ensures s[..p + 1] == s[..p] + [s[p]]
  {}

  /** The concatenation of a sequence of blocks. */
  function Concat<T>(ss: seq<seq<T>>): seq<T>
  {
    if |ss| == 0 then [] else Concat(ss[..|ss| - 1]) + ss[|ss| - 1]
  }

  /** The flattening is as long as the blocks together. */
  lemma {:induction false} ConcatLength<T>(ss: seq<seq<T>>)
    ensures |Concat(ss)| == Sum(Lengths(ss))
  {
    if |ss| > 0 {
      ConcatLength(ss[..|ss| - 1]);
      LengthsPrefix(ss, |ss| - 1);
    }
  }

  lemma ConcatSnoc<T>(ss: seq<seq<T>>, s: seq<T>)
    ensures Concat(ss + [s]) == Concat(ss) + s
  {
    assert (ss + [s])[..|ss|] == ss;
  }

  lemma {:induction false} ConcatAppend<T>(a: seq<seq<T>>, b: seq<seq<T>>)
    ensures Concat(a + b) == Concat(a) + Concat(b)
  {
    if |b| == 0 {
      assert a + b == a;
    } else {
      var b', x := b[..|b| - 1], b[|b| - 1];
      ConcatAppend(a, b');
      assert a + b == (a + b') + [x];
      ConcatSnoc(a + b', x);
      assert b == b' + [x];
      ConcatSnoc(b', x);
    }
  }

  /** The lengths of the blocks. */
  function Lengths<T>(ss: seq<seq<T>>): (r: seq<nat>)
    ensures |r| == |ss| && forall i :: 0 <= i < |ss| ==> r[i] == |ss[i]|
  {
    seq(|ss|, i requires 0 <= i < |ss| => |ss[i]|)
  }

  /**
   * For block lengths `lens`, the block index of every flattened position:
   * `lens[b]` copies of `b`, for b = 0, 1, ...
   */
  function Owners(lens: seq<nat>): (r: seq<nat>)
    ensures |r| == Sum(lens)
    ensures forall e :: 0 <= e < |r| ==> r[e] < |lens|
  {
    if |lens| == 0 then []
    else Owners(lens[..|lens| - 1]) + seq(lens[|lens| - 1], _ => |lens| - 1)
  }

  /** Position `Sum(lens[..b]) + j` of a flattened layout lies in block `b`. */
  lemma {:induction false} OwnersAt(lens: seq<nat>, b: nat, j: nat)
    requires b < |lens| && j < lens[b]
    ensures Sum(lens[..b]) + j < Sum(lens)
    ensures Owners(lens)[Sum(lens[..b]) + j] == b
  {
    var n := |lens| - 1;
    assert lens[..n + 1] == lens;
    if b == n {
      assert lens[..b] == lens[..n];
    } else {
      assert lens[..n][..b] == lens[..b];
      OwnersAt(lens[..n], b, j);
      SumPrefixMonotone(lens, b + 1, n);
      assert lens[..b + 1] == lens[..b] + [lens[b]];
      SumSnoc(lens[..b], lens[b]);
    }
  }

  /** Owners never decrease. */
  lemma {:induction false} OwnersShape(lens: seq<nat>)
    ensures NonDecreasing(Owners(lens))
  {
    if |lens| > 0 {
      OwnersShape(lens[..|lens| - 1]);
    }
  }

  /** Every flattened position lies inside the block of its owner. */
  lemma {:induction false} OwnersRange(lens: seq<nat>, e: nat)
    requires e < Sum(lens)
    ensures Sum(lens[..Owners(lens)[e]]) <= e < Sum(lens[..Owners(lens)[e]]) + lens[Owners(lens)[e]]
  {
    var n := |lens| - 1;
    var p := lens[..n];
    if e < Sum(p) {
      OwnersRange(p, e);
      var b := Owners(p)[e];
      assert Owners(lens)[e] == b;
      assert lens[..b] == p[..b];
    } else {
      assert Owners(lens)[e] == n;
    }
  }

  lemma LengthsPrefix<T>(ss: seq<seq<T>>, i: nat)
    requires i <= |ss|
    ensures Lengths(ss)[..i] == Lengths(ss[..i])
  {}

  /** Entry `j` of block `b` sits at position `Sum(lens[..b]) + j` of the flattening. */
  lemma {:induction false} ConcatAt<T>(ss: seq<seq<T>>, b: nat, j: nat)
    requires b < |ss| && j < |ss[b]|
    ensures Sum(Lengths(ss)[..b]) + j < |Concat(ss)|
    ensures Concat(ss)[Sum(Lengths(ss)[..b]) + j] == ss[b][j]
  {
    var n := |ss| - 1;
    ConcatLength(ss);
    ConcatLength(ss[..n]);
    LengthsPrefix(ss, b);
    if b < n {
      ConcatAt(ss[..n], b, j);
      LengthsPrefix(ss[..n], b);
      assert ss[..n][..b] == ss[..b];
    } else {
      LengthsPrefix(ss, n);
    }
  }

  /** The flattened entry at `e` is the entry of its owner block at the offset within it. */
  lemma {:induction false} ConcatOwners<T>(ss: seq<seq<T>>, e: nat)
    requires e < |Concat(ss)|
    ensures |Concat(ss)| == Sum(Lengths(ss))
    ensures var b := Owners(Lengths(ss))[e];
            var j := e - Sum(Lengths(ss)[..b]);
            0 <= j < |ss[b]| && Concat(ss)[e] == ss[b][j]
  {
    ConcatLength(ss);
    OwnersRange(Lengths(ss), e);
    var b := Owners(Lengths(ss))[e];
    ConcatAt(ss, b, e - Sum(Lengths(ss)[..b]));
  }
}
