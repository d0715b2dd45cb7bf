/**
 * Sequence operations the dashboard uses through `Array.prototype.filter`,
 * `filter(...).length` and `find`, with the facts the rest of the model needs:
 * a filtered list is an order-preserving subsequence of its input.
 */
module Seqs {
  import opened Js

  /** The indices are in strictly increasing order. */
  predicate StrictlyIncreasing(idx: seq<int>) {
    forall k, l :: 0 <= k < l < |idx| ==> idx[k] < idx[l]
  }

  /** `idx` picks out `a` from `b`, in order: `a[k] == b[idx[k]]`. */
  ghost predicate Embeds<T>(idx: seq<int>, a: seq<T>, b: seq<T>) {
    && |idx| == |a|
    && StrictlyIncreasing(idx)
    && (forall k :: 0 <= k < |idx| ==> 0 <= idx[k] < |b| && a[k] == b[idx[k]])
  }

  /** `a` is an order-preserving subsequence of `b`. */
  ghost predicate IsSubsequence<T>(a: seq<T>, b: seq<T>) {
    exists idx :: Embeds(idx, a, b)
  }

  /** `s.filter(keep)`. */
  function Filter<T(==)>(s: seq<T>, keep: T -> bool): (r: seq<T>)
    ensures |r| <= |s|
    ensures forall k :: 0 <= k < |r| ==> r[k] in s && keep(r[k])
    ensures forall k :: 0 <= k < |s| && keep(s[k]) ==> s[k] in r
    ensures |r| == |s| <==> forall k :: 0 <= k < |s| ==> keep(s[k])
    ensures |r| == 0 <==> forall k :: 0 <= k < |s| ==> !keep(s[k])
  {
    if s == [] then []
    else
      var rest := Filter(s[1..], keep);
      assert forall k :: 1 <= k < |s| ==> s[k] == s[1..][k - 1];
      if keep(s[0]) then [s[0]] + rest else rest
  }

  /** Each kept value occurs in the filtered list as often as in the input; a dropped value does not occur. */
  lemma {:induction false} FilterMultiplicity<T>(s: seq<T>, keep: T -> bool, x: T)
    ensures multiset(Filter(s, keep))[x] == if keep(x) then multiset(s)[x] else 0
  {
    if s != [] {
      FilterMultiplicity(s[1..], keep, x);
      assert s == [s[0]] + s[1..];
      if keep(s[0]) {
        assert Filter(s, keep) == [s[0]] + Filter(s[1..], keep);
      } else {
        assert Filter(s, keep) == Filter(s[1..], keep);
      }
    }
  }

  /** `s.filter(p).length`. */
  function Count<T(==)>(s: seq<T>, p: T -> bool): (n: nat)
    ensures n <= |s|
    ensures n == |s| <==> forall k :: 0 <= k < |s| ==> p(s[k])
    ensures n == 0 <==> forall k :: 0 <= k < |s| ==> !p(s[k])
  {
    |Filter(s, p)|
  }

  /** A filter that keeps every element returns its input. */
  lemma {:induction false} FilterAllKept<T>(s: seq<T>, keep: T -> bool)
    requires forall k :: 0 <= k < |s| ==> keep(s[k])
    ensures Filter(s, keep) == s
  {
    if s != [] {
      assert forall k :: 0 <= k < |s[1..]| ==> keep(s[1..][k]) by {
        forall k | 0 <= k < |s[1..]| ensures keep(s[1..][k]) {
          assert s[1..][k] == s[k + 1];
        }
      }
      FilterAllKept(s[1..], keep);
    }
  }

  /** Every index moved one place to the right. */
  function Shifted(idx: seq<int>): (r: seq<int>)
    ensures |r| == |idx| && forall k :: 0 <= k < |idx| ==> r[k] == idx[k] + 1
  {
    seq(|idx|, k requires 0 <= k < |idx| => idx[k] + 1)
  }

  /** An embedding into `b` is, shifted by one, an embedding into `[x] + b`. */
  lemma EmbedsSkip<T>(idx: seq<int>, a: seq<T>, b: seq<T>, x: T)
    requires Embeds(idx, a, b)
    ensures Embeds(Shifted(idx), a, [x] + b)
  {
    var c := [x] + b;
    forall k | 0 <= k < |idx| ensures c[Shifted(idx)[k]] == b[idx[k]] { }
  }

  /** An embedding into `b`, shifted and led by 0, embeds `[x] + a` into `[x] + b`. */
  lemma EmbedsKeep<T>(idx: seq<int>, a: seq<T>, b: seq<T>, x: T)
    requires Embeds(idx, a, b)
    ensures Embeds([0] + Shifted(idx), [x] + a, [x] + b)
  {
    EmbedsSkip(idx, a, b, x);
    var j := [0] + Shifted(idx);
    forall k | 0 < k < |j| ensures j[k] == Shifted(idx)[k - 1] && j[k] > 0 { }
  }

  /** Whatever `filter` drops, the survivors keep their relative order. */
  lemma {:induction false} FilterIsSubsequence<T>(s: seq<T>, keep: T -> bool)
    ensures IsSubsequence(Filter(s, keep), s)
  {
    if s == [] {
      assert Embeds([], Filter(s, keep), s);
    } else {
      FilterIsSubsequence(s[1..], keep);
      var rest := Filter(s[1..], keep);
      var idx :| Embeds(idx, rest, s[1..]);
      assert s == [s[0]] + s[1..];
      if keep(s[0]) {
        EmbedsKeep(idx, rest, s[1..], s[0]);
        assert Embeds([0] + Shifted(idx), Filter(s, keep), s);
      } else {
        EmbedsSkip(idx, rest, s[1..], s[0]);
        assert Embeds(Shifted(idx), Filter(s, keep), s);
      }
    }
  }

  /** A subsequence of a subsequence is a subsequence. */
  lemma SubsequenceTransitive<T>(a: seq<T>, b: seq<T>, c: seq<T>)
    requires IsSubsequence(a, b) && IsSubsequence(b, c)
    ensures IsSubsequence(a, c)
  {
    var ab :| Embeds(ab, a, b);
    var bc :| Embeds(bc, b, c);
    var ac := seq(|ab|, k requires 0 <= k < |ab| => bc[ab[k]]);
    assert Embeds(ac, a, c);
  }

  /** `s.find(p)`: the first element satisfying `p`, if any. */
  function Find<T(==)>(s: seq<T>, p: T -> bool): (r: Option<T>)
    ensures r.None? <==> forall k :: 0 <= k < |s| ==> !p(s[k])
    ensures r.Some? ==> exists k :: 0 <= k < |s| && s[k] == r.value && p(s[k]) &&
                                  forall k' :: 0 <= k' < k ==> !p(s[k'])
  {
    if s == [] then None
    else if p(s[0]) then Some(s[0])
    else
      var r := Find(s[1..], p);
      assert forall k :: 1 <= k < |s| ==> s[k] == s[1..][k - 1];
      if r.Some? then
        var k :| 0 <= k < |s[1..]| && s[1..][k] == r.value && p(s[1..][k]) &&
                 forall k' :: 0 <= k' < k ==> !p(s[1..][k']);
        assert s[k + 1] == r.value;
        r
      else r
  }
}
