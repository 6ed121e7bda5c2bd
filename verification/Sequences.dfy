/** Sums and index selections over sequences, shared by every component. */
module Sequences {

  function Min(a: int, b: int): int {
    if a <= b then a else b
  }

  function Max(a: int, b: int): int {
    if a >= b then a else b
  }

  /** The sum of the first `k` elements. */
  function Top(s: seq<int>, k: nat): int
    requires k <= |s|
  {
    if k == 0 then 0 else Top(s, k - 1) + s[k - 1]
  }

  /** The sum of the elements from position `i` on. */
  function Suffix(s: seq<int>, i: nat): int
    requires i <= |s|
    decreases |s| - i
  {
    if i == |s| then 0 else s[i] + Suffix(s, i + 1)
  }

  function Sum(s: seq<int>): int {
    Top(s, |s|)
  }

  ghost predicate Positive(s: seq<int>) {
    forall i :: 0 <= i < |s| ==> s[i] > 0
  }

  ghost predicate NonNegative(s: seq<int>) {
    forall i :: 0 <= i < |s| ==> s[i] >= 0
  }

  ghost predicate Descending(s: seq<int>) {
    forall i, j :: 0 <= i < j < |s| ==> s[i] >= s[j]
  }

  /** `q` names positions below `n`, each larger than the one before. */
  ghost predicate Ascending(q: seq<nat>, n: nat) {
    && (forall i :: 0 <= i < |q| ==> q[i] < n)
    && (forall i, j :: 0 <= i < j < |q| ==> q[i] < q[j])
  }

  predicate Within(q: seq<nat>, n: nat) {
    forall i :: 0 <= i < |q| ==> q[i] < n
  }

  ghost function Elements(q: seq<nat>): set<nat> {
    set x | x in q
  }

  /** The elements of `g` named by `q`, in the order of `q`. */
  function At<T>(g: seq<T>, q: seq<nat>): (r: seq<T>)
    requires Within(q, |g|)
    ensures |r| == |q|
    ensures forall i :: 0 <= i < |q| ==> r[i] == g[q[i]]
  {
    seq(|q|, i requires 0 <= i < |q| => g[q[i]])
  }

  function SumAt(g: seq<int>, q: seq<nat>): int
    requires Within(q, |g|)
  {
    if q == [] then 0 else SumAt(g, q[..|q| - 1]) + g[q[|q| - 1]]
  }

  lemma TopPlusSuffix(s: seq<int>, i: nat)
    requires i <= |s|
    ensures Top(s, i) + Suffix(s, i) == Sum(s)
    decreases |s| - i
  {
  }

  lemma TopMonotone(s: seq<int>, j: nat, k: nat)
    requires NonNegative(s)
    requires j <= k <= |s|
    ensures Top(s, j) <= Top(s, k)
    decreases k
  {
  }

  lemma TopOfPrefix(s: seq<int>, t: seq<int>, k: nat)
    requires k <= |s| && k <= |t|
    requires forall i :: 0 <= i < k ==> s[i] == t[i]
    ensures Top(s, k) == Top(t, k)
  {
  }

  lemma SumAppend(s: seq<int>, x: int)
    ensures Sum(s + [x]) == Sum(s) + x
  {
    TopOfPrefix(s, s + [x], |s|);
  }

  lemma SumAtAppend(g: seq<int>, q: seq<nat>, i: nat)
    requires Within(q, |g|) && i < |g|
    ensures Within(q + [i], |g|)
    ensures SumAt(g, q + [i]) == SumAt(g, q) + g[i]
  {
    assert (q + [i])[..|q|] == q;
  }

  lemma {:induction false} SumAtIsSum(g: seq<int>, q: seq<nat>)
    requires Within(q, |g|)
    ensures SumAt(g, q) == Sum(At(g, q))
  {
    if q != [] {
      var k := |q| - 1;
      SumAtIsSum(g, q[..k]);
      assert At(g, q) == At(g, q[..k]) + [g[q[k]]];
      SumAppend(At(g, q[..k]), g[q[k]]);
    }
  }

  lemma SuffixNonNegative(s: seq<int>, i: nat)
    requires NonNegative(s) && i <= |s|
    ensures Suffix(s, i) >= 0
    decreases |s| - i
  {
  }

  /** Positions chosen after `pick`, all at or past `i`, add at most the whole suffix. */
  lemma {:induction false} ExtensionBound(s: seq<int>, pick: seq<nat>, q: seq<nat>, i: nat)
    requires NonNegative(s)
    requires Ascending(q, |s|)
    requires pick <= q
    requires i <= |s|
    requires |q| > |pick| ==> q[|pick|] >= i
    ensures SumAt(s, pick) <= SumAt(s, q) <= SumAt(s, pick) + Suffix(s, i)
    decreases |s| - i
  {
    if |q| == |pick| {
      assert q == pick;
      SuffixNonNegative(s, i);
    } else if q[|pick|] == i {
      var pick' := pick + [i];
      assert pick' <= q;
      SumAtAppend(s, pick, i);
      ExtensionBound(s, pick', q, i + 1);
    } else {
      ExtensionBound(s, pick, q, i + 1);
    }
  }

  /** A strict extension of `pick` weighs strictly more when every element is positive. */
  lemma StrictExtension(s: seq<int>, pick: seq<nat>, q: seq<nat>)
    requires Positive(s)
    requires Ascending(q, |s|)
    requires pick < q
    ensures Within(pick, |s|)
    ensures SumAt(s, pick) < SumAt(s, q)
  {
    var i := q[|pick|];
    assert pick + [i] <= q;
    SumAtAppend(s, pick, i);
    ExtensionBound(s, pick + [i], q, i + 1);
  }

  /** Of all ascending picks of `|q|` positions, the first ones weigh most in a descending list. */
  lemma {:induction false} TopIsLargest(s: seq<int>, q: seq<nat>)
    requires Descending(s)
    requires Ascending(q, |s|)
    ensures |q| <= |s|
    ensures SumAt(s, q) <= Top(s, |q|)
    ensures q != [] ==> q[|q| - 1] >= |q| - 1
  {
    if q != [] {
      var k := |q| - 1;
      TopIsLargest(s, q[..k]);
      assert k > 0 ==> q[..k][k - 1] == q[k - 1] < q[k];
      assert q[k] >= k;
    }
  }

  function Iota(n: nat): (r: seq<nat>)
    ensures |r| == n && forall i :: 0 <= i < n ==> r[i] == i
  {
    seq(n, i => i)
  }

  lemma {:induction false} SumAtIota(s: seq<int>, k: nat)
    requires k <= |s|
    ensures SumAt(s, Iota(k)) == Top(s, k)
  {
    if k > 0 {
      SumAtIota(s, k - 1);
      assert Iota(k)[..k - 1] == Iota(k - 1);
    }
  }
}
