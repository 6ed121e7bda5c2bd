/**
 A choice of coins is an ascending list of indexes. This module moves choices between the order
 the caller listed the coins in and rank order, keeping the number of coins and their sum.
 */
module Choices {
  import opened Sequences
  import opened Ranking
  import opened CoinSelect

  ghost predicate Distinct<T>(s: seq<T>) {
    forall i, j :: 0 <= i < j < |s| ==> s[i] != s[j]
  }

  /** `g` with everything outside `chosen` zeroed. */
  ghost function Masked(g: seq<int>, chosen: set<nat>): (r: seq<int>)
    ensures |r| == |g|
  {
    seq(|g|, i requires 0 <= i < |g| => if i in chosen then g[i] else 0)
  }

  lemma {:induction false} TopUpdate(s: seq<int>, x: nat, v: int, k: nat)
    requires x < |s| && k <= |s|
    ensures Top(s[x := v], k) == Top(s, k) + if x < k then v - s[x] else 0
  {
    if k > 0 {
      TopUpdate(s, x, v, k - 1);
    }
  }

  lemma ZeroSum(s: seq<int>, k: nat)
    requires k <= |s| && forall i :: 0 <= i < |s| ==> s[i] == 0
    ensures Top(s, k) == 0
  {
  }

  lemma {:induction false} MaskedOneMore(g: seq<int>, chosen: set<nat>, x: nat)
    requires x < |g|
    ensures Masked(g, chosen + {x}) == Masked(g, chosen)[x := g[x]]
  {
  }

  lemma {:induction false} MaskedSum(g: seq<int>, q: seq<nat>)
    requires Within(q, |g|) && Distinct(q)
    ensures Sum(Masked(g, Elements(q))) == SumAt(g, q)
  {
    if q == [] {
      assert Elements(q) == {};
      ZeroSum(Masked(g, {}), |g|);
    } else {
      var k := |q| - 1;
      var x, rest := q[k], q[..k];
      var masked := Masked(g, Elements(rest));
      MaskedSum(g, rest);
      assert q == rest + [x];
      assert Elements(q) == Elements(rest) + {x};
      MaskedOneMore(g, Elements(rest), x);
      assert masked[x] == 0;
      TopUpdate(masked, x, g[x], |g|);
    }
  }

  /** The ranks below `n` of the chosen coins. */
  ghost function Positions(order: seq<nat>, chosen: set<nat>, n: nat): (q: seq<nat>)
    requires n <= |order|
    ensures Ascending(q, n)
    ensures forall i :: 0 <= i < |q| ==> order[q[i]] in chosen
  {
    if n == 0 then []
    else Positions(order, chosen, n - 1) + if order[n - 1] in chosen then [n - 1] else []
  }

  lemma {:induction false} PositionsSum(order: seq<nat>, chosen: set<nat>, g: seq<int>, n: nat)
    requires n <= |order| && Within(order, |g|)
    ensures SumAt(At(g, order), Positions(order, chosen, n)) == SumAt(Masked(g, chosen), order[..n])
  {
    if n > 0 {
      var k, masked, vals := n - 1, Masked(g, chosen), At(g, order);
      var x, q := order[k], Positions(order, chosen, k);
      PositionsSum(order, chosen, g, k);
      assert order[..n] == order[..k] + [x];
      SumAtAppend(masked, order[..k], x);
      if x in chosen {
        assert Positions(order, chosen, n) == q + [k];
        assert vals[k] == g[x] == masked[x];
        SumAtAppend(vals, q, k);
      } else {
        assert Positions(order, chosen, n) == q;
        assert masked[x] == 0;
      }
    }
  }

  lemma RelabelSum(keys: seq<Key>, q: seq<nat>, g: seq<int>)
    requires |g| == |keys| && Ascending(q, |keys|)
    ensures SumAt(At(g, Rank(keys)), Positions(Rank(keys), Elements(q), |keys|)) == SumAt(g, q)
  {
    var order := Rank(keys);
    PositionsSum(order, Elements(q), g, |keys|);
    assert order[..|keys|] == order;
    SumAtRank(keys, Masked(g, Elements(q)));
    MaskedSum(g, q);
  }

  lemma {:induction false} SumOfOnes(g: seq<int>, q: seq<nat>)
    requires Within(q, |g|) && forall i :: 0 <= i < |g| ==> g[i] == 1
    ensures SumAt(g, q) == |q|
  {
    if q != [] {
      SumOfOnes(g, q[..|q| - 1]);
    }
  }

  /** Every choice of indexes has a choice of ranks with the same size and weight. */
  lemma Relabel(keys: seq<Key>, q: seq<nat>, g: seq<int>) returns (p: seq<nat>)
    requires |g| == |keys| && Ascending(q, |keys|)
    ensures Ascending(p, |keys|) && |p| == |q|
    ensures forall i :: 0 <= i < |p| ==> Rank(keys)[p[i]] in q
    ensures SumAt(At(g, Rank(keys)), p) == SumAt(g, q)
  {
    p := Positions(Rank(keys), Elements(q), |keys|);
    RelabelSum(keys, q, g);
    var ones := seq(|keys|, _ => 1);
    RelabelSum(keys, q, ones);
    SumOfOnes(ones, q);
    SumOfOnes(At(ones, Rank(keys)), p);
  }

  // ---------------------------------------------------------------- sorted index lists

  /** Sorting an index list by key keeps its members and orders their keys. */
  lemma {:induction false} SortedByKey(keys: seq<Key>, q: seq<nat>, i: nat, j: nat)
    requires |keys| == |q| && Distinct(q) && i < j < |q|
    ensures At(q, Rank(keys))[i] != At(q, Rank(keys))[j]
    ensures LexLe(keys[Rank(keys)[i]], keys[Rank(keys)[j]])
  {
    var s := Rank(keys);
    RankIsSort(keys);
    assert Before(keys, s[i], s[j]);
    assert s[i] != s[j];
  }

  lemma {:induction false} SortedMembers(keys: seq<Key>, q: seq<nat>, x: nat)
    requires |keys| == |q|
    ensures x in At(q, Rank(keys)) <==> x in q
  {
    var s, r := Rank(keys), At(q, Rank(keys));
    if x in q {
      RankIsSort(keys);
      var k :| 0 <= k < |q| && q[k] == x;
      assert k in s;
      var m :| 0 <= m < |s| && s[m] == k;
      assert r[m] == x;
    }
  }

  lemma SortedAscending(s: seq<nat>, n: nat)
    requires Distinct(s) && Within(s, n)
    ensures Ascending(Sorted(s), n)
  {
    var keys: seq<Key> := seq(|s|, i requires 0 <= i < |s| => [s[i]]);
    RankIsSort(keys);
    var r, t := Rank(keys), Sorted(s);
    forall i, j | 0 <= i < j < |t|
      ensures t[i] < t[j]
    {
      assert Before(keys, r[i], r[j]);
      assert t[i] == s[r[i]] && t[j] == s[r[j]];
    }
  }

  lemma {:induction false} SumAtAt(g: seq<int>, s: seq<nat>, r: seq<nat>)
    requires Within(s, |g|) && Within(r, |s|)
    ensures SumAt(g, At(s, r)) == SumAt(At(g, s), r)
  {
    if r != [] {
      var k := |r| - 1;
      SumAtAt(g, s, r[..k]);
      assert At(s, r) == At(s, r[..k]) + [s[r[k]]];
      SumAtAppend(g, At(s, r[..k]), s[r[k]]);
    }
  }

  lemma SortedSum(g: seq<int>, s: seq<nat>)
    requires Within(s, |g|)
    ensures SumAt(g, Sorted(s)) == SumAt(g, s)
  {
    var keys: seq<Key> := seq(|s|, i requires 0 <= i < |s| => [s[i]]);
    SumAtAt(g, s, Rank(keys));
    SumAtRank(keys, At(g, s));
    SumAtIsSum(g, s);
  }

  // ---------------------------------------------------------------- coins in rank order

  ghost function Ranked(coins: seq<int>): (vals: seq<int>)
    ensures |vals| == |coins|
  {
    At(coins, RankDescending(coins))
  }

  lemma RankedFacts(coins: seq<int>)
    ensures Descending(Ranked(coins))
    ensures Positive(coins) ==> Positive(Ranked(coins))
    ensures Sum(Ranked(coins)) == Sum(coins)
  {
    var keys, vals := DescendingKeys(coins), Ranked(coins);
    var r := RankDescending(coins);
    RankIsSort(keys);
    forall i, j | 0 <= i < j < |vals|
      ensures vals[i] >= vals[j]
    {
      assert Before(keys, r[i], r[j]);
    }
    SumAtRank(keys, coins);
    SumAtIsSum(coins, r);
  }

  lemma ChoiceToPick(coins: seq<int>, q: seq<nat>) returns (p: seq<nat>)
    requires Ascending(q, |coins|)
    ensures Ascending(p, |coins|) && |p| == |q|
    ensures SumAt(Ranked(coins), p) == SumAt(coins, q)
  {
    p := Relabel(DescendingKeys(coins), q, coins);
  }

  lemma PickToChoice(coins: seq<int>, p: seq<nat>)
    requires Ascending(p, |coins|)
    ensures Ascending(Named(RankDescending(coins), p), |coins|)
    ensures SumAt(coins, Named(RankDescending(coins), p)) == SumAt(Ranked(coins), p)
  {
    var order := RankDescending(coins);
    RankIsSort(DescendingKeys(coins));
    SortedAscending(At(order, p), |coins|);
    SortedSum(coins, At(order, p));
    SumAtAt(coins, order, p);
  }

  lemma {:induction false} PositiveTotalIsSum(coins: seq<int>)
    requires Positive(coins)
    ensures PositiveTotal(coins) == Sum(coins)
  {
    if coins != [] {
      var k := |coins| - 1;
      PositiveTotalIsSum(coins[..k]);
      assert coins == coins[..k] + [coins[k]];
      SumAppend(coins[..k], coins[k]);
    }
  }

  lemma ReachBounds(coins: seq<int>, cap: nat, q: seq<nat>)
    requires Positive(coins)
    requires Ascending(q, |coins|) && |q| <= cap
    ensures SumAt(coins, q) <= Reachable(coins, cap)
  {
    var vals := Ranked(coins);
    RankedFacts(coins);
    var p := ChoiceToPick(coins, q);
    TopIsLargest(vals, p);
    TopMonotone(vals, |p|, if cap < |vals| then cap else |vals|);
  }

  lemma ReachAttained(coins: seq<int>, cap: nat) returns (q: seq<nat>)
    requires Positive(coins)
    ensures Ascending(q, |coins|) && |q| <= cap
    ensures SumAt(coins, q) == Reachable(coins, cap)
  {
    var vals := Ranked(coins);
    var k := if cap < |vals| then cap else |vals|;
    SumAtIota(vals, k);
    PickToChoice(coins, Iota(k));
    q := Named(RankDescending(coins), Iota(k));
  }

  /** No choice of at most `cap` coins weighs more than what the selector calls reachable, and
      one choice weighs exactly that. */
  lemma ReachIsLargest(coins: seq<int>, cap: nat)
    requires Positive(coins)
    ensures forall q :: Ascending(q, |coins|) && |q| <= cap ==> SumAt(coins, q) <= Reachable(coins, cap)
    ensures exists q :: Ascending(q, |coins|) && |q| <= cap && SumAt(coins, q) == Reachable(coins, cap)
  {
    forall q | Ascending(q, |coins|) && |q| <= cap
      ensures SumAt(coins, q) <= Reachable(coins, cap)
    {
      ReachBounds(coins, cap, q);
    }
    var q := ReachAttained(coins, cap);
  }
}
