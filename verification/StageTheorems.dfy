/** Which stage answers, and with which coins: the decision table of the selector, for every wallet. */
module StageTheorems {
  import opened Wrappers
  import opened Sequences
  import opened Ranking
  import opened WalkSpec
  import opened CoinSelect
  import opened Choices
  import opened SelectTheorems

  // ---------------------------------------------------------------- the two rankings

  /** Ascending rank lists every coin once, by cents and then by index. */
  lemma {:induction false} RankAscendingIs(coins: seq<int>, i: nat, j: nat)
    requires i < j < |coins|
    ensures var r := RankAscending(coins);
            coins[r[i]] < coins[r[j]] || (coins[r[i]] == coins[r[j]] && r[i] < r[j])
    ensures i in RankAscending(coins) && j in RankAscending(coins)
  {
    var keys := AscendingKeys(coins);
    RankIsSort(keys);
    assert Before(keys, Rank(keys)[i], Rank(keys)[j]);
  }

  /** Descending rank lists every coin once, by cents downwards and then by index. */
  lemma {:induction false} RankDescendingIs(coins: seq<int>, i: nat, j: nat)
    requires i < j < |coins|
    ensures var r := RankDescending(coins);
            coins[r[i]] > coins[r[j]] || (coins[r[i]] == coins[r[j]] && r[i] < r[j])
    ensures i in RankDescending(coins) && j in RankDescending(coins)
  {
    var keys := DescendingKeys(coins);
    RankIsSort(keys);
    assert Before(keys, Rank(keys)[i], Rank(keys)[j]);
  }

  // ---------------------------------------------------------------- EXACT

  /** Past the two refusals, EXACT answers if and only if its walk found something. */
  lemma {:induction false} ExactIff(coins: seq<int>, target: int, floor: int, cap: nat, allowBurn: bool)
    requires Wallet(coins, floor) && target > 0
    ensures var r, e := Select(coins, target, floor, cap, allowBurn), Search(coins, target, floor, cap, Exact);
            && (r.stage == ExactStage <==> target <= Reachable(coins, cap) && e.found)
            && (r.stage == ExactStage ==> r.inputs == Found(coins, e))
  {
    if target <= Reachable(coins, cap) {
      Staged(coins, target, floor, cap, allowBurn);
    }
  }

  /** The coins reach the target and EXACT found nothing. */
  ghost predicate NeedsChange(coins: seq<int>, target: int, floor: int, cap: nat) {
    && Wallet(coins, floor) && 0 < target <= Reachable(coins, cap)
    && !Search(coins, target, floor, cap, Exact).found
  }

  // ---------------------------------------------------------------- SINGLE

  /** Coin `i` comes no later than coin `j`: it is smaller, or as large and listed no later. */
  ghost predicate NoLater(coins: seq<int>, i: nat, j: nat)
    requires i < |coins| && j < |coins|
  {
    coins[i] < coins[j] || (coins[i] == coins[j] && i <= j)
  }

  lemma {:induction false} SingleIsFirst(coins: seq<int>, least: int, j: nat)
    requires j < |coins| && coins[j] >= least
    ensures var r := FirstSingle(coins, RankAscending(coins), least, 0);
            r.Some? && coins[r.value] >= least && NoLater(coins, r.value, j)
  {
    var asc := RankAscending(coins);
    RankIsSort(AscendingKeys(coins));
    assert j in asc;
    var k :| 0 <= k < |asc| && asc[k] == j;
    SingleFrom(coins, asc, least, 0, k);
    var i :| 0 <= i <= k && FirstSingle(coins, asc, least, 0).value == asc[i];
    if i < k {
      RankAscendingIs(coins, i, k);
    }
  }

  /** If any coin clears the target by the floor, SINGLE answers with the smallest of them, the first
      listed of equals. */
  lemma {:induction false} SingleAnswers(coins: seq<int>, target: int, floor: int, cap: nat, allowBurn: bool, j: nat)
    requires NeedsChange(coins, target, floor, cap)
    requires j < |coins| && coins[j] >= target + floor
    ensures var r := Select(coins, target, floor, cap, allowBurn);
            && r.stage == SingleStage && |r.inputs| == 1 && r.inputs[0] < |coins|
            && coins[r.inputs[0]] >= target + floor && NoLater(coins, r.inputs[0], j)
  {
    Staged(coins, target, floor, cap, allowBurn);
    SingleIsFirst(coins, target + floor, j);
  }

  // ---------------------------------------------------------------- GREEDY

  /** No coin clears the target by the floor. */
  ghost predicate NoSingle(coins: seq<int>, target: int, floor: int) {
    forall j :: 0 <= j < |coins| ==> coins[j] < target + floor
  }

  /** The `m` smallest coins are within the cap and pay with change 0 or at least the floor. */
  ghost predicate GoodPrefix(coins: seq<int>, target: int, floor: int, cap: nat, m: nat) {
    0 < m <= |coins| && m <= cap && Good(coins, RankAscending(coins), target, floor, m)
  }

  lemma {:induction false} PastSingle(coins: seq<int>, target: int, floor: int, cap: nat, allowBurn: bool)
    requires NeedsChange(coins, target, floor, cap) && NoSingle(coins, target, floor)
    ensures Select(coins, target, floor, cap, allowBurn) == SelectMany(coins, target, floor, cap, allowBurn)
  {
    Staged(coins, target, floor, cap, allowBurn);
    assert FirstSingle(coins, RankAscending(coins), target + floor, 0).None?;
  }

  lemma {:induction false} SortedElements(q: seq<nat>)
    ensures Elements(Sorted(q)) == Elements(q)
  {
    var keys: seq<Key> := seq(|q|, i requires 0 <= i < |q| => [q[i]]);
    forall x: nat
      ensures x in Sorted(q) <==> x in q
    {
      SortedMembers(keys, q, x);
    }
  }

  /** Otherwise GREEDY answers if and only if some number of the smallest coins will do, and it takes the
      least such number. */
  lemma {:induction false} GreedyAnswers(coins: seq<int>, target: int, floor: int, cap: nat, allowBurn: bool)
    requires NeedsChange(coins, target, floor, cap) && NoSingle(coins, target, floor)
    ensures var r := Select(coins, target, floor, cap, allowBurn);
            && (r.stage == GreedyStage <==> exists m :: GoodPrefix(coins, target, floor, cap, m))
            && (r.stage == GreedyStage ==>
                  && GoodPrefix(coins, target, floor, cap, |r.inputs|)
                  && (forall m :: GoodPrefix(coins, target, floor, cap, m) ==> |r.inputs| <= m)
                  && Elements(r.inputs) == Elements(RankAscending(coins)[..|r.inputs|]))
  {
    var asc := RankAscending(coins);
    PastSingle(coins, target, floor, cap, allowBurn);
    GreedyPrefix(coins, asc, target, floor, cap, 0);
    assert asc[..0] == [];
    var many := Accumulate(coins, asc, target, floor, cap, 0, [], 0);
    if many.Some? {
      SortedElements(many.value);
      assert GoodPrefix(coins, target, floor, cap, |many.value|);
    }
  }

  // ---------------------------------------------------------------- SEARCH and BURN

  /** After all of these SEARCH answers if and only if its walk found something, and otherwise BURN if
      and only if it is allowed and its walk found less than the floor to burn. */
  lemma {:induction false} LastAnswers(coins: seq<int>, target: int, floor: int, cap: nat, allowBurn: bool)
    requires NeedsChange(coins, target, floor, cap) && NoSingle(coins, target, floor)
    requires forall m :: !GoodPrefix(coins, target, floor, cap, m)
    ensures var r := Select(coins, target, floor, cap, allowBurn);
            var v, o := Search(coins, target, floor, cap, ValidChange), Search(coins, target, floor, cap, Overshoot);
            && (r.stage == SearchStage <==> v.found)
            && (r.stage == SearchStage ==> r.inputs == Found(coins, v))
            && (r.stage == BurnStage <==> !v.found && allowBurn && o.found && 0 < o.bestSum - target < floor)
            && (r.stage == BurnStage ==> r.inputs == Found(coins, o) && r.extraBurn == o.bestSum - target)
            && (r.stage in {SearchStage, BurnStage} || r == NO_SELECTION)
  {
    var asc := RankAscending(coins);
    PastSingle(coins, target, floor, cap, allowBurn);
    GreedyPrefix(coins, asc, target, floor, cap, 0);
    assert asc[..0] == [];
    var many := Accumulate(coins, asc, target, floor, cap, 0, [], 0);
    assert many.Some? ==> GoodPrefix(coins, target, floor, cap, |many.value|);
  }

  // ---------------------------------------------------------------- coins worth nothing

  /** The coins of `asc` that are worth something, in order. */
  function Worth(coins: seq<int>, asc: seq<nat>): (r: seq<nat>)
    requires Within(asc, |coins|)
    ensures Within(r, |coins|)
  {
    if asc == [] then []
    else if coins[asc[0]] > 0 then [asc[0]] + Worth(coins, asc[1..]) else Worth(coins, asc[1..])
  }

  lemma {:induction false} AccumulateFrom(
      coins: seq<int>, asc: seq<nat>, target: int, floor: int, cap: nat, k: nat, pick: seq<nat>, sum: int)
    requires Within(asc, |coins|) && k <= |asc| && Within(pick, |coins|)
    ensures Accumulate(coins, asc, target, floor, cap, k, pick, sum)
         == Accumulate(coins, asc[k..], target, floor, cap, 0, pick, sum)
    decreases |asc| - k
  {
    if k < |asc| {
      var rest := asc[k..];
      var pick', sum' := pick + [asc[k]], sum + coins[asc[k]];
      assert rest[1..] == asc[k + 1..];
      AccumulateFrom(coins, asc, target, floor, cap, k + 1, pick, sum);
      AccumulateFrom(coins, asc, target, floor, cap, k + 1, pick', sum');
      AccumulateFrom(coins, rest, target, floor, cap, 1, pick, sum);
      AccumulateFrom(coins, rest, target, floor, cap, 1, pick', sum');
    }
  }

  /** GREEDY passes over coins worth nothing: they neither count against the cap nor stop it. */
  lemma {:induction false} GreedySkips(
      coins: seq<int>, asc: seq<nat>, target: int, floor: int, cap: nat, pick: seq<nat>, sum: int)
    requires Within(asc, |coins|) && Within(pick, |coins|)
    ensures Accumulate(coins, asc, target, floor, cap, 0, pick, sum)
         == Accumulate(coins, Worth(coins, asc), target, floor, cap, 0, pick, sum)
    decreases |asc|
  {
    if asc != [] {
      var x, rest, w := asc[0], asc[1..], Worth(coins, asc);
      if coins[x] <= 0 {
        AccumulateFrom(coins, asc, target, floor, cap, 1, pick, sum);
        GreedySkips(coins, rest, target, floor, cap, pick, sum);
      } else {
        var pick', sum' := pick + [x], sum + coins[x];
        assert w[1..] == Worth(coins, rest);
        AccumulateFrom(coins, asc, target, floor, cap, 1, pick', sum');
        AccumulateFrom(coins, w, target, floor, cap, 1, pick', sum');
        GreedySkips(coins, rest, target, floor, cap, pick', sum');
      }
    }
  }

  lemma {:induction false} SumAtPrefix(g: seq<int>, k: nat, q: seq<nat>)
    requires k <= |g| && Within(q, k)
    ensures SumAt(g[..k], q) == SumAt(g, q)
  {
    if q != [] {
      SumAtPrefix(g, k, q[..|q| - 1]);
    }
  }

  /** The total the selector compares with the target is the most any choice of coins is worth, coins
      worth less than nothing included. */
  lemma {:induction false} TotalBounds(coins: seq<int>, q: seq<nat>)
    requires Ascending(q, |coins|)
    ensures SumAt(coins, q) <= PositiveTotal(coins)
  {
    if coins != [] {
      var k := |coins| - 1;
      if q != [] && q[|q| - 1] == k {
        TotalBounds(coins[..k], q[..|q| - 1]);
        SumAtPrefix(coins, k, q[..|q| - 1]);
      } else {
        assert q != [] ==> q[|q| - 1] < k;
        TotalBounds(coins[..k], q);
        SumAtPrefix(coins, k, q);
      }
    }
  }

  lemma {:induction false} AscendingAppend(q: seq<nat>, k: nat)
    requires Ascending(q, k)
    ensures Ascending(q, k + 1) && Ascending(q + [k], k + 1)
  {
  }

  lemma {:induction false} TotalAttained(coins: seq<int>) returns (q: seq<nat>)
    ensures Ascending(q, |coins|) && SumAt(coins, q) == PositiveTotal(coins)
    decreases |coins|
  {
    if coins == [] {
      q := [];
    } else {
      var k := |coins| - 1;
      var front := coins[..k];
      q := TotalAttained(front);
      SumAtPrefix(coins, k, q);
      AscendingAppend(q, k);
      assert PositiveTotal(coins) == PositiveTotal(front) + Max(0, coins[k]);
      if coins[k] > 0 {
        SumAtAppend(coins, q, k);
        q := q + [k];
      }
    }
  }
}
