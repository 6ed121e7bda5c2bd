/** What the staged selector guarantees, for every wallet, target, floor and input cap. */
module SelectTheorems {
  import opened Wrappers
  import opened Sequences
  import opened Ranking
  import opened WalkSpec
  import opened WalkTheorems
  import opened CoinSelect
  import opened Choices

  /** What the selector documents of its callers: coins and floor are at least one cent. */
  ghost predicate Wallet(coins: seq<int>, floor: int) {
    Positive(coins) && floor >= 1
  }

  /** The budget lets a walk reach the bottom of its first path. */
  ghost predicate Deep(coins: seq<int>, cap: nat) {
    |coins| < SEARCH_BUDGET || cap < SEARCH_BUDGET
  }

  /** An allowed choice of coins worth exactly `amount`. */
  ghost predicate Pays(coins: seq<int>, cap: nat, q: seq<nat>, amount: int) {
    Ascending(q, |coins|) && |q| <= cap && SumAt(coins, q) == amount
  }

  ghost predicate NoChangeOrFloor(change: int, floor: int) {
    change == 0 || change >= floor
  }

  ghost function Goals(coins: seq<int>, target: int, floor: int, cap: nat, goal: Goal): Params {
    Params(Ranked(coins), target, floor, cap, goal)
  }

  lemma {:induction false} ReachNeedsCap(coins: seq<int>, cap: nat)
    requires Reachable(coins, cap) > 0
    ensures cap >= 1 && |coins| >= 1
  {
  }

  /** What a walk that found something names. */
  lemma {:induction false} SearchNames(coins: seq<int>, target: int, floor: int, cap: nat, goal: Goal)
    requires Search(coins, target, floor, cap, goal).found && cap >= 1
    ensures var s := Search(coins, target, floor, cap, goal);
            && Within(s.bestPick, |coins|)
            && Pays(coins, cap, Found(coins, s), s.bestSum)
            && |Found(coins, s)| == |s.bestPick|
            && Hits(Goals(coins, target, floor, cap, goal), s.bestSum)
  {
    var s := Search(coins, target, floor, cap, goal);
    RunSound(Goals(coins, target, floor, cap, goal), SEARCH_BUDGET);
    PickToChoice(coins, s.bestPick);
  }

  // ---------------------------------------------------------------- the single-coin stage

  lemma {:induction false} SingleFrom(coins: seq<int>, asc: seq<nat>, least: int, k: nat, j: nat)
    requires Within(asc, |coins|) && k <= j < |asc| && coins[asc[j]] >= least
    ensures var r := FirstSingle(coins, asc, least, k);
            r.Some? && exists i :: k <= i <= j && r.value == asc[i]
    decreases |asc| - k
  {
    if coins[asc[k]] < least {
      SingleFrom(coins, asc, least, k + 1, j);
    }
  }

  /** SINGLE takes the smallest coin worth at least `least`, and fails only when there is none. */
  lemma {:induction false} SingleIsSmallest(coins: seq<int>, least: int, j: nat)
    requires j < |coins| && coins[j] >= least
    ensures var r := FirstSingle(coins, RankAscending(coins), least, 0);
            r.Some? && least <= coins[r.value] <= coins[j]
  {
    var keys, asc := AscendingKeys(coins), RankAscending(coins);
    RankIsSort(keys);
    assert j in asc;
    var k :| 0 <= k < |asc| && asc[k] == j;
    SingleFrom(coins, asc, least, 0, k);
    var i :| 0 <= i <= k && FirstSingle(coins, asc, least, 0).value == asc[i];
    assert i < k ==> Before(keys, asc[i], asc[k]);
  }

  // ---------------------------------------------------------------- the greedy stage

  /** The first `m` coins of `asc` reach the target with change 0 or at least the floor. */
  ghost predicate Good(coins: seq<int>, asc: seq<nat>, target: int, floor: int, m: nat)
    requires Within(asc, |coins|) && m <= |asc|
  {
    SumAt(coins, asc[..m]) >= target && NoChangeOrFloor(SumAt(coins, asc[..m]) - target, floor)
  }

  lemma {:induction false} GreedyStep(coins: seq<int>, asc: seq<nat>, target: int, floor: int, cap: nat, k: nat)
    requires Positive(coins) && Within(asc, |coins|)
    requires k < |asc| && k < cap
    ensures Accumulate(coins, asc, target, floor, cap, k, asc[..k], SumAt(coins, asc[..k]))
         == if Good(coins, asc, target, floor, k + 1) then Some(asc[..k + 1])
            else Accumulate(coins, asc, target, floor, cap, k + 1, asc[..k + 1], SumAt(coins, asc[..k + 1]))
  {
    assert asc[..k + 1] == asc[..k] + [asc[k]];
    SumAtAppend(coins, asc[..k], asc[k]);
  }

  /** GREEDY returns the shortest smallest-first prefix of at most `cap` coins whose change is 0 or
      clears the floor, and fails only when there is none. */
  lemma {:induction false} GreedyPrefix(
      coins: seq<int>, asc: seq<nat>, target: int, floor: int, cap: nat, k: nat)
    requires Positive(coins) && Within(asc, |coins|)
    requires k <= |asc| && k <= cap
    ensures match Accumulate(coins, asc, target, floor, cap, k, asc[..k], SumAt(coins, asc[..k]))
            case Some(pick) =>
              && k < |pick| <= |asc| && |pick| <= cap && pick == asc[..|pick|]
              && Good(coins, asc, target, floor, |pick|)
              && forall m :: k < m < |pick| ==> !Good(coins, asc, target, floor, m)
            case None => forall m :: k < m <= |asc| && m <= cap ==> !Good(coins, asc, target, floor, m)
    decreases |asc| - k
  {
    if k < |asc| && k < cap {
      GreedyStep(coins, asc, target, floor, cap, k);
      if !Good(coins, asc, target, floor, k + 1) {
        GreedyPrefix(coins, asc, target, floor, cap, k + 1);
      }
    }
  }

  lemma {:induction false} GreedyNames(coins: seq<int>, target: int, floor: int, cap: nat)
    requires Wallet(coins, floor)
    ensures var r := Accumulate(coins, RankAscending(coins), target, floor, cap, 0, [], 0);
            if r.Some? then
              && 0 < |r.value|
              && Pays(coins, cap, Sorted(r.value), SumAt(coins, r.value))
              && SumAt(coins, r.value) >= target
              && NoChangeOrFloor(SumAt(coins, r.value) - target, floor)
            else
              (0 < |coins| <= cap && Sum(coins) >= target
               ==> !NoChangeOrFloor(Sum(coins) - target, floor))
  {
    var asc := RankAscending(coins);
    GreedyPrefix(coins, asc, target, floor, cap, 0);
    RankIsSort(AscendingKeys(coins));
    var r := Accumulate(coins, asc, target, floor, cap, 0, [], 0);
    assert asc[..0] == [];
    if r.Some? {
      SortedAscending(r.value, |coins|);
      SortedSum(coins, r.value);
    } else {
      assert asc[..|asc|] == asc;
      SumAtRank(AscendingKeys(coins), coins);
      assert 0 < |asc| <= cap ==> !Good(coins, asc, target, floor, |asc|);
    }
  }

  // ---------------------------------------------------------------- always balanced

  /** What every accepted selection satisfies, whatever the stage. */
  ghost predicate Balanced(coins: seq<int>, target: int, floor: int, cap: nat, allowBurn: bool, r: Selection) {
    && r.ok && !r.insufficient && !r.tooManyInputs
    && Pays(coins, cap, r.inputs, r.selected)
    && r.selected == target + r.change + r.extraBurn
    && NoChangeOrFloor(r.change, floor)
    && 0 <= r.extraBurn < floor
    && (r.extraBurn > 0 <==> r.stage == BurnStage)
    && (r.stage == BurnStage ==> allowBurn)
    && (r.stage == ExactStage || r.stage == BurnStage ==> r.change == 0)
    && (r.stage == SingleStage ==> |r.inputs| == 1 && r.change >= floor)
    && r.stage != NoStage
  }

  /** A refusal names no coin and says nothing but why. */
  ghost predicate Refused(r: Selection) {
    r == NO_SELECTION || r == NO_SELECTION.(insufficient := true) || r == NO_SELECTION.(tooManyInputs := true)
  }

  lemma {:induction false} LastBalanced(coins: seq<int>, target: int, floor: int, cap: nat, allowBurn: bool)
    requires Wallet(coins, floor) && cap >= 1
    ensures var r := SelectLast(coins, target, floor, cap, allowBurn);
            r == NO_SELECTION || Balanced(coins, target, floor, cap, allowBurn, r)
  {
    if Search(coins, target, floor, cap, ValidChange).found {
      SearchNames(coins, target, floor, cap, ValidChange);
    } else if Search(coins, target, floor, cap, Overshoot).found {
      SearchNames(coins, target, floor, cap, Overshoot);
    }
  }

  lemma {:induction false} GreedyBalanced(coins: seq<int>, target: int, floor: int, cap: nat, allowBurn: bool)
    requires Wallet(coins, floor)
    requires Accumulate(coins, RankAscending(coins), target, floor, cap, 0, [], 0).Some?
    ensures Balanced(coins, target, floor, cap, allowBurn, SelectMany(coins, target, floor, cap, allowBurn))
  {
    var pick := Accumulate(coins, RankAscending(coins), target, floor, cap, 0, [], 0).value;
    GreedyNames(coins, target, floor, cap);
    assert SelectMany(coins, target, floor, cap, allowBurn) == Make(GreedyStage, coins, Sorted(pick), target, 0);
  }

  lemma {:induction false} ManyBalanced(coins: seq<int>, target: int, floor: int, cap: nat, allowBurn: bool)
    requires Wallet(coins, floor) && cap >= 1
    ensures var r := SelectMany(coins, target, floor, cap, allowBurn);
            r == NO_SELECTION || Balanced(coins, target, floor, cap, allowBurn, r)
  {
    if Accumulate(coins, RankAscending(coins), target, floor, cap, 0, [], 0).Some? {
      GreedyBalanced(coins, target, floor, cap, allowBurn);
    } else {
      LastBalanced(coins, target, floor, cap, allowBurn);
    }
  }

  lemma {:induction false} ChangeBalanced(coins: seq<int>, target: int, floor: int, cap: nat, allowBurn: bool)
    requires Wallet(coins, floor) && cap >= 1
    ensures var r := SelectWithChange(coins, target, floor, cap, allowBurn);
            r == NO_SELECTION || Balanced(coins, target, floor, cap, allowBurn, r)
  {
    var one := FirstSingle(coins, RankAscending(coins), target + floor, 0);
    if one.Some? {
      SumAtAppend(coins, [], one.value);
      assert [] + [one.value] == [one.value];
    }
    ManyBalanced(coins, target, floor, cap, allowBurn);
  }

  /** Every selection of every stage balances: ascending distinct coins, at most `cap` of them,
      worth target + change + burn, change 0 or at least the floor, a burn below the floor and only
      in stage BURN. A refusal names no coin. */
  lemma {:induction false} SelectBalanced(coins: seq<int>, target: int, floor: int, cap: nat, allowBurn: bool)
    requires Wallet(coins, floor)
    ensures var r := Select(coins, target, floor, cap, allowBurn);
            if r.ok then Balanced(coins, target, floor, cap, allowBurn, r) else Refused(r)
  {
    if target > 0 && PositiveTotal(coins) >= target && Reachable(coins, cap) >= target {
      ReachNeedsCap(coins, cap);
      var e := Search(coins, target, floor, cap, Exact);
      if e.found {
        SearchNames(coins, target, floor, cap, Exact);
      } else {
        ChangeBalanced(coins, target, floor, cap, allowBurn);
      }
    }
  }

  // ---------------------------------------------------------------- facts about the walks

  lemma {:induction false} ReachBelowTotal(coins: seq<int>, cap: nat)
    requires Positive(coins)
    ensures 0 <= Reachable(coins, cap) <= PositiveTotal(coins)
    ensures |coins| <= cap ==> Reachable(coins, cap) == Sum(coins)
  {
    RankedFacts(coins);
    PositiveTotalIsSum(coins);
    var vals := Ranked(coins);
    TopMonotone(vals, 0, if cap < |vals| then cap else |vals|);
    TopMonotone(vals, if cap < |vals| then cap else |vals|, |vals|);
  }

  /** The walk's first path spends the `cap` largest coins, so an upward walk finds a result no
      worse than all of them together, whatever the budget. */
  lemma {:induction false} SearchFindsReach(coins: seq<int>, target: int, floor: int, cap: nat, goal: Goal)
    requires Wallet(coins, floor) && Deep(coins, cap) && Upward(goal)
    requires Reachable(coins, cap) > 0
    requires Hits(Goals(coins, target, floor, cap, goal), Reachable(coins, cap))
    ensures Search(coins, target, floor, cap, goal).found
    ensures Search(coins, target, floor, cap, goal).bestSum <= Reachable(coins, cap)
  {
    ReachNeedsCap(coins, cap);
    RankedFacts(coins);
    var m := if cap < |coins| then cap else |coins|;
    RunFirstDescent(Goals(coins, target, floor, cap, goal), SEARCH_BUDGET, m);
  }

  /** After EXACT failed, no later walk lands on the target. */
  lemma {:induction false} SearchMisses(coins: seq<int>, target: int, floor: int, cap: nat, goal: Goal)
    requires Wallet(coins, floor) && (goal == ValidChange || goal == Overshoot)
    requires !Search(coins, target, floor, cap, Exact).found
    requires Search(coins, target, floor, cap, goal).found
    ensures Search(coins, target, floor, cap, goal).bestSum > target
  {
    RankedFacts(coins);
    var e, g := Goals(coins, target, floor, cap, Exact), Goals(coins, target, floor, cap, goal);
    RunSound(g, SEARCH_BUDGET);
    if Run(g, SEARCH_BUDGET).bestSum == target {
      ExactCovers(e, g, SEARCH_BUDGET);
    }
  }

  /** With budget left, a walk beats every allowed choice of coins that meets its goal. */
  lemma {:induction false} SearchBest(coins: seq<int>, target: int, floor: int, cap: nat, goal: Goal, q: seq<nat>)
    requires Wallet(coins, floor)
    requires Search(coins, target, floor, cap, goal).budget > 0
    requires Ascending(q, |coins|) && 1 <= |q| <= cap
    requires Hits(Goals(coins, target, floor, cap, goal), SumAt(coins, q))
    ensures Beats(Goals(coins, target, floor, cap, goal), Search(coins, target, floor, cap, goal), SumAt(coins, q), |q|)
  {
    var p := Goals(coins, target, floor, cap, goal);
    RankedFacts(coins);
    var pick := ChoiceToPick(coins, q);
    assert Solution(p, pick);
    RunOptimal(p, SEARCH_BUDGET);
  }

  /** An allowed nonempty choice of coins whose sum meets the goal. */
  ghost predicate Meets(coins: seq<int>, target: int, floor: int, cap: nat, goal: Goal, q: seq<nat>) {
    Ascending(q, |coins|) && 1 <= |q| <= cap && Hits(Goals(coins, target, floor, cap, goal), SumAt(coins, q))
  }

  lemma {:induction false} FoundMeets(coins: seq<int>, target: int, floor: int, cap: nat, goal: Goal)
    requires cap >= 1 && Search(coins, target, floor, cap, goal).found
    ensures exists q :: Meets(coins, target, floor, cap, goal, q)
  {
    SearchNames(coins, target, floor, cap, goal);
    RunSound(Goals(coins, target, floor, cap, goal), SEARCH_BUDGET);
    var q := Found(coins, Search(coins, target, floor, cap, goal));
    assert Meets(coins, target, floor, cap, goal, q);
  }

  /** Optimality in the caller's own terms: with budget left, a walk finds a result exactly when some
      choice of 1 to `cap` coins meets its goal, and no such choice is better. */
  lemma {:induction false} SearchIsOptimal(coins: seq<int>, target: int, floor: int, cap: nat, goal: Goal)
    requires Wallet(coins, floor) && cap >= 1
    requires Search(coins, target, floor, cap, goal).budget > 0
    ensures var s, p := Search(coins, target, floor, cap, goal), Goals(coins, target, floor, cap, goal);
            && (s.found <==> exists q :: Meets(coins, target, floor, cap, goal, q))
            && forall q :: Meets(coins, target, floor, cap, goal, q) ==> Beats(p, s, SumAt(coins, q), |q|)
  {
    var s, p := Search(coins, target, floor, cap, goal), Goals(coins, target, floor, cap, goal);
    forall q | Meets(coins, target, floor, cap, goal, q)
      ensures Beats(p, s, SumAt(coins, q), |q|)
    {
      SearchBest(coins, target, floor, cap, goal, q);
    }
    if s.found {
      FoundMeets(coins, target, floor, cap, goal);
    }
  }

  lemma {:induction false} SmallWallet(coins: seq<int>, target: int, floor: int, cap: nat, goal: Goal)
    requires |coins| <= 17
    ensures Search(coins, target, floor, cap, goal).budget > 0
  {
    RunCalls(Goals(coins, target, floor, cap, goal), SEARCH_BUDGET);
  }

  // ---------------------------------------------------------------- acceptance

  /** Past the two refusals, the stages run in order. */
  lemma {:induction false} Staged(coins: seq<int>, target: int, floor: int, cap: nat, allowBurn: bool)
    requires Wallet(coins, floor) && 0 < target <= Reachable(coins, cap)
    ensures var e := Search(coins, target, floor, cap, Exact);
            var r := Select(coins, target, floor, cap, allowBurn);
            if e.found then r == Make(ExactStage, coins, Found(coins, e), target, 0)
            else r == SelectWithChange(coins, target, floor, cap, allowBurn)
  {
    ReachBelowTotal(coins, cap);
  }

  /** What a refusal says: the coins fall short, or they reach only beyond the cap, or (neither flag) the
      change would lie in the forbidden band. */
  lemma {:induction false} RefusalFlags(coins: seq<int>, target: int, floor: int, cap: nat, allowBurn: bool)
    requires Wallet(coins, floor)
    ensures var r := Select(coins, target, floor, cap, allowBurn);
            && (r.insufficient <==> Sum(coins) < target)
            && (r.tooManyInputs <==> Reachable(coins, cap) < target <= Sum(coins))
            && (!r.ok && !r.insufficient && !r.tooManyInputs ==> target < 0 || target <= Reachable(coins, cap))
            && (target < 0 ==> !r.ok)
  {
    PositiveTotalIsSum(coins);
    ReachBelowTotal(coins, cap);
    if 0 < target <= Reachable(coins, cap) {
      Staged(coins, target, floor, cap, allowBurn);
      SelectBalanced(coins, target, floor, cap, allowBurn);
      ReachNeedsCap(coins, cap);
      ChangeBalanced(coins, target, floor, cap, allowBurn);
    }
  }

  /** No false refusal: if the largest `cap` coins exceed the target by the floor, the selector
      finds a selection that burns nothing, even when every walk exhausts its budget. */
  lemma {:induction false} NoFalseRefusal(coins: seq<int>, target: int, floor: int, cap: nat, allowBurn: bool)
    requires Wallet(coins, floor) && Deep(coins, cap)
    requires 0 < target <= Reachable(coins, cap) - floor
    ensures Select(coins, target, floor, cap, allowBurn).ok
    ensures Select(coins, target, floor, cap, allowBurn).stage != BurnStage
  {
    Staged(coins, target, floor, cap, allowBurn);
    SearchFindsReach(coins, target, floor, cap, ValidChange);
  }

  lemma {:induction false} BurnFits(coins: seq<int>, target: int, floor: int, cap: nat)
    requires Wallet(coins, floor) && Deep(coins, cap)
    requires 0 < target <= Reachable(coins, cap)
    requires !Search(coins, target, floor, cap, Exact).found
    requires !Search(coins, target, floor, cap, ValidChange).found
    ensures SelectLast(coins, target, floor, cap, true).ok
  {
    var reach := Reachable(coins, cap);
    if reach >= target + floor {
      SearchFindsReach(coins, target, floor, cap, ValidChange);
      assert false;
    }
    SearchFindsReach(coins, target, floor, cap, Overshoot);
    SearchMisses(coins, target, floor, cap, Overshoot);
  }

  /** A REDEEM or CLAIM is never stranded: when a sub-floor burn is allowed, a target is accepted
      exactly when the `cap` largest coins reach it, whatever the budget; and a burn happens only
      when those coins do not exceed the target by the floor. */
  lemma {:induction false} NeverStranded(coins: seq<int>, target: int, floor: int, cap: nat)
    requires Wallet(coins, floor) && Deep(coins, cap) && target >= 0
    ensures Select(coins, target, floor, cap, true).ok <==> target <= Reachable(coins, cap)
    ensures Select(coins, target, floor, cap, true).stage == BurnStage ==> Reachable(coins, cap) < target + floor
  {
    ReachBelowTotal(coins, cap);
    if 0 < target <= Reachable(coins, cap) {
      Staged(coins, target, floor, cap, true);
      if !Search(coins, target, floor, cap, Exact).found && !Search(coins, target, floor, cap, ValidChange).found {
        BurnFits(coins, target, floor, cap);
      }
      if target <= Reachable(coins, cap) - floor {
        NoFalseRefusal(coins, target, floor, cap, true);
      }
    }
  }

  /** The stages before BURN do not look at whether a burn is allowed. */
  lemma {:induction false} BurnOnlyAdds(coins: seq<int>, target: int, floor: int, cap: nat)
    requires Wallet(coins, floor)
    requires Select(coins, target, floor, cap, true).stage != BurnStage
    ensures Select(coins, target, floor, cap, false) == Select(coins, target, floor, cap, true)
  {
  }

  /** A burn happens when and only when the coins reach the target and nothing else selects. */
  lemma {:induction false} BurnIffNothingElse(coins: seq<int>, target: int, floor: int, cap: nat)
    requires Wallet(coins, floor) && Deep(coins, cap)
    ensures Select(coins, target, floor, cap, true).stage == BurnStage
       <==> 0 < target <= Reachable(coins, cap) && !Select(coins, target, floor, cap, false).ok
  {
    if Select(coins, target, floor, cap, true).stage == BurnStage {
      Staged(coins, target, floor, cap, true);
      Staged(coins, target, floor, cap, false);
    } else {
      BurnOnlyAdds(coins, target, floor, cap);
      if target > 0 {
        NeverStranded(coins, target, floor, cap);
      }
    }
  }

  /** SEARCH and BURN come from the last two stages, after all the others failed. */
  lemma {:induction false} LateStage(coins: seq<int>, target: int, floor: int, cap: nat, allowBurn: bool)
    requires Select(coins, target, floor, cap, allowBurn).stage in {SearchStage, BurnStage}
    ensures 0 < target <= Reachable(coins, cap)
    ensures !Search(coins, target, floor, cap, Exact).found
    ensures Accumulate(coins, RankAscending(coins), target, floor, cap, 0, [], 0) == None
    ensures Select(coins, target, floor, cap, allowBurn) == SelectLast(coins, target, floor, cap, allowBurn)
  {
    var r := Select(coins, target, floor, cap, allowBurn);
    assert r == SelectWithChange(coins, target, floor, cap, allowBurn);
    assert r == SelectMany(coins, target, floor, cap, allowBurn);
  }

  /** Stage SEARCH appears only in a wallet of more than `cap` coins, and always leaves change. */
  lemma {:induction false} SearchOnlyAboveCap(coins: seq<int>, target: int, floor: int, cap: nat, allowBurn: bool)
    requires Wallet(coins, floor)
    requires Select(coins, target, floor, cap, allowBurn).stage == SearchStage
    ensures |coins| > cap
    ensures Select(coins, target, floor, cap, allowBurn).change >= floor
  {
    LateStage(coins, target, floor, cap, allowBurn);
    SearchMisses(coins, target, floor, cap, ValidChange);
    ReachNeedsCap(coins, cap);
    SearchNames(coins, target, floor, cap, ValidChange);
    SelectBalanced(coins, target, floor, cap, allowBurn);
    if |coins| <= cap {
      GreedyNames(coins, target, floor, cap);
      ReachBelowTotal(coins, cap);
      ReachBounds(coins, cap, Found(coins, Search(coins, target, floor, cap, ValidChange)));
    }
  }

  /** The amounts a TRANSFER can pay: worth a choice of coins exactly, or leaving the floor. */
  ghost predicate Workable(coins: seq<int>, target: int, floor: int, cap: nat) {
    target >= 0 && ((exists q :: Pays(coins, cap, q, target)) || target + floor <= Reachable(coins, cap))
  }

  lemma {:induction false} PaidIsAccepted(coins: seq<int>, target: int, floor: int, cap: nat, q: seq<nat>)
    requires Wallet(coins, floor) && target > 0 && Pays(coins, cap, q, target)
    requires Search(coins, target, floor, cap, Exact).budget > 0
    ensures Select(coins, target, floor, cap, false).ok
  {
    ReachBounds(coins, cap, q);
    SearchBest(coins, target, floor, cap, Exact, q);
    Staged(coins, target, floor, cap, false);
  }

  /** Every accepted TRANSFER is workable; a workable one is refused only when its exact choice of
      coins lies beyond the EXACT walk's budget. */
  lemma {:induction false} TransferAccepted(coins: seq<int>, target: int, floor: int, cap: nat)
    requires Wallet(coins, floor) && Deep(coins, cap)
    ensures Select(coins, target, floor, cap, false).ok ==> Workable(coins, target, floor, cap)
    ensures Workable(coins, target, floor, cap) && Search(coins, target, floor, cap, Exact).budget > 0
        ==> Select(coins, target, floor, cap, false).ok
  {
    var r := Select(coins, target, floor, cap, false);
    if r.ok {
      SelectBalanced(coins, target, floor, cap, false);
      ReachBounds(coins, cap, r.inputs);
    }
    if Workable(coins, target, floor, cap) && Search(coins, target, floor, cap, Exact).budget > 0 && target > 0 {
      if target + floor <= Reachable(coins, cap) {
        NoFalseRefusal(coins, target, floor, cap, false);
      } else {
        var q :| Pays(coins, cap, q, target);
        PaidIsAccepted(coins, target, floor, cap, q);
      }
    }
  }

  lemma {:induction false} SmallTransferAccepted(coins: seq<int>, target: int, floor: int, cap: nat)
    requires Wallet(coins, floor) && |coins| <= 17
    ensures Select(coins, target, floor, cap, false).ok <==> Workable(coins, target, floor, cap)
  {
    SmallWallet(coins, target, floor, cap, Exact);
    TransferAccepted(coins, target, floor, cap);
  }

  // ---------------------------------------------------------------- the best selection

  lemma {:induction false} ExactStageFacts(coins: seq<int>, target: int, floor: int, cap: nat, allowBurn: bool)
    requires Wallet(coins, floor) && target > 0
    requires Select(coins, target, floor, cap, allowBurn).stage == ExactStage
    ensures Search(coins, target, floor, cap, Exact).found
    ensures |Select(coins, target, floor, cap, allowBurn).inputs| == |Search(coins, target, floor, cap, Exact).bestPick|
  {
  }

  /** With budget left in its walk, EXACT uses the fewest coins of all allowed choices that pay. */
  lemma {:induction false} ExactIsShortest(
      coins: seq<int>, target: int, floor: int, cap: nat, allowBurn: bool, q: seq<nat>)
    requires Wallet(coins, floor) && target > 0
    requires Select(coins, target, floor, cap, allowBurn).stage == ExactStage
    requires Search(coins, target, floor, cap, Exact).budget > 0
    requires Pays(coins, cap, q, target)
    ensures |Select(coins, target, floor, cap, allowBurn).inputs| <= |q|
  {
    ExactStageFacts(coins, target, floor, cap, allowBurn);
    SearchBest(coins, target, floor, cap, Exact, q);
  }

  /** With budget left in its walk, SEARCH leaves the least change of all allowed choices. */
  lemma {:induction false} SearchIsCheapest(
      coins: seq<int>, target: int, floor: int, cap: nat, allowBurn: bool, q: seq<nat>)
    requires Wallet(coins, floor)
    requires Select(coins, target, floor, cap, allowBurn).stage == SearchStage
    requires Search(coins, target, floor, cap, ValidChange).budget > 0
    requires Ascending(q, |coins|) && |q| <= cap && SumAt(coins, q) >= target + floor
    ensures Select(coins, target, floor, cap, allowBurn).selected <= SumAt(coins, q)
  {
    LateStage(coins, target, floor, cap, allowBurn);
    ReachNeedsCap(coins, cap);
    SearchNames(coins, target, floor, cap, ValidChange);
    SearchBest(coins, target, floor, cap, ValidChange, q);
  }

  /** With budget left in its walk, BURN burns the least of all allowed choices. */
  lemma {:induction false} BurnIsCheapest(
      coins: seq<int>, target: int, floor: int, cap: nat, allowBurn: bool, q: seq<nat>)
    requires Wallet(coins, floor)
    requires Select(coins, target, floor, cap, allowBurn).stage == BurnStage
    requires Search(coins, target, floor, cap, Overshoot).budget > 0
    requires Ascending(q, |coins|) && |q| <= cap && SumAt(coins, q) >= target
    ensures Select(coins, target, floor, cap, allowBurn).selected <= SumAt(coins, q)
  {
    LateStage(coins, target, floor, cap, allowBurn);
    ReachNeedsCap(coins, cap);
    SearchNames(coins, target, floor, cap, Overshoot);
    SearchBest(coins, target, floor, cap, Overshoot, q);
  }
}
