/**
 The floor-aware YED coin selector: the mutable depth-first `Walk`, the staged selector built on
 it (EXACT, SINGLE, GREEDY, SEARCH, BURN) and `NearestWorkable`. Amounts are cents, coins are
 named by their index in the caller's list.
 */
module CoinSelect {
  import opened Wrappers
  import opened Sequences
  import opened Ranking
  import opened WalkSpec

  datatype Stage = NoStage | ExactStage | SingleStage | GreedyStage | SearchStage | BurnStage

  datatype Selection = Selection(
    ok: bool,
    insufficient: bool,
    tooManyInputs: bool,
    stage: Stage,
    inputs: seq<nat>,
    selected: int,
    change: int,
    extraBurn: int)

  datatype Alternatives = Alternatives(below: Option<int>, above: Option<int>)

  const SEARCH_BUDGET: int := 200_000

  const NO_SELECTION: Selection := Selection(false, false, false, NoStage, [], 0, 0, 0)

  // ---------------------------------------------------------------- rankings

  function DescendingKeys(coins: seq<int>): seq<Key> {
    seq(|coins|, i requires 0 <= i < |coins| => [-coins[i]])
  }

  function AscendingKeys(coins: seq<int>): seq<Key> {
    seq(|coins|, i requires 0 <= i < |coins| => [coins[i]])
  }

  /** Descending by cents, ties by index. */
  function RankDescending(coins: seq<int>): (r: seq<nat>)
    ensures |r| == |coins| && Within(r, |coins|)
  {
    Rank(DescendingKeys(coins))
  }

  /** Ascending by cents, ties by index. */
  function RankAscending(coins: seq<int>): (r: seq<nat>)
    ensures |r| == |coins| && Within(r, |coins|)
  {
    Rank(AscendingKeys(coins))
  }

  /** An index list in ascending order. */
  function Sorted(s: seq<nat>): (r: seq<nat>)
    ensures |r| == |s|
    ensures forall n :: Within(s, n) ==> Within(r, n)
  {
    At(s, Rank(seq(|s|, i requires 0 <= i < |s| => [s[i]])))
  }

  /** The sum of the `cap` largest coins. */
  function Reachable(coins: seq<int>, cap: nat): int {
    var vals := At(coins, RankDescending(coins));
    Top(vals, if cap < |vals| then cap else |vals|)
  }

  function PositiveTotal(coins: seq<int>): int {
    if coins == [] then 0
    else PositiveTotal(coins[..|coins| - 1]) + Max(0, coins[|coins| - 1])
  }

  // ---------------------------------------------------------------- the walk

  /** The coins behind picked rank positions, ascending. */
  function Named(order: seq<nat>, pick: seq<nat>): (r: seq<nat>)
    requires Within(pick, |order|)
    ensures |r| == |pick|
    ensures forall n :: Within(order, n) ==> Within(r, n)
  {
    Sorted(At(order, pick))
  }

  class Walk {
    const coins: seq<int>
    const order: seq<nat>
    const suffix: seq<int>
    const target: int
    const minOutput: int
    const maxInputs: nat
    const goal: Goal
    var budget: int
    var found: bool
    var bestSum: int
    var bestPick: seq<nat>
    var pick: seq<nat>

    ghost predicate Valid()
      reads this
    {
      && Within(order, |coins|)
      && |suffix| == |order| + 1
      && (forall i :: 0 <= i <= |order| ==> suffix[i] == Suffix(At(coins, order), i))
      && Within(bestPick, |order|)
      && Within(pick, |order|)
    }

    ghost function Spec(): Params
      requires Within(order, |coins|)
    {
      Params(At(coins, order), target, minOutput, maxInputs, goal)
    }

    ghost function Current(): State
      reads this
    {
      State(budget, found, bestSum, bestPick)
    }

    constructor (coins: seq<int>, order: seq<nat>, target: int, minOutput: int, maxInputs: nat,
                 goal: Goal, budget: int)
      requires Within(order, |coins|)
      ensures Valid()
      ensures this.coins == coins && this.order == order
      ensures Spec() == Params(At(coins, order), target, minOutput, maxInputs, goal)
      ensures Current() == State(budget, false, 0, []) && pick == []
    {
      var sums := seq(|order| + 1, _ => 0);
      for i := |order| downto 0
        invariant |sums| == |order| + 1
        invariant forall j :: i <= j <= |order| ==> sums[j] == Suffix(At(coins, order), j)
      {
        sums := sums[i := sums[i + 1] + coins[order[i]]];
      }
      this.coins, this.order, this.suffix := coins, order, sums;
      this.target, this.minOutput, this.maxInputs := target, minOutput, maxInputs;
      this.goal, this.budget := goal, budget;
      this.found, this.bestSum, this.bestPick, this.pick := false, 0, [], [];
    }

    predicate IsBetter(sum: int, count: nat)
      reads this
    {
      if !found then true
      else
        match goal
        case Exact => count < |bestPick|
        case ValidChange => sum < bestSum || (sum == bestSum && count < |bestPick|)
        case Overshoot => sum < bestSum || (sum == bestSum && count < |bestPick|)
        case Above => sum < bestSum
        case Below => sum > bestSum
    }

    method RecordPick(sum: int)
      requires Valid()
      modifies this`found, this`bestSum, this`bestPick
      ensures Valid()
      ensures Current() == Record(Spec(), old(Current()), sum, pick)
    {
      if !IsBetter(sum, |pick|) {
        return;
      }
      found, bestSum, bestPick := true, sum, pick;
    }

    predicate IsDone()
      reads this
    {
      && found
      && (|| (goal == Exact && |bestPick| == 1)
          || ((goal == ValidChange || goal == Overshoot) && bestSum == target))
    }

    /** Push position `i`, record the pick when it meets the goal, and say whether to go deeper. */
    method Judge(i: nat, sum: int) returns (deeper: bool)
      requires Valid() && i < |order|
      modifies this`pick, this`found, this`bestSum, this`bestPick
      ensures Valid() && pick == old(pick) + [i]
      ensures Current() == Judged(Spec(), i, sum, old(pick), old(Current()))
      ensures deeper == (|pick| < maxInputs && !Stops(Spec(), sum + Spec().vals[i]))
    {
      var next := sum + coins[order[i]];
      pick := pick + [i];
      deeper := |pick| < maxInputs;
      match goal {
        case Exact =>
          if next == target {
            RecordPick(next);
            deeper := false;
          } else if next > target {
            deeper := false;
          }
        case ValidChange =>
          if next == target || next >= target + minOutput {
            RecordPick(next);
            deeper := false;
          }
        case Overshoot =>
          if next >= target {
            RecordPick(next);
            deeper := false;
          }
        case Above =>
          if next > target {
            RecordPick(next);
            deeper := false;
          }
        case Below =>
          if next < target {
            RecordPick(next);
          } else {
            deeper := false;
          }
      }
    }

    /** One call of the depth-first search below the node `pick`, which weighs `sum`. */
    method Descend(pos: nat, sum: int)
      requires Valid() && pos <= |order|
      modifies this
      ensures Valid() && pick == old(pick)
      ensures Current() == Enter(Spec(), pos, sum, pick, old(Current()))
      decreases |order| - pos
    {
      if budget <= 0 || IsDone() {
        return;
      }
      budget := budget - 1;
      ghost var start := Current();
      for i := pos to |order|
        invariant Valid() && pick == old(pick)
        invariant Loop(Spec(), i, sum, pick, Current()) == Loop(Spec(), pos, sum, pick, start)
      {
        if budget <= 0 || IsDone() {
          return;
        }
        if goal != Below && sum + suffix[i] < target {
          return;
        }
        var deeper := Judge(i, sum);
        if deeper {
          Descend(i + 1, sum + coins[order[i]]);
        }
        pick := pick[..|pick| - 1];
      }
    }

    /** The coin indexes of the best pick, ascending. */
    function Result(): (r: seq<nat>)
      requires Valid()
      reads this
      ensures Within(r, |coins|)
    {
      Named(order, bestPick)
    }
  }

  // ---------------------------------------------------------------- the selector, as a function

  function Make(stage: Stage, coins: seq<int>, inputs: seq<nat>, target: int, extraBurn: int): Selection
    requires Within(inputs, |coins|)
  {
    var selected := SumAt(coins, inputs);
    Selection(true, false, false, stage, inputs, selected, selected - target - extraBurn, extraBurn)
  }

  /** A walk over the coins in rank order, and the coins it names. */
  function Search(coins: seq<int>, target: int, floor: int, cap: nat, goal: Goal): (s: State)
    ensures s.found ==> Within(s.bestPick, |coins|)
  {
    var p := Params(At(coins, RankDescending(coins)), target, floor, cap, goal);
    RunSound(p, SEARCH_BUDGET);
    Run(p, SEARCH_BUDGET)
  }

  function Found(coins: seq<int>, s: State): (r: seq<nat>)
    requires Within(s.bestPick, |coins|)
    ensures Within(r, |coins|)
  {
    Named(RankDescending(coins), s.bestPick)
  }

  /** The first coin in ascending rank order, from rank `k` on, that is worth at least `least`. */
  function FirstSingle(coins: seq<int>, asc: seq<nat>, least: int, k: nat): (r: Option<nat>)
    requires Within(asc, |coins|) && k <= |asc|
    ensures r.Some? ==> r.value < |coins| && coins[r.value] >= least
    decreases |asc| - k
  {
    if k == |asc| then None
    else if coins[asc[k]] >= least then Some(asc[k])
    else FirstSingle(coins, asc, least, k + 1)
  }

  /** Accumulate coins in rank order from rank `k` until the change is 0 or clears the floor. */
  function Accumulate(
      coins: seq<int>, asc: seq<nat>, target: int, floor: int, cap: nat,
      k: nat, pick: seq<nat>, sum: int): (r: Option<seq<nat>>)
    requires Within(asc, |coins|) && k <= |asc| && Within(pick, |coins|)
    ensures r.Some? ==> Within(r.value, |coins|)
    decreases |asc| - k
  {
    if k == |asc| then None
    else if coins[asc[k]] <= 0 then Accumulate(coins, asc, target, floor, cap, k + 1, pick, sum)
    else if |pick| == cap then None
    else
      var pick', sum' := pick + [asc[k]], sum + coins[asc[k]];
      if sum' >= target && (sum' == target || sum' - target >= floor) then Some(pick')
      else Accumulate(coins, asc, target, floor, cap, k + 1, pick', sum')
  }

  /** The two stages after GREEDY: SEARCH, then BURN when it is allowed. */
  function SelectLast(coins: seq<int>, target: int, floor: int, cap: nat, allowBurn: bool): Selection {
    var v := Search(coins, target, floor, cap, ValidChange);
    if v.found then Make(SearchStage, coins, Found(coins, v), target, 0)
    else if allowBurn then
      var o := Search(coins, target, floor, cap, Overshoot);
      if o.found && 0 < o.bestSum - target < floor
      then Make(BurnStage, coins, Found(coins, o), target, o.bestSum - target)
      else NO_SELECTION
    else NO_SELECTION
  }

  /** GREEDY, then the last two stages. */
  function SelectMany(coins: seq<int>, target: int, floor: int, cap: nat, allowBurn: bool): Selection {
    var many := Accumulate(coins, RankAscending(coins), target, floor, cap, 0, [], 0);
    if many.Some? then Make(GreedyStage, coins, Sorted(many.value), target, 0)
    else SelectLast(coins, target, floor, cap, allowBurn)
  }

  /** The stages after EXACT: SINGLE, GREEDY, then the last two. */
  function SelectWithChange(coins: seq<int>, target: int, floor: int, cap: nat, allowBurn: bool): Selection {
    var asc := RankAscending(coins);
    var one := FirstSingle(coins, asc, target + floor, 0);
    if one.Some? then Make(SingleStage, coins, [one.value], target, 0)
    else SelectMany(coins, target, floor, cap, allowBurn)
  }

  function Select(coins: seq<int>, target: int, floor: int, cap: nat, allowBurn: bool): Selection {
    if target < 0 then NO_SELECTION
    else if target == 0 then NO_SELECTION.(ok := true, stage := ExactStage)
    else if PositiveTotal(coins) < target then NO_SELECTION.(insufficient := true)
    else if Reachable(coins, cap) < target then NO_SELECTION.(tooManyInputs := true)
    else
      var e := Search(coins, target, floor, cap, Exact);
      if e.found then Make(ExactStage, coins, Found(coins, e), target, 0)
      else SelectWithChange(coins, target, floor, cap, allowBurn)
  }

  function Nearest(coins: seq<int>, target: int, floor: int, cap: nat): Alternatives {
    var reach := Reachable(coins, cap);
    if reach <= 0 then Alternatives(None, None)
    else
      var a := Search(coins, target, floor, cap, Above);
      var above := if reach > target && (!a.found || reach < a.bestSum) then reach
                   else if a.found then a.bestSum else 0;
      var b := Search(coins, target, floor, cap, Below);
      var below := if b.found && b.bestSum > reach - floor then b.bestSum else reach - floor;
      Alternatives(
        if below >= floor && below < target then Some(below) else None,
        if above > target then Some(above) else None)
  }

  // ---------------------------------------------------------------- the selector, as it runs

  method RunWalk(coins: seq<int>, desc: seq<nat>, target: int, minOutput: int, maxInputs: nat, goal: Goal)
    returns (w: Walk)
    requires desc == RankDescending(coins)
    ensures fresh(w) && w.Valid()
    ensures w.coins == coins && w.order == desc
    ensures w.Current() == Search(coins, target, minOutput, maxInputs, goal)
  {
    w := new Walk(coins, desc, target, minOutput, maxInputs, goal, SEARCH_BUDGET);
    w.Descend(0, 0);
  }

  method Total(coins: seq<int>) returns (total: int)
    ensures total == PositiveTotal(coins)
  {
    total := 0;
    for i := 0 to |coins|
      invariant total == PositiveTotal(coins[..i])
    {
      assert coins[..i + 1][..i] == coins[..i];
      if coins[i] > 0 {
        total := total + coins[i];
      }
    }
    assert coins[..|coins|] == coins;
  }

  method OneCoin(coins: seq<int>, asc: seq<nat>, least: int) returns (r: Option<nat>)
    requires Within(asc, |coins|)
    ensures r == FirstSingle(coins, asc, least, 0)
  {
    for k := 0 to |asc|
      invariant FirstSingle(coins, asc, least, k) == FirstSingle(coins, asc, least, 0)
    {
      if coins[asc[k]] >= least {
        return Some(asc[k]);
      }
    }
    return None;
  }

  method SmallestFirst(coins: seq<int>, asc: seq<nat>, target: int, minOutput: int, maxInputs: nat)
    returns (r: Option<seq<nat>>)
    requires Within(asc, |coins|)
    ensures r == Accumulate(coins, asc, target, minOutput, maxInputs, 0, [], 0)
  {
    var pick, sum, k := [], 0, 0;
    while k < |asc|
      invariant k <= |asc| && Within(pick, |coins|)
      invariant Accumulate(coins, asc, target, minOutput, maxInputs, k, pick, sum)
             == Accumulate(coins, asc, target, minOutput, maxInputs, 0, [], 0)
    {
      var i := asc[k];
      if coins[i] <= 0 {
        k := k + 1;
        continue;
      }
      if |pick| == maxInputs {
        return None;
      }
      pick, sum, k := pick + [i], sum + coins[i], k + 1;
      if sum < target {
        continue;
      }
      var change := sum - target;
      if change == 0 || change >= minOutput {
        return Some(pick);
      }
    }
    return None;
  }

  method LastStages(coins: seq<int>, desc: seq<nat>, target: int, minOutput: int, maxInputs: nat, allowBurn: bool)
    returns (r: Selection)
    requires desc == RankDescending(coins)
    ensures r == SelectLast(coins, target, minOutput, maxInputs, allowBurn)
  {
    var v := RunWalk(coins, desc, target, minOutput, maxInputs, ValidChange);
    if v.found {
      return Make(SearchStage, coins, v.Result(), target, 0);
    }
    if allowBurn {
      var o := RunWalk(coins, desc, target, minOutput, maxInputs, Overshoot);
      if o.found {
        var extra := o.bestSum - target;
        if extra > 0 && extra < minOutput {
          return Make(BurnStage, coins, o.Result(), target, extra);
        }
      }
    }
    return NO_SELECTION;
  }

  method ManyCoins(
      coins: seq<int>, desc: seq<nat>, asc: seq<nat>, target: int, minOutput: int, maxInputs: nat, allowBurn: bool)
    returns (r: Selection)
    requires desc == RankDescending(coins) && asc == RankAscending(coins)
    ensures r == SelectMany(coins, target, minOutput, maxInputs, allowBurn)
  {
    var many := SmallestFirst(coins, asc, target, minOutput, maxInputs);
    if many.Some? {
      return Make(GreedyStage, coins, Sorted(many.value), target, 0);
    }
    r := LastStages(coins, desc, target, minOutput, maxInputs, allowBurn);
  }

  method LaterStages(coins: seq<int>, desc: seq<nat>, target: int, minOutput: int, maxInputs: nat, allowBurn: bool)
    returns (r: Selection)
    requires desc == RankDescending(coins)
    ensures r == SelectWithChange(coins, target, minOutput, maxInputs, allowBurn)
  {
    var asc := RankAscending(coins);
    var one := OneCoin(coins, asc, target + minOutput);
    if one.Some? {
      r := Make(SingleStage, coins, [one.value], target, 0);
      assert r == SelectWithChange(coins, target, minOutput, maxInputs, allowBurn);
      return;
    }
    assert SelectWithChange(coins, target, minOutput, maxInputs, allowBurn)
        == SelectMany(coins, target, minOutput, maxInputs, allowBurn);
    r := ManyCoins(coins, desc, asc, target, minOutput, maxInputs, allowBurn);
  }

  method SelectFloorAware(coins: seq<int>, target: int, minOutput: int, maxInputs: nat, allowSubDollarBurn: bool)
    returns (r: Selection)
    ensures r == Select(coins, target, minOutput, maxInputs, allowSubDollarBurn)
  {
    if target < 0 {
      return NO_SELECTION;
    }
    if target == 0 {
      return NO_SELECTION.(ok := true, stage := ExactStage);
    }
    var total := Total(coins);
    if total < target {
      return NO_SELECTION.(insufficient := true);
    }
    var desc := RankDescending(coins);
    if Reachable(coins, maxInputs) < target {
      return NO_SELECTION.(tooManyInputs := true);
    }
    var e := RunWalk(coins, desc, target, minOutput, maxInputs, Exact);
    if e.found {
      return Make(ExactStage, coins, e.Result(), target, 0);
    }
    r := LaterStages(coins, desc, target, minOutput, maxInputs, allowSubDollarBurn);
  }

  method NearestWorkable(coins: seq<int>, target: int, minOutput: int, maxInputs: nat)
    returns (alt: Alternatives)
    ensures alt == Nearest(coins, target, minOutput, maxInputs)
  {
    alt := Alternatives(None, None);
    var desc := RankDescending(coins);
    var reach := Reachable(coins, maxInputs);
    if reach <= 0 {
      return;
    }
    var a := RunWalk(coins, desc, target, minOutput, maxInputs, Above);
    var above := if a.found then a.bestSum else 0;
    if reach > target && (!a.found || reach < above) {
      above := reach;
    }
    if above > target {
      alt := alt.(above := Some(above));
    }
    var below := reach - minOutput;
    var b := RunWalk(coins, desc, target, minOutput, maxInputs, Below);
    if b.found && b.bestSum > below {
      below := b.bestSum;
    }
    if below >= minOutput && below < target {
      alt := alt.(below := Some(below));
    }
  }
}
