/**
 The budgeted depth-first walk of the coin selector, as a function of the coin values in rank
 order. `Enter` is one call of the walk and `Loop` the rest of its loop from position `i`; both
 thread the mutable part of the walk (`budget`, the best pick so far) through the search.
 */
module WalkSpec {
  import opened Sequences

  datatype Goal = Exact | ValidChange | Overshoot | Above | Below

  datatype Params = Params(vals: seq<int>, target: int, floor: int, cap: nat, goal: Goal)

  datatype State = State(budget: int, found: bool, bestSum: int, bestPick: seq<nat>)

  /** The sums the goal accepts. */
  predicate Hits(p: Params, sum: int) {
    match p.goal
    case Exact => sum == p.target
    case ValidChange => sum == p.target || sum >= p.target + p.floor
    case Overshoot => sum >= p.target
    case Above => sum > p.target
    case Below => sum < p.target
  }

  /** The sums below which the walk does not go deeper. */
  predicate Stops(p: Params, sum: int) {
    match p.goal
    case Exact => sum >= p.target
    case Below => sum >= p.target
    case _ => Hits(p, sum)
  }

  predicate Better(p: Params, s: State, sum: int, count: nat) {
    !s.found ||
    match p.goal
    case Exact => count < |s.bestPick|
    case ValidChange => sum < s.bestSum || (sum == s.bestSum && count < |s.bestPick|)
    case Overshoot => sum < s.bestSum || (sum == s.bestSum && count < |s.bestPick|)
    case Above => sum < s.bestSum
    case Below => sum > s.bestSum
  }

  function Record(p: Params, s: State, sum: int, pick: seq<nat>): State {
    if Better(p, s, sum, |pick|) then State(s.budget, true, sum, pick) else s
  }

  predicate Done(p: Params, s: State) {
    && s.found
    && (|| (p.goal == Exact && |s.bestPick| == 1)
        || ((p.goal == ValidChange || p.goal == Overshoot) && s.bestSum == p.target))
  }

  predicate Halted(p: Params, s: State) {
    s.budget <= 0 || Done(p, s)
  }

  predicate Unreachable(p: Params, i: nat, sum: int)
    requires i <= |p.vals|
  {
    p.goal != Below && sum + Suffix(p.vals, i) < p.target
  }

  function Enter(p: Params, pos: nat, sum: int, pick: seq<nat>, s: State): State
    requires pos <= |p.vals|
    decreases |p.vals| - pos, 2
  {
    if Halted(p, s) then s else Loop(p, pos, sum, pick, s.(budget := s.budget - 1))
  }

  /** The state after position `i` was pushed and judged, before any deeper call. */
  function Judged(p: Params, i: nat, sum: int, pick: seq<nat>, s: State): State
    requires i < |p.vals|
  {
    var next := sum + p.vals[i];
    if Hits(p, next) then Record(p, s, next, pick + [i]) else s
  }

  /** The state after position `i` was tried, with everything below it. */
  function Tried(p: Params, i: nat, sum: int, pick: seq<nat>, s: State): State
    requires i < |p.vals|
    decreases |p.vals| - i, 0
  {
    var next := sum + p.vals[i];
    var s1 := Judged(p, i, sum, pick, s);
    if |pick| + 1 < p.cap && !Stops(p, next) then Enter(p, i + 1, next, pick + [i], s1) else s1
  }

  function Loop(p: Params, i: nat, sum: int, pick: seq<nat>, s: State): State
    requires i <= |p.vals|
    decreases |p.vals| - i, 1
  {
    if i == |p.vals| || Halted(p, s) || Unreachable(p, i, sum) then s
    else Loop(p, i + 1, sum, pick, Tried(p, i, sum, pick, s))
  }

  /** A whole walk from a fresh state. */
  function Run(p: Params, budget: int): State {
    Enter(p, 0, 0, [], State(budget, false, 0, []))
  }

  // ---------------------------------------------------------------- candidates and their order

  /** A nonempty choice of positions the walk may record (one coin is recorded at any cap). */
  ghost predicate Candidate(p: Params, q: seq<nat>) {
    Ascending(q, |p.vals|) && (|q| == 1 || 1 < |q| <= p.cap)
  }

  /** A candidate whose sum meets the goal. */
  ghost predicate Solution(p: Params, q: seq<nat>) {
    Candidate(p, q) && Hits(p, SumAt(p.vals, q))
  }

  /** The order in which a walk ranks (sum, count): fewest inputs for `Exact`; the least sum and
      then the fewest inputs for `ValidChange` and `Overshoot`, except that a sum equal to the
      target ends the walk at once; the nearest sum for `Above` and `Below`. */
  ghost predicate AsGood(p: Params, sum: int, count: nat, sum': int, count': nat) {
    match p.goal
    case Exact => count <= count'
    case ValidChange => sum < sum' || (sum == sum' && (count <= count' || sum == p.target))
    case Overshoot => sum < sum' || (sum == sum' && (count <= count' || sum == p.target))
    case Above => sum <= sum'
    case Below => sum >= sum'
  }

  ghost predicate Beats(p: Params, s: State, sum: int, count: nat) {
    s.found && AsGood(p, s.bestSum, |s.bestPick|, sum, count)
  }

  ghost predicate NoWorse(p: Params, s: State, s': State) {
    && s'.budget <= s.budget
    && (s.budget >= 0 ==> s'.budget >= 0)
    && (s.found ==> Beats(p, s', s.bestSum, |s.bestPick|))
  }

  ghost predicate Sound(p: Params, s: State) {
    s.found ==> Solution(p, s.bestPick) && SumAt(p.vals, s.bestPick) == s.bestSum
  }

  ghost predicate WellFormed(p: Params) {
    Positive(p.vals) && p.floor >= 1
  }

  /** `pick` is a node of the search tree, weighing `sum`, that may be extended from `i` on. */
  ghost predicate Node(p: Params, i: nat, sum: int, pick: seq<nat>) {
    && i <= |p.vals|
    && Ascending(pick, i)
    && sum == SumAt(p.vals, pick)
    && (pick == [] || |pick| < p.cap)
  }

  lemma NodeChild(p: Params, i: nat, sum: int, pick: seq<nat>)
    requires Node(p, i, sum, pick) && i < |p.vals|
    ensures Candidate(p, pick + [i])
    ensures SumAt(p.vals, pick + [i]) == sum + p.vals[i]
    ensures |pick| + 1 < p.cap ==> Node(p, i + 1, sum + p.vals[i], pick + [i])
    ensures Node(p, i + 1, sum, pick)
  {
    SumAtAppend(p.vals, pick, i);
  }

  // ---------------------------------------------------------------- what every step keeps

  lemma NoWorseTransitive(p: Params, a: State, b: State, c: State)
    requires NoWorse(p, a, b) && NoWorse(p, b, c)
    ensures NoWorse(p, a, c)
  {
  }

  lemma {:induction false} EnterKeeps(p: Params, pos: nat, sum: int, pick: seq<nat>, s: State)
    requires pos <= |p.vals|
    ensures NoWorse(p, s, Enter(p, pos, sum, pick, s))
    decreases |p.vals| - pos, 2
  {
    if !Halted(p, s) {
      LoopKeeps(p, pos, sum, pick, s.(budget := s.budget - 1));
    }
  }

  lemma {:induction false} TriedKeeps(p: Params, i: nat, sum: int, pick: seq<nat>, s: State)
    requires i < |p.vals|
    ensures NoWorse(p, s, Judged(p, i, sum, pick, s))
    ensures NoWorse(p, Judged(p, i, sum, pick, s), Tried(p, i, sum, pick, s))
    ensures NoWorse(p, s, Tried(p, i, sum, pick, s))
    decreases |p.vals| - i, 0
  {
    EnterKeeps(p, i + 1, sum + p.vals[i], pick + [i], Judged(p, i, sum, pick, s));
    NoWorseTransitive(p, s, Judged(p, i, sum, pick, s), Tried(p, i, sum, pick, s));
  }

  lemma {:induction false} LoopKeeps(p: Params, i: nat, sum: int, pick: seq<nat>, s: State)
    requires i <= |p.vals|
    ensures NoWorse(p, s, Loop(p, i, sum, pick, s))
    decreases |p.vals| - i, 1
  {
    if i == |p.vals| || Halted(p, s) || Unreachable(p, i, sum) {
    } else {
      var s' := Tried(p, i, sum, pick, s);
      TriedKeeps(p, i, sum, pick, s);
      LoopKeeps(p, i + 1, sum, pick, s');
      NoWorseTransitive(p, s, s', Loop(p, i + 1, sum, pick, s'));
    }
  }

  lemma {:induction false} EnterSound(p: Params, pos: nat, sum: int, pick: seq<nat>, s: State)
    requires Node(p, pos, sum, pick) && Sound(p, s)
    ensures Sound(p, Enter(p, pos, sum, pick, s))
    decreases |p.vals| - pos, 2
  {
    if !Halted(p, s) {
      LoopSound(p, pos, sum, pick, s.(budget := s.budget - 1));
    }
  }

  lemma {:induction false} LoopSound(p: Params, i: nat, sum: int, pick: seq<nat>, s: State)
    requires Node(p, i, sum, pick) && Sound(p, s)
    ensures Sound(p, Loop(p, i, sum, pick, s))
    decreases |p.vals| - i, 1
  {
    if i == |p.vals| || Halted(p, s) || Unreachable(p, i, sum) {
    } else {
      NodeChild(p, i, sum, pick);
      TriedSound(p, i, sum, pick, s);
      LoopSound(p, i + 1, sum, pick, Tried(p, i, sum, pick, s));
    }
  }

  lemma {:induction false} JudgedSound(p: Params, i: nat, sum: int, pick: seq<nat>, s: State)
    requires Node(p, i, sum, pick) && i < |p.vals| && Sound(p, s)
    ensures Sound(p, Judged(p, i, sum, pick, s))
  {
    NodeChild(p, i, sum, pick);
    var q := pick + [i];
    if Judged(p, i, sum, pick, s) != s {
      assert Judged(p, i, sum, pick, s) == State(s.budget, true, sum + p.vals[i], q);
    }
  }

  lemma {:induction false} TriedSound(p: Params, i: nat, sum: int, pick: seq<nat>, s: State)
    requires Node(p, i, sum, pick) && i < |p.vals| && Sound(p, s)
    ensures Sound(p, Tried(p, i, sum, pick, s))
    decreases |p.vals| - i, 0
  {
    var s1 := Judged(p, i, sum, pick, s);
    JudgedSound(p, i, sum, pick, s);
    if |pick| + 1 < p.cap && !Stops(p, sum + p.vals[i]) {
      NodeChild(p, i, sum, pick);
      EnterSound(p, i + 1, sum + p.vals[i], pick + [i], s1);
      assert Tried(p, i, sum, pick, s) == Enter(p, i + 1, sum + p.vals[i], pick + [i], s1);
    } else {
      assert Tried(p, i, sum, pick, s) == s1;
    }
  }

  /** Whatever a walk returns is an allowed choice of coins that meets the goal. */
  lemma RunSound(p: Params, budget: int)
    ensures Sound(p, Run(p, budget))
  {
    EnterSound(p, 0, 0, [], State(budget, false, 0, []));
  }
}
