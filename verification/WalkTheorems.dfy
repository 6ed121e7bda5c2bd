/**
 What the budgeted walk guarantees: optimality whenever budget is left, a bound on the number of
 calls, and two facts that hold even when the budget runs out. The first is the first greedy
 descent; the second is the lock step between the `Exact` walk and the `ValidChange` and
 `Overshoot` walks over the same coins.
 */
module WalkTheorems {
  import opened Sequences
  import opened WalkSpec

  // ---------------------------------------------------------------- the order of visits

  /** The choices part at position `k`, where `a` takes the earlier coin. */
  ghost predicate PartsAt(a: seq<nat>, b: seq<nat>, k: nat) {
    k < |a| && k < |b| && a[..k] == b[..k] && a[k] < b[k]
  }

  /** The walk visits `a` before `b`: `b` extends it, or takes a later coin where they part. */
  ghost predicate Precedes(a: seq<nat>, b: seq<nat>) {
    a < b || exists k :: PartsAt(a, b, k)
  }

  /** Better, not just as good, in the order of `AsGood`. */
  ghost predicate Surpasses(p: Params, sum: int, count: nat, sum': int, count': nat) {
    match p.goal
    case Exact => count < count'
    case ValidChange => sum < sum' || (sum == sum' != p.target && count < count')
    case Overshoot => sum < sum' || (sum == sum' != p.target && count < count')
    case Above => sum < sum'
    case Below => sum > sum'
  }

  /** The best pick is left alone, or gives way to a better one. */
  ghost predicate Improves(p: Params, s: State, s': State) {
    s.found ==>
      && s'.found
      && (|| (s'.bestSum == s.bestSum && s'.bestPick == s.bestPick)
          || Surpasses(p, s'.bestSum, |s'.bestPick|, s.bestSum, |s.bestPick|))
  }

  lemma {:induction false} ImprovesTransitive(p: Params, a: State, b: State, c: State)
    requires Improves(p, a, b) && Improves(p, b, c)
    ensures Improves(p, a, c)
  {
  }

  lemma {:induction false} JudgedImproves(p: Params, i: nat, sum: int, pick: seq<nat>, s: State)
    requires i < |p.vals| && !Done(p, s)
    ensures Improves(p, s, Judged(p, i, sum, pick, s))
  {
  }

  lemma {:induction false} EnterImproves(p: Params, pos: nat, sum: int, pick: seq<nat>, s: State)
    requires pos <= |p.vals|
    ensures Improves(p, s, Enter(p, pos, sum, pick, s))
    decreases |p.vals| - pos, 2
  {
    if !Halted(p, s) {
      LoopImproves(p, pos, sum, pick, s.(budget := s.budget - 1));
    }
  }

  lemma {:induction false} TriedImproves(p: Params, i: nat, sum: int, pick: seq<nat>, s: State)
    requires i < |p.vals| && !Done(p, s)
    ensures Improves(p, s, Tried(p, i, sum, pick, s))
    ensures Improves(p, Judged(p, i, sum, pick, s), Tried(p, i, sum, pick, s))
    decreases |p.vals| - i, 0
  {
    var s1 := Judged(p, i, sum, pick, s);
    JudgedImproves(p, i, sum, pick, s);
    EnterImproves(p, i + 1, sum + p.vals[i], pick + [i], s1);
    ImprovesTransitive(p, s, s1, Tried(p, i, sum, pick, s));
  }

  lemma {:induction false} LoopImproves(p: Params, i: nat, sum: int, pick: seq<nat>, s: State)
    requires i <= |p.vals|
    ensures Improves(p, s, Loop(p, i, sum, pick, s))
    decreases |p.vals| - i, 1
  {
    if i == |p.vals| || Halted(p, s) || Unreachable(p, i, sum) {
    } else {
      var s' := Tried(p, i, sum, pick, s);
      TriedImproves(p, i, sum, pick, s);
      LoopImproves(p, i + 1, sum, pick, s');
      ImprovesTransitive(p, s, s', Loop(p, i + 1, sum, pick, s'));
    }
  }

  /** The best pick is left alone, or gives way to one below the node `pick`. */
  ghost predicate Stays(s: State, s': State, pick: seq<nat>) {
    (s'.found == s.found && s'.bestPick == s.bestPick) || (s'.found && pick <= s'.bestPick)
  }

  lemma {:induction false} EnterStays(p: Params, pos: nat, sum: int, pick: seq<nat>, s: State)
    requires pos <= |p.vals|
    ensures Stays(s, Enter(p, pos, sum, pick, s), pick)
    decreases |p.vals| - pos, 2
  {
    if !Halted(p, s) {
      LoopStays(p, pos, sum, pick, s.(budget := s.budget - 1));
    }
  }

  lemma {:induction false} TriedStays(p: Params, i: nat, sum: int, pick: seq<nat>, s: State)
    requires i < |p.vals|
    ensures Stays(s, Tried(p, i, sum, pick, s), pick + [i])
    decreases |p.vals| - i, 0
  {
    EnterStays(p, i + 1, sum + p.vals[i], pick + [i], Judged(p, i, sum, pick, s));
  }

  lemma {:induction false} LoopStays(p: Params, i: nat, sum: int, pick: seq<nat>, s: State)
    requires i <= |p.vals|
    ensures Stays(s, Loop(p, i, sum, pick, s), pick)
    decreases |p.vals| - i, 1
  {
    if i == |p.vals| || Halted(p, s) || Unreachable(p, i, sum) {
    } else {
      var s' := Tried(p, i, sum, pick, s);
      TriedStays(p, i, sum, pick, s);
      LoopStays(p, i + 1, sum, pick, s');
    }
  }

  // ---------------------------------------------------------------- optimality

  /** Whatever has been found so far was visited before `q`. */
  ghost predicate Ahead(s: State, q: seq<nat>) {
    s.found ==> Precedes(s.bestPick, q)
  }

  /** The best pick is as good as `q`; and it is better, or `q` itself, or was visited before it. */
  ghost predicate First(p: Params, s: State, q: seq<nat>)
    requires Within(q, |p.vals|)
  {
    && Beats(p, s, SumAt(p.vals, q), |q|)
    && (Surpasses(p, s.bestSum, |s.bestPick|, SumAt(p.vals, q), |q|) || s.bestPick == q || Precedes(s.bestPick, q))
  }

  lemma {:induction false} FirstKept(p: Params, s: State, s': State, q: seq<nat>)
    requires Within(q, |p.vals|) && First(p, s, q) && Improves(p, s, s')
    ensures First(p, s', q)
  {
  }

  lemma {:induction false} DoneIsFirst(p: Params, s: State, q: seq<nat>)
    requires WellFormed(p) && Done(p, s) && Solution(p, q) && Ahead(s, q)
    ensures First(p, s, q)
  {
  }

  /** What position `i` leaves behind precedes every choice that goes on past it. */
  lemma {:induction false} TriedIsAhead(p: Params, i: nat, sum: int, pick: seq<nat>, s: State, q: seq<nat>)
    requires i < |p.vals| && pick < q && q[|pick|] > i && Ahead(s, q)
    ensures Ahead(Tried(p, i, sum, pick, s), q)
  {
    var s' := Tried(p, i, sum, pick, s);
    TriedStays(p, i, sum, pick, s);
    if s'.found && pick + [i] <= s'.bestPick {
      assert s'.bestPick[..|pick|] == pick == q[..|pick|] && s'.bestPick[|pick|] == i;
      assert PartsAt(s'.bestPick, q, |pick|);
    }
  }

  lemma {:induction false} JudgedIsAhead(p: Params, i: nat, sum: int, pick: seq<nat>, s: State, q: seq<nat>)
    requires i < |p.vals| && pick + [i] < q && Ahead(s, q)
    ensures Ahead(Judged(p, i, sum, pick, s), q)
  {
  }

  lemma JudgedBeats(p: Params, i: nat, sum: int, pick: seq<nat>, s: State)
    requires i < |p.vals|
    requires Hits(p, sum + p.vals[i])
    ensures Beats(p, Judged(p, i, sum, pick, s), sum + p.vals[i], |pick| + 1)
  {
  }

  /** A node the walk does not go below is better than everything below it. */
  lemma {:induction false} StopIsSafe(p: Params, i: nat, sum: int, pick: seq<nat>, s: State, q: seq<nat>)
    requires WellFormed(p) && Node(p, i, sum, pick) && i < |p.vals|
    requires Stops(p, sum + p.vals[i])
    requires Solution(p, q) && pick + [i] < q
    ensures First(p, Judged(p, i, sum, pick, s), q)
  {
    NodeChild(p, i, sum, pick);
    StrictExtension(p.vals, pick + [i], q);
    assert Hits(p, sum + p.vals[i]);
    JudgedBeats(p, i, sum, pick, s);
  }

  /** Position `i` completes the choice. */
  lemma {:induction false} TriedLast(p: Params, i: nat, sum: int, pick: seq<nat>, s: State)
    requires Node(p, i, sum, pick) && i < |p.vals| && Hits(p, sum + p.vals[i])
    requires !Done(p, s) && Ahead(s, pick + [i])
    ensures Candidate(p, pick + [i]) && First(p, Tried(p, i, sum, pick, s), pick + [i])
  {
    NodeChild(p, i, sum, pick);
    JudgedBeats(p, i, sum, pick, s);
    TriedImproves(p, i, sum, pick, s);
    FirstKept(p, Judged(p, i, sum, pick, s), Tried(p, i, sum, pick, s), pick + [i]);
  }

  /** The reachability test never cuts off a solution. */
  lemma {:induction false} SolutionIsReachable(p: Params, i: nat, sum: int, pick: seq<nat>, q: seq<nat>)
    requires WellFormed(p) && Node(p, i, sum, pick)
    requires Solution(p, q) && pick < q && q[|pick|] >= i
    ensures i < |p.vals| && !Unreachable(p, i, sum)
  {
    ExtensionBound(p.vals, pick, q, i);
  }

  lemma {:induction false} LoopUnfolds(p: Params, i: nat, sum: int, pick: seq<nat>, s: State)
    requires i < |p.vals| && !Halted(p, s) && !Unreachable(p, i, sum)
    ensures var s' := Tried(p, i, sum, pick, s);
            Loop(p, i, sum, pick, s) == Loop(p, i + 1, sum, pick, s') && Improves(p, s', Loop(p, i, sum, pick, s))
  {
    LoopImproves(p, i + 1, sum, pick, Tried(p, i, sum, pick, s));
  }

  lemma {:induction false} NextExtends(pick: seq<nat>, q: seq<nat>)
    requires pick < q
    ensures pick + [q[|pick|]] <= q
  {
  }

  lemma {:induction false} EnterComplete(
      p: Params, pos: nat, sum: int, pick: seq<nat>, s: State, q: seq<nat>)
    requires WellFormed(p) && Node(p, pos, sum, pick)
    requires Solution(p, q) && pick < q && q[|pick|] >= pos && Ahead(s, q)
    requires Enter(p, pos, sum, pick, s).budget > 0
    ensures First(p, Enter(p, pos, sum, pick, s), q)
    decreases |p.vals| - pos, 2
  {
    if Halted(p, s) {
      DoneIsFirst(p, s, q);
    } else {
      LoopComplete(p, pos, sum, pick, s.(budget := s.budget - 1), q);
    }
  }

  lemma {:induction false} LoopComplete(
      p: Params, i: nat, sum: int, pick: seq<nat>, s: State, q: seq<nat>)
    requires WellFormed(p) && Node(p, i, sum, pick)
    requires Solution(p, q) && pick < q && q[|pick|] >= i && Ahead(s, q)
    requires Loop(p, i, sum, pick, s).budget > 0
    ensures First(p, Loop(p, i, sum, pick, s), q)
    decreases |p.vals| - i, 1
  {
    if Halted(p, s) {
      DoneIsFirst(p, s, q);
    } else {
      var s' := Tried(p, i, sum, pick, s);
      SolutionIsReachable(p, i, sum, pick, q);
      LoopUnfolds(p, i, sum, pick, s);
      LoopKeeps(p, i + 1, sum, pick, s');
      NodeChild(p, i, sum, pick);
      if q[|pick|] == i {
        TriedComplete(p, i, sum, pick, s, q);
        FirstKept(p, s', Loop(p, i, sum, pick, s), q);
      } else {
        TriedIsAhead(p, i, sum, pick, s, q);
        LoopComplete(p, i + 1, sum, pick, s', q);
      }
    }
  }

  /** The choice `q` goes on below position `i`. */
  lemma {:induction false} TriedDeeper(
      p: Params, i: nat, sum: int, pick: seq<nat>, s: State, q: seq<nat>)
    requires WellFormed(p) && Node(p, i, sum, pick) && i < |p.vals|
    requires Solution(p, q) && pick + [i] < q && !Stops(p, sum + p.vals[i]) && Ahead(s, q)
    requires Tried(p, i, sum, pick, s).budget > 0
    ensures First(p, Tried(p, i, sum, pick, s), q)
    decreases |p.vals| - i, 0, 0
  {
    var next, pick', s1 := sum + p.vals[i], pick + [i], Judged(p, i, sum, pick, s);
    NodeChild(p, i, sum, pick);
    JudgedIsAhead(p, i, sum, pick, s, q);
    assert q[|pick|] == i && q[|pick'|] > i;
    assert Tried(p, i, sum, pick, s) == Enter(p, i + 1, next, pick', s1);
    EnterComplete(p, i + 1, next, pick', s1, q);
  }

  lemma {:induction false} TriedComplete(
      p: Params, i: nat, sum: int, pick: seq<nat>, s: State, q: seq<nat>)
    requires WellFormed(p) && Node(p, i, sum, pick) && i < |p.vals|
    requires Solution(p, q) && pick < q && q[|pick|] == i && Ahead(s, q) && !Done(p, s)
    requires Tried(p, i, sum, pick, s).budget > 0
    ensures First(p, Tried(p, i, sum, pick, s), q)
    decreases |p.vals| - i, 0, 1
  {
    NextExtends(pick, q);
    if q == pick + [i] {
      NodeChild(p, i, sum, pick);
      TriedLast(p, i, sum, pick, s);
    } else if Stops(p, sum + p.vals[i]) {
      StopIsSafe(p, i, sum, pick, s, q);
    } else {
      TriedDeeper(p, i, sum, pick, s, q);
    }
  }

  /** Optimality: a walk that ends with budget left found a result exactly when some allowed
      choice of coins meets its goal; no such choice is better than the one it found, and of those
      as good it found the one visited first. */
  lemma RunOptimal(p: Params, budget: int)
    requires WellFormed(p)
    requires Run(p, budget).budget > 0
    ensures Run(p, budget).found <==> exists q :: Solution(p, q)
    ensures forall q :: Solution(p, q) ==> First(p, Run(p, budget), q)
  {
    var s := Run(p, budget);
    RunSound(p, budget);
    forall q | Solution(p, q)
      ensures First(p, s, q)
    {
      EnterComplete(p, 0, 0, [], State(budget, false, 0, []), q);
    }
  }

  /** A walk whose first coin is worth exactly the target ends at once. */
  lemma {:induction false} RunEndsAtOnce(p: Params, budget: int)
    requires WellFormed(p) && p.vals != [] && p.vals[0] == p.target && budget > 1
    requires p.goal in {Exact, ValidChange, Overshoot}
    ensures Run(p, budget) == State(budget - 1, true, p.target, [0])
  {
    var s, found := State(budget - 1, false, 0, []), State(budget - 1, true, p.target, [0]);
    SuffixNonNegative(p.vals, 1);
    assert Suffix(p.vals, 0) == p.vals[0] + Suffix(p.vals, 1);
    assert [] + [0] == [0] && !Unreachable(p, 0, 0);
    assert Tried(p, 0, 0, [], s) == found;
    LoopUnfolds(p, 0, 0, [], s);
    assert Loop(p, 1, 0, [], found) == found;
  }

  /** A walk whose coins cannot reach the target gives up after one call. */
  lemma {:induction false} RunGivesUp(p: Params, budget: int)
    requires p.goal != Below && Sum(p.vals) < p.target && budget > 0
    ensures Run(p, budget) == State(budget - 1, false, 0, [])
  {
    var s := State(budget - 1, false, 0, []);
    TopPlusSuffix(p.vals, 0);
    assert Unreachable(p, 0, 0);
    assert Loop(p, 0, 0, [], s) == s;
  }

  // ---------------------------------------------------------------- the number of calls

  function Pow2(n: nat): (r: nat)
    ensures r >= 1
  {
    if n == 0 then 1 else 2 * Pow2(n - 1)
  }

  lemma {:induction false} EnterCalls(p: Params, pos: nat, sum: int, pick: seq<nat>, s: State)
    requires pos <= |p.vals|
    ensures s.budget - Enter(p, pos, sum, pick, s).budget <= Pow2(|p.vals| - pos)
    decreases |p.vals| - pos, 2
  {
    if !Halted(p, s) {
      LoopCalls(p, pos, sum, pick, s.(budget := s.budget - 1));
    }
  }

  lemma {:induction false} LoopCalls(p: Params, i: nat, sum: int, pick: seq<nat>, s: State)
    requires i <= |p.vals|
    ensures s.budget - Loop(p, i, sum, pick, s).budget <= Pow2(|p.vals| - i) - 1
    decreases |p.vals| - i, 1
  {
    if i == |p.vals| || Halted(p, s) || Unreachable(p, i, sum) {
    } else {
      var s1 := Judged(p, i, sum, pick, s);
      assert s1.budget == s.budget;
      EnterCalls(p, i + 1, sum + p.vals[i], pick + [i], s1);
      LoopCalls(p, i + 1, sum, pick, Tried(p, i, sum, pick, s));
    }
  }

  lemma {:induction false} Pow2Monotone(m: nat, n: nat)
    requires m <= n
    ensures Pow2(m) <= Pow2(n)
  {
    if m < n {
      Pow2Monotone(m, n - 1);
    }
  }

  lemma Pow2Seventeen()
    ensures Pow2(17) == 131072
  {
    assert Pow2(4) == 16;
    assert Pow2(8) == 256;
    assert Pow2(12) == 4096;
    assert Pow2(16) == 65536;
  }

  /** A walk over `n` coins makes at most `2^n` calls: up to 17 coins never exhaust the budget. */
  lemma RunCalls(p: Params, budget: int)
    ensures budget - Run(p, budget).budget <= Pow2(|p.vals|)
    ensures |p.vals| <= 17 && budget == 200_000 ==> Run(p, budget).budget > 0
  {
    EnterCalls(p, 0, 0, [], State(budget, false, 0, []));
    if |p.vals| <= 17 {
      Pow2Monotone(|p.vals|, 17);
      Pow2Seventeen();
    }
  }

  // ---------------------------------------------------------------- the first greedy descent

  ghost predicate Upward(g: Goal) {
    g == ValidChange || g == Overshoot || g == Above
  }

  /** The walk's first path takes the coins in rank order. If the first `m` of them meet an upward
      goal, the walk finds a result at least as good, whatever is left of the budget afterwards. */
  lemma {:induction false} FirstDescent(p: Params, k: nat, m: nat, s: State)
    requires WellFormed(p) && Upward(p.goal)
    requires k < m <= |p.vals| && (m == 1 || m <= p.cap)
    requires Hits(p, Top(p.vals, m))
    requires !s.found && s.budget > m - k
    ensures Enter(p, k, Top(p.vals, k), Iota(k), s).found
    ensures Enter(p, k, Top(p.vals, k), Iota(k), s).bestSum <= Top(p.vals, m)
    decreases m - k
  {
    var pick, sum := Iota(k), Top(p.vals, k);
    var s0 := s.(budget := s.budget - 1);
    var s1 := Judged(p, k, sum, pick, s0);
    TopPlusSuffix(p.vals, k);
    TopPlusSuffix(p.vals, m);
    SuffixNonNegative(p.vals, m);
    assert !Unreachable(p, k, sum);
    var s2 := Tried(p, k, sum, pick, s0);
    TriedKeeps(p, k, sum, pick, s0);
    TopMonotone(p.vals, k + 1, m);
    if Hits(p, Top(p.vals, k + 1)) {
      JudgedBeats(p, k, sum, pick, s0);
      assert s1.found && s1.bestSum <= Top(p.vals, k + 1);
    } else {
      assert pick + [k] == Iota(k + 1);
      assert s1 == s0;
      FirstDescent(p, k + 1, m, s1);
    }
    assert s2.found && s2.bestSum <= Top(p.vals, m);
    LoopKeeps(p, k + 1, sum, pick, s2);
  }

  lemma RunFirstDescent(p: Params, budget: int, m: nat)
    requires WellFormed(p) && Upward(p.goal)
    requires 1 <= m <= |p.vals| && (m == 1 || m <= p.cap)
    requires Hits(p, Top(p.vals, m))
    requires budget > m
    ensures Run(p, budget).found && Run(p, budget).bestSum <= Top(p.vals, m)
  {
    FirstDescent(p, 0, m, State(budget, false, 0, []));
    assert Iota(0) == [];
  }

  // ---------------------------------------------------------------- lock step with Exact

  ghost predicate Twins(e: Params, g: Params) {
    && e.goal == Exact
    && (g.goal == ValidChange || g.goal == Overshoot)
    && g == e.(goal := g.goal)
  }

  /** Neither walk has met the target, and `Exact` has spent no more calls than the other. */
  ghost predicate InStep(e: Params, es: State, gs: State) {
    !es.found && es.budget >= gs.budget >= 0 && (gs.found ==> gs.bestSum > e.target)
  }

  /** Past the target, nothing below a node comes back down to it. */
  lemma {:induction false} EnterOvershoots(g: Params, pos: nat, sum: int, pick: seq<nat>, s: State)
    requires WellFormed(g) && Upward(g.goal) && pos <= |g.vals| && sum > g.target
    requires s.found ==> s.bestSum > g.target
    ensures var s' := Enter(g, pos, sum, pick, s); s'.found ==> s'.bestSum > g.target
    decreases |g.vals| - pos, 2
  {
    if !Halted(g, s) {
      LoopOvershoots(g, pos, sum, pick, s.(budget := s.budget - 1));
    }
  }

  lemma {:induction false} LoopOvershoots(g: Params, i: nat, sum: int, pick: seq<nat>, s: State)
    requires WellFormed(g) && Upward(g.goal) && i <= |g.vals| && sum > g.target
    requires s.found ==> s.bestSum > g.target
    ensures var s' := Loop(g, i, sum, pick, s); s'.found ==> s'.bestSum > g.target
    decreases |g.vals| - i, 1
  {
    if i == |g.vals| || Halted(g, s) || Unreachable(g, i, sum) {
    } else {
      EnterOvershoots(g, i + 1, sum + g.vals[i], pick + [i], Judged(g, i, sum, pick, s));
      LoopOvershoots(g, i + 1, sum, pick, Tried(g, i, sum, pick, s));
    }
  }

  lemma {:induction false} EnterInStep(
      e: Params, g: Params, pos: nat, sum: int, pick: seq<nat>, es: State, gs: State)
    requires Twins(e, g) && WellFormed(e) && pos <= |e.vals|
    requires InStep(e, es, gs)
    ensures var es', gs' := Enter(e, pos, sum, pick, es), Enter(g, pos, sum, pick, gs);
            es'.found || InStep(e, es', gs')
    decreases |e.vals| - pos, 2
  {
    if gs.budget == 0 {
      EnterKeeps(e, pos, sum, pick, es);
    } else {
      LoopInStep(e, g, pos, sum, pick, es.(budget := es.budget - 1), gs.(budget := gs.budget - 1));
    }
  }

  lemma {:induction false} LoopInStep(
      e: Params, g: Params, i: nat, sum: int, pick: seq<nat>, es: State, gs: State)
    requires Twins(e, g) && WellFormed(e) && i <= |e.vals|
    requires InStep(e, es, gs)
    ensures var es', gs' := Loop(e, i, sum, pick, es), Loop(g, i, sum, pick, gs);
            es'.found || InStep(e, es', gs')
    decreases |e.vals| - i, 1
  {
    if i == |e.vals| || Unreachable(e, i, sum) {
    } else if gs.budget == 0 {
      LoopKeeps(e, i, sum, pick, es);
    } else {
      var es', gs' := Tried(e, i, sum, pick, es), Tried(g, i, sum, pick, gs);
      TriedInStep(e, g, i, sum, pick, es, gs);
      if es'.found {
        LoopKeeps(e, i + 1, sum, pick, es');
      } else {
        LoopInStep(e, g, i + 1, sum, pick, es', gs');
      }
    }
  }

  lemma {:induction false} TriedInStep(
      e: Params, g: Params, i: nat, sum: int, pick: seq<nat>, es: State, gs: State)
    requires Twins(e, g) && WellFormed(e) && i < |e.vals|
    requires InStep(e, es, gs)
    ensures var es', gs' := Tried(e, i, sum, pick, es), Tried(g, i, sum, pick, gs);
            es'.found || InStep(e, es', gs')
    decreases |e.vals| - i, 0
  {
    var next, pick' := sum + e.vals[i], pick + [i];
    var gs1 := Judged(g, i, sum, pick, gs);
    if next == e.target {
      assert Judged(e, i, sum, pick, es).found;
    } else if next < e.target {
      assert Judged(e, i, sum, pick, es) == es && gs1 == gs;
      if |pick| + 1 < e.cap {
        EnterInStep(e, g, i + 1, next, pick', es, gs);
      }
    } else {
      assert Judged(e, i, sum, pick, es) == es;
      EnterOvershoots(g, i + 1, next, pick', gs1);
      TriedKeeps(g, i, sum, pick, gs);
    }
  }

  /** Whenever the `ValidChange` or `Overshoot` walk lands on the target within the budget, the
      `Exact` walk over the same coins has already found a result within the same budget. */
  lemma ExactCovers(e: Params, g: Params, budget: nat)
    requires Twins(e, g) && WellFormed(e)
    requires Run(g, budget).found && Run(g, budget).bestSum == e.target
    ensures Run(e, budget).found
  {
    var s := State(budget, false, 0, []);
    EnterInStep(e, g, 0, 0, [], s, s);
  }
}
