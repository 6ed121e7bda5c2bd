/** The selector does not depend on the order the wallet lists its coins in. */
module OrderIndependence {
  import opened Wrappers
  import opened Sequences
  import opened Ranking
  import opened WalkSpec
  import opened CoinSelect
  import opened Choices

  lemma MultisetCons<T>(x: T, s: seq<T>)
    ensures multiset([x] + s) == multiset{x} + multiset(s)
  {
  }

  lemma MultisetSnoc<T>(s: seq<T>, x: T)
    ensures multiset(s + [x]) == multiset{x} + multiset(s)
  {
  }

  lemma MultisetCancel<T>(x: T, a: multiset<T>, b: multiset<T>)
    requires multiset{x} + a == multiset{x} + b
    ensures a == b
  {
    assert a == multiset{x} + a - multiset{x};
    assert b == multiset{x} + b - multiset{x};
  }

  lemma AtCons<T>(g: seq<T>, x: nat, q: seq<nat>)
    requires x < |g| && Within(q, |g|)
    ensures multiset(At(g, [x] + q)) == multiset{g[x]} + multiset(At(g, q))
  {
    assert At(g, [x] + q) == [g[x]] + At(g, q);
    MultisetCons(g[x], At(g, q));
  }

  lemma {:induction false} AtInsert<T>(keys: seq<Key>, s: seq<nat>, x: nat, g: seq<T>)
    requires |g| == |keys| && Within(s, |keys|) && x < |keys|
    ensures multiset(At(g, Insert(keys, s, x))) == multiset{g[x]} + multiset(At(g, s))
  {
    if s == [] || !LexLe(keys[s[0]], keys[x]) {
      assert Insert(keys, s, x) == [x] + s;
      AtCons(g, x, s);
    } else {
      var t := Insert(keys, s[1..], x);
      AtInsert(keys, s[1..], x, g);
      AtCons(g, s[0], t);
      AtCons(g, s[0], s[1..]);
      assert s == [s[0]] + s[1..] && Insert(keys, s, x) == [s[0]] + t;
    }
  }

  lemma {:induction false} AtRankFirst<T>(keys: seq<Key>, g: seq<T>, n: nat)
    requires |g| == |keys| && n <= |keys|
    ensures multiset(At(g, RankFirst(keys, n))) == multiset(g[..n])
  {
    if n == 0 {
      assert At(g, []) == g[..0];
    } else {
      calc {
        multiset(At(g, RankFirst(keys, n)));
        { AtInsert(keys, RankFirst(keys, n - 1), n - 1, g); }
        multiset{g[n - 1]} + multiset(At(g, RankFirst(keys, n - 1)));
        { AtRankFirst(keys, g, n - 1); }
        multiset{g[n - 1]} + multiset(g[..n - 1]);
        { MultisetSnoc(g[..n - 1], g[n - 1]); assert g[..n] == g[..n - 1] + [g[n - 1]]; }
        multiset(g[..n]);
      }
    }
  }

  /** Ranking rearranges: it neither drops nor repeats an element. */
  lemma {:induction false} AtRank<T>(keys: seq<Key>, g: seq<T>)
    requires |g| == |keys|
    ensures multiset(At(g, Rank(keys))) == multiset(g)
  {
    AtRankFirst(keys, g, |keys|);
    assert g[..|keys|] == g;
  }

  predicate Comes(up: bool, a: int, b: int) {
    if up then a <= b else a >= b
  }

  ghost predicate Ordered(up: bool, s: seq<int>) {
    forall i, j :: 0 <= i < j < |s| ==> Comes(up, s[i], s[j])
  }

  lemma HeadFirst(up: bool, s: seq<int>, x: int)
    requires Ordered(up, s) && x in s
    ensures Comes(up, s[0], x)
  {
    var i :| 0 <= i < |s| && s[i] == x;
  }

  lemma {:induction false} OrderedUnique(up: bool, s: seq<int>, t: seq<int>)
    requires Ordered(up, s) && Ordered(up, t) && multiset(s) == multiset(t)
    ensures s == t
  {
    assert |s| == |multiset(s)| == |multiset(t)| == |t|;
    if s != [] {
      assert s == [s[0]] + s[1..] && t == [t[0]] + t[1..];
      MultisetCons(s[0], s[1..]);
      MultisetCons(t[0], t[1..]);
      assert s[0] in multiset(t) && t[0] in multiset(s);
      HeadFirst(up, s, t[0]);
      HeadFirst(up, t, s[0]);
      MultisetCancel(s[0], multiset(s[1..]), multiset(t[1..]));
      OrderedUnique(up, s[1..], t[1..]);
    }
  }

  ghost function RankedUp(coins: seq<int>): (vals: seq<int>)
    ensures |vals| == |coins|
  {
    At(coins, RankAscending(coins))
  }

  lemma {:induction false} SameRanked(coins: seq<int>, coins': seq<int>)
    requires multiset(coins) == multiset(coins')
    ensures Ranked(coins) == Ranked(coins')
  {
    AtRank(DescendingKeys(coins), coins);
    AtRank(DescendingKeys(coins'), coins');
    RankedFacts(coins);
    RankedFacts(coins');
    OrderedUnique(false, Ranked(coins), Ranked(coins'));
  }

  lemma {:induction false} RankedUpAscends(coins: seq<int>)
    ensures Ordered(true, RankedUp(coins))
    ensures multiset(RankedUp(coins)) == multiset(coins)
  {
    var keys, r, vals := AscendingKeys(coins), RankAscending(coins), RankedUp(coins);
    RankIsSort(keys);
    AtRank(keys, coins);
    forall i, j | 0 <= i < j < |vals|
      ensures Comes(true, vals[i], vals[j])
    {
      assert Before(keys, r[i], r[j]);
    }
  }

  lemma {:induction false} SameRankedUp(coins: seq<int>, coins': seq<int>)
    requires multiset(coins) == multiset(coins')
    ensures RankedUp(coins) == RankedUp(coins')
  {
    RankedUpAscends(coins);
    RankedUpAscends(coins');
    OrderedUnique(true, RankedUp(coins), RankedUp(coins'));
  }

  // ---------------------------------------------------------------- the totals

  ghost function PositivePart(s: seq<int>): (r: seq<int>)
    ensures |r| == |s|
  {
    seq(|s|, i requires 0 <= i < |s| => Max(0, s[i]))
  }

  lemma {:induction false} PositiveTotalIsPart(s: seq<int>)
    ensures PositiveTotal(s) == Sum(PositivePart(s))
  {
    if s != [] {
      var k := |s| - 1;
      PositiveTotalIsPart(s[..k]);
      assert PositivePart(s) == PositivePart(s[..k]) + [Max(0, s[k])];
      SumAppend(PositivePart(s[..k]), Max(0, s[k]));
    }
  }

  lemma {:induction false} TotalOfRanked(coins: seq<int>)
    ensures PositiveTotal(coins) == PositiveTotal(Ranked(coins))
  {
    var order := RankDescending(coins);
    PositiveTotalIsPart(coins);
    PositiveTotalIsPart(Ranked(coins));
    SumAtRank(DescendingKeys(coins), PositivePart(coins));
    SumAtIsSum(PositivePart(coins), order);
    assert At(PositivePart(coins), order) == PositivePart(Ranked(coins));
  }

  // ---------------------------------------------------------------- the stages

  /** The same values are chosen, in any order. */
  ghost predicate SameValues(coins: seq<int>, q: seq<nat>, coins': seq<int>, q': seq<nat>) {
    Within(q, |coins|) && Within(q', |coins'|) && multiset(At(coins, q)) == multiset(At(coins', q'))
  }

  /** Everything but the positions of the chosen coins agrees. */
  ghost predicate SameOutcome(coins: seq<int>, r: Selection, coins': seq<int>, r': Selection) {
    && r' == r.(inputs := r'.inputs)
    && SameValues(coins, r.inputs, coins', r'.inputs)
  }

  lemma {:induction false} SortedValues(coins: seq<int>, s: seq<nat>)
    requires Within(s, |coins|)
    ensures multiset(At(coins, Sorted(s))) == multiset(At(coins, s))
  {
    var keys: seq<Key> := seq(|s|, i requires 0 <= i < |s| => [s[i]]);
    AtRank(keys, At(coins, s));
    assert At(coins, Sorted(s)) == At(At(coins, s), Rank(keys));
  }

  /** Two index lists naming equal values in the same order make equal selections once sorted. */
  lemma {:induction false} MakeSame(
      stage: Stage, coins: seq<int>, s: seq<nat>, coins': seq<int>, s': seq<nat>, target: int, extra: int)
    requires Within(s, |coins|) && Within(s', |coins'|) && At(coins, s) == At(coins', s')
    ensures SameOutcome(coins, Make(stage, coins, Sorted(s), target, extra),
                        coins', Make(stage, coins', Sorted(s'), target, extra))
  {
    SortedValues(coins, s);
    SortedValues(coins', s');
    SortedSum(coins, s);
    SortedSum(coins', s');
    SumAtIsSum(coins, s);
    SumAtIsSum(coins', s');
  }

  lemma {:induction false} FoundSame(
      stage: Stage, coins: seq<int>, coins': seq<int>, s: State, target: int, extra: int)
    requires multiset(coins) == multiset(coins') && |coins| == |coins'| && Within(s.bestPick, |coins|)
    ensures SameOutcome(coins, Make(stage, coins, Found(coins, s), target, extra),
                        coins', Make(stage, coins', Found(coins', s), target, extra))
  {
    SameRanked(coins, coins');
    var t, t' := At(RankDescending(coins), s.bestPick), At(RankDescending(coins'), s.bestPick);
    assert At(coins, t) == At(Ranked(coins), s.bestPick);
    assert At(coins', t') == At(Ranked(coins'), s.bestPick);
    MakeSame(stage, coins, t, coins', t', target, extra);
  }

  lemma {:induction false} SingleSame(
      coins: seq<int>, asc: seq<nat>, coins': seq<int>, asc': seq<nat>, least: int, k: nat)
    requires Within(asc, |coins|) && Within(asc', |coins'|) && At(coins, asc) == At(coins', asc')
    requires k <= |asc|
    ensures var r, r' := FirstSingle(coins, asc, least, k), FirstSingle(coins', asc', least, k);
            r.Some? == r'.Some? && (r.Some? ==> coins[r.value] == coins'[r'.value])
    decreases |asc| - k
  {
    if k < |asc| {
      assert coins[asc[k]] == At(coins, asc)[k] == coins'[asc'[k]];
      SingleSame(coins, asc, coins', asc', least, k + 1);
    }
  }

  lemma {:induction false} GreedySame(
      coins: seq<int>, asc: seq<nat>, coins': seq<int>, asc': seq<nat>,
      target: int, floor: int, cap: nat, k: nat, pick: seq<nat>, pick': seq<nat>, sum: int)
    requires Within(asc, |coins|) && Within(asc', |coins'|) && At(coins, asc) == At(coins', asc')
    requires k <= |asc|
    requires Within(pick, |coins|) && Within(pick', |coins'|) && At(coins, pick) == At(coins', pick')
    ensures var r, r' := Accumulate(coins, asc, target, floor, cap, k, pick, sum),
                         Accumulate(coins', asc', target, floor, cap, k, pick', sum);
            r.Some? == r'.Some? && (r.Some? ==> At(coins, r.value) == At(coins', r'.value))
    decreases |asc| - k
  {
    if k < |asc| {
      assert coins[asc[k]] == At(coins, asc)[k] == coins'[asc'[k]];
      assert |pick| == |At(coins, pick)| == |pick'|;
      if coins[asc[k]] <= 0 {
        GreedySame(coins, asc, coins', asc', target, floor, cap, k + 1, pick, pick', sum);
      } else if |pick| != cap {
        var p, p' := pick + [asc[k]], pick' + [asc'[k]];
        assert At(coins, p) == At(coins, pick) + [coins[asc[k]]];
        assert At(coins', p') == At(coins', pick') + [coins'[asc'[k]]];
        GreedySame(coins, asc, coins', asc', target, floor, cap, k + 1, p, p', sum + coins[asc[k]]);
      }
    }
  }

  lemma {:induction false} SearchSame(coins: seq<int>, coins': seq<int>, target: int, floor: int, cap: nat, goal: Goal)
    requires multiset(coins) == multiset(coins')
    ensures Search(coins, target, floor, cap, goal) == Search(coins', target, floor, cap, goal)
  {
    SameRanked(coins, coins');
  }

  lemma {:induction false} RefusalSame(coins: seq<int>, coins': seq<int>, r: Selection)
    requires r.inputs == []
    ensures SameOutcome(coins, r, coins', r)
  {
    assert At(coins, []) == At(coins', []);
  }

  lemma {:induction false} LastSame(
      coins: seq<int>, coins': seq<int>, target: int, floor: int, cap: nat, allowBurn: bool)
    requires multiset(coins) == multiset(coins') && |coins| == |coins'|
    ensures SameOutcome(coins, SelectLast(coins, target, floor, cap, allowBurn),
                        coins', SelectLast(coins', target, floor, cap, allowBurn))
  {
    SearchSame(coins, coins', target, floor, cap, ValidChange);
    SearchSame(coins, coins', target, floor, cap, Overshoot);
    var v, o := Search(coins, target, floor, cap, ValidChange), Search(coins, target, floor, cap, Overshoot);
    var r, r' := SelectLast(coins, target, floor, cap, allowBurn), SelectLast(coins', target, floor, cap, allowBurn);
    if v.found {
      assert r == Make(SearchStage, coins, Found(coins, v), target, 0);
      assert r' == Make(SearchStage, coins', Found(coins', v), target, 0);
      FoundSame(SearchStage, coins, coins', v, target, 0);
    } else if allowBurn && o.found && 0 < o.bestSum - target < floor {
      assert r == Make(BurnStage, coins, Found(coins, o), target, o.bestSum - target);
      assert r' == Make(BurnStage, coins', Found(coins', o), target, o.bestSum - target);
      FoundSame(BurnStage, coins, coins', o, target, o.bestSum - target);
    } else {
      RefusalSame(coins, coins', NO_SELECTION);
    }
  }

  lemma {:induction false} OneSame(coins: seq<int>, i: nat, coins': seq<int>, i': nat, target: int)
    requires i < |coins| && i' < |coins'| && coins[i] == coins'[i']
    ensures SameOutcome(coins, Make(SingleStage, coins, [i], target, 0),
                        coins', Make(SingleStage, coins', [i'], target, 0))
  {
    assert At(coins, [i]) == At(coins', [i']);
    SumAtIsSum(coins, [i]);
    SumAtIsSum(coins', [i']);
  }

  lemma {:induction false} ManySame(
      coins: seq<int>, coins': seq<int>, target: int, floor: int, cap: nat, allowBurn: bool)
    requires multiset(coins) == multiset(coins') && |coins| == |coins'|
    ensures SameOutcome(coins, SelectMany(coins, target, floor, cap, allowBurn),
                        coins', SelectMany(coins', target, floor, cap, allowBurn))
  {
    SameRankedUp(coins, coins');
    var asc, asc' := RankAscending(coins), RankAscending(coins');
    GreedySame(coins, asc, coins', asc', target, floor, cap, 0, [], [], 0);
    var m, m' := Accumulate(coins, asc, target, floor, cap, 0, [], 0),
                 Accumulate(coins', asc', target, floor, cap, 0, [], 0);
    if m.Some? {
      MakeSame(GreedyStage, coins, m.value, coins', m'.value, target, 0);
    } else {
      LastSame(coins, coins', target, floor, cap, allowBurn);
    }
  }

  lemma {:induction false} ChangeSame(
      coins: seq<int>, coins': seq<int>, target: int, floor: int, cap: nat, allowBurn: bool)
    requires multiset(coins) == multiset(coins') && |coins| == |coins'|
    ensures SameOutcome(coins, SelectWithChange(coins, target, floor, cap, allowBurn),
                        coins', SelectWithChange(coins', target, floor, cap, allowBurn))
  {
    SameRankedUp(coins, coins');
    var asc, asc' := RankAscending(coins), RankAscending(coins');
    SingleSame(coins, asc, coins', asc', target + floor, 0);
    var one, one' := FirstSingle(coins, asc, target + floor, 0), FirstSingle(coins', asc', target + floor, 0);
    var r := SelectWithChange(coins, target, floor, cap, allowBurn);
    var r' := SelectWithChange(coins', target, floor, cap, allowBurn);
    if one.Some? {
      assert r == Make(SingleStage, coins, [one.value], target, 0);
      assert r' == Make(SingleStage, coins', [one'.value], target, 0);
      OneSame(coins, one.value, coins', one'.value, target);
    } else {
      assert r == SelectMany(coins, target, floor, cap, allowBurn);
      assert r' == SelectMany(coins', target, floor, cap, allowBurn);
      ManySame(coins, coins', target, floor, cap, allowBurn);
    }
  }

  /** Permuting the coin list changes neither the flags, the stage, the amounts nor the multiset of
      chosen coin values. */
  lemma {:induction false} SelectOrderIndependent(
      coins: seq<int>, coins': seq<int>, target: int, floor: int, cap: nat, allowBurn: bool)
    requires multiset(coins) == multiset(coins')
    ensures SameOutcome(coins, Select(coins, target, floor, cap, allowBurn),
                        coins', Select(coins', target, floor, cap, allowBurn))
  {
    assert |coins| == |multiset(coins)| == |multiset(coins')| == |coins'|;
    SameRanked(coins, coins');
    TotalOfRanked(coins);
    TotalOfRanked(coins');
    assert Reachable(coins, cap) == Reachable(coins', cap);
    var e := Search(coins, target, floor, cap, Exact);
    SearchSame(coins, coins', target, floor, cap, Exact);
    if target <= 0 || PositiveTotal(coins) < target || Reachable(coins, cap) < target {
      RefusalSame(coins, coins', Select(coins, target, floor, cap, allowBurn));
    } else if e.found {
      FoundSame(ExactStage, coins, coins', e, target, 0);
    } else {
      ChangeSame(coins, coins', target, floor, cap, allowBurn);
    }
  }
}
