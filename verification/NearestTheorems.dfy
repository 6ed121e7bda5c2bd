/** The two amounts a change-floor refusal names are the nearest ones that work. */
module NearestTheorems {
  import opened Wrappers
  import opened Sequences
  import opened WalkSpec
  import opened CoinSelect
  import opened Choices
  import opened SelectTheorems

  /** A TRANSFER the coins could reach, refused only because its change falls below the floor. */
  ghost predicate RefusedInBand(coins: seq<int>, target: int, floor: int, cap: nat) {
    target > 0 && Select(coins, target, floor, cap, false) == NO_SELECTION
  }

  ghost predicate Accepted(coins: seq<int>, amount: int, floor: int, cap: nat) {
    Select(coins, amount, floor, cap, false).ok
  }

  /** The whole reach is always paid exactly, whatever the budget: the first greedy descent lands on it. */
  lemma {:induction false} ReachIsPaid(coins: seq<int>, floor: int, cap: nat)
    requires Wallet(coins, floor) && Deep(coins, cap) && Reachable(coins, cap) > 0
    ensures Accepted(coins, Reachable(coins, cap), floor, cap)
  {
    var reach := Reachable(coins, cap);
    SearchFindsReach(coins, reach, floor, cap, Overshoot);
    if !Search(coins, reach, floor, cap, Exact).found {
      SearchMisses(coins, reach, floor, cap, Overshoot);
    }
    Staged(coins, reach, floor, cap, false);
  }

  /** A target is refused in the band only when it lies strictly below the reach and less than the floor
      away from it, whatever the budget. */
  lemma {:induction false} BandFacts(coins: seq<int>, target: int, floor: int, cap: nat)
    requires Wallet(coins, floor) && Deep(coins, cap)
    requires RefusedInBand(coins, target, floor, cap)
    ensures target < Reachable(coins, cap) < target + floor
    ensures cap >= 1 && coins != []
  {
    RefusalFlags(coins, target, floor, cap, false);
    ReachNeedsCap(coins, cap);
    ReachIsPaid(coins, floor, cap);
    if target + floor <= Reachable(coins, cap) {
      NoFalseRefusal(coins, target, floor, cap, false);
    }
  }

  /** An amount above the target is offered exactly when the reachable sum exceeds the target, for
      every wallet and whatever the budget. */
  lemma {:induction false} AboveExists(coins: seq<int>, target: int, floor: int, cap: nat)
    requires Wallet(coins, floor) && target >= 0
    ensures Nearest(coins, target, floor, cap).above.Some? <==> Reachable(coins, cap) > target
    ensures var a := Nearest(coins, target, floor, cap).above; a.Some? ==> target < a.value <= Reachable(coins, cap)
  {
    var reach := Reachable(coins, cap);
    var s := Search(coins, target, floor, cap, Above);
    if reach > 0 && s.found {
      ReachNeedsCap(coins, cap);
      SearchNames(coins, target, floor, cap, Above);
      ReachBounds(coins, cap, Found(coins, s));
    }
  }

  /** `above` is worth a choice of coins, whatever the budget. */
  lemma {:induction false} AboveIsWorth(coins: seq<int>, target: int, floor: int, cap: nat)
    requires Wallet(coins, floor) && target >= 0
    requires Reachable(coins, cap) > target
    ensures Nearest(coins, target, floor, cap).above.Some?
    ensures exists q :: Pays(coins, cap, q, Nearest(coins, target, floor, cap).above.value)
  {
    var s := Search(coins, target, floor, cap, Above);
    AboveExists(coins, target, floor, cap);
    ReachNeedsCap(coins, cap);
    var all := ReachAttained(coins, cap);
    assert Pays(coins, cap, all, Reachable(coins, cap));
    if s.found {
      SearchNames(coins, target, floor, cap, Above);
      assert Pays(coins, cap, Found(coins, s), s.bestSum);
    }
  }

  /** Nothing between the target and `above` is worth a choice of coins, with budget left. */
  lemma {:induction false} AboveIsNext(coins: seq<int>, target: int, floor: int, cap: nat, q: seq<nat>)
    requires Wallet(coins, floor) && target >= 0
    requires Reachable(coins, cap) > target && Search(coins, target, floor, cap, Above).budget > 0
    requires Ascending(q, |coins|) && |q| <= cap && SumAt(coins, q) > target
    ensures Nearest(coins, target, floor, cap).above.Some?
    ensures Nearest(coins, target, floor, cap).above.value <= SumAt(coins, q)
  {
    SearchBest(coins, target, floor, cap, Above, q);
    AboveExists(coins, target, floor, cap);
  }

  /** The amount `below` is built from: the reach less the floor, or a larger sum below the target. */
  ghost function LowerAmount(coins: seq<int>, target: int, floor: int, cap: nat): int {
    var b := Search(coins, target, floor, cap, Below);
    var base := Reachable(coins, cap) - floor;
    if b.found && b.bestSum > base then b.bestSum else base
  }

  /** It lies below the target and is workable, whatever the budget. */
  lemma {:induction false} LowerIsWorth(coins: seq<int>, target: int, floor: int, cap: nat)
    requires Wallet(coins, floor) && cap >= 1
    requires Reachable(coins, cap) < target + floor
    ensures var b := LowerAmount(coins, target, floor, cap); b < target && (b > 0 ==> Workable(coins, b, floor, cap))
  {
    var s := Search(coins, target, floor, cap, Below);
    if s.found {
      SearchNames(coins, target, floor, cap, Below);
      assert Pays(coins, cap, Found(coins, s), s.bestSum);
    }
  }

  /** Nothing between it and the target is worth a choice of coins, with budget left. */
  lemma {:induction false} LowerIsNext(coins: seq<int>, target: int, floor: int, cap: nat, q: seq<nat>)
    requires Wallet(coins, floor) && Search(coins, target, floor, cap, Below).budget > 0
    requires Ascending(q, |coins|) && 1 <= |q| <= cap && SumAt(coins, q) < target
    ensures SumAt(coins, q) <= LowerAmount(coins, target, floor, cap)
  {
    SearchBest(coins, target, floor, cap, Below, q);
  }

  /** `a` lies strictly between the two amounts named, or from the floor up when there is no lower. */
  ghost predicate Between(alt: Alternatives, floor: int, a: int) {
    && floor <= a
    && (alt.below.Some? ==> alt.below.value < a)
    && (alt.above.Some? ==> a < alt.above.value)
  }

  lemma {:induction false} NothingBetween(coins: seq<int>, target: int, floor: int, cap: nat, a: int)
    requires Wallet(coins, floor) && Deep(coins, cap)
    requires RefusedInBand(coins, target, floor, cap)
    requires Search(coins, target, floor, cap, Above).budget > 0 && Search(coins, target, floor, cap, Below).budget > 0
    requires Between(Nearest(coins, target, floor, cap), floor, a)
    ensures !Accepted(coins, a, floor, cap)
  {
    BandFacts(coins, target, floor, cap);
    AboveExists(coins, target, floor, cap);
    LowerIsWorth(coins, target, floor, cap);
    assert a > LowerAmount(coins, target, floor, cap);
    if a != target && Accepted(coins, a, floor, cap) {
      TransferAccepted(coins, a, floor, cap);
      var q :| Pays(coins, cap, q, a);
      if a > target {
        AboveIsNext(coins, target, floor, cap, q);
      } else {
        LowerIsNext(coins, target, floor, cap, q);
      }
    }
  }

  /** A workable amount, accepted as soon as the EXACT walk for it has budget left. */
  ghost predicate Payable(coins: seq<int>, amount: int, floor: int, cap: nat) {
    && Workable(coins, amount, floor, cap)
    && (Search(coins, amount, floor, cap, Exact).budget > 0 ==> Accepted(coins, amount, floor, cap))
  }

  /** For every target refused inside the change band, whatever the budget: the target lies strictly below
      the reach and less than the floor away from it, an amount above exists, and every amount named is
      payable. When the two walks that look for the amounts have budget left, nothing between them is
      accepted. */
  lemma {:induction false} NearestIsTight(coins: seq<int>, target: int, floor: int, cap: nat)
    requires Wallet(coins, floor) && Deep(coins, cap)
    requires RefusedInBand(coins, target, floor, cap)
    ensures target < Reachable(coins, cap) < target + floor
    ensures var alt := Nearest(coins, target, floor, cap);
            && alt.above.Some? && alt.above.value > target && Payable(coins, alt.above.value, floor, cap)
            && (alt.below.Some? ==> floor <= alt.below.value < target && Payable(coins, alt.below.value, floor, cap))
    ensures Search(coins, target, floor, cap, Above).budget > 0 && Search(coins, target, floor, cap, Below).budget > 0
        ==> forall a :: Between(Nearest(coins, target, floor, cap), floor, a) ==> !Accepted(coins, a, floor, cap)
  {
    var alt := Nearest(coins, target, floor, cap);
    BandFacts(coins, target, floor, cap);
    AboveExists(coins, target, floor, cap);
    AboveIsWorth(coins, target, floor, cap);
    TransferAccepted(coins, alt.above.value, floor, cap);
    if alt.below.Some? {
      LowerIsWorth(coins, target, floor, cap);
      TransferAccepted(coins, alt.below.value, floor, cap);
    }
    if Search(coins, target, floor, cap, Above).budget > 0 && Search(coins, target, floor, cap, Below).budget > 0 {
      forall a | Between(alt, floor, a)
        ensures !Accepted(coins, a, floor, cap)
      {
        NothingBetween(coins, target, floor, cap, a);
      }
    }
  }

  /** In a wallet of at most 17 coins no walk runs out: the amounts named are accepted, and nothing
      between them is. */
  lemma {:induction false} SmallNearestIsTight(coins: seq<int>, target: int, floor: int, cap: nat)
    requires Wallet(coins, floor) && |coins| <= 17
    requires RefusedInBand(coins, target, floor, cap)
    ensures var alt := Nearest(coins, target, floor, cap);
            && alt.above.Some? && alt.above.value > target && Accepted(coins, alt.above.value, floor, cap)
            && (alt.below.Some? ==> floor <= alt.below.value < target && Accepted(coins, alt.below.value, floor, cap))
            && forall a :: Between(alt, floor, a) ==> !Accepted(coins, a, floor, cap)
  {
    var alt := Nearest(coins, target, floor, cap);
    NearestIsTight(coins, target, floor, cap);
    SmallWallet(coins, target, floor, cap, Above);
    SmallWallet(coins, target, floor, cap, Below);
    SmallWallet(coins, alt.above.value, floor, cap, Exact);
    if alt.below.Some? {
      SmallWallet(coins, alt.below.value, floor, cap, Exact);
    }
  }
}
