/** The YEC set aside for YED fees: re-evaluated in place over the wallet's table. */
module FeeReserves {
  import opened Sequences
  import opened Choices
  import opened Coins

  /** Every reserved row back to YEC. */
  function Released(utxos: seq<Utxo>): (r: seq<Utxo>)
    ensures |r| == |utxos|
    ensures forall i :: 0 <= i < |r| ==>
              r[i] == if utxos[i].kind == FeeReserve then utxos[i].(kind := Yec) else utxos[i]
  {
    seq(|utxos|, i requires 0 <= i < |utxos| =>
      if utxos[i].kind == FeeReserve then utxos[i].(kind := Yec) else utxos[i])
  }

  /** How many rows of `order`, from `k` on with `covered` already reserved, the reserve takes. */
  function ReserveCount(vals: seq<int>, order: seq<nat>, k: nat, covered: int): (m: nat)
    requires Within(order, |vals|) && k <= |order|
    ensures k <= m <= |order|
    decreases |order| - k
  {
    if k == |order| || covered >= ReserveZat() || vals[order[k]] > ReserveZat() then k
    else ReserveCount(vals, order, k + 1, covered + vals[order[k]])
  }

  ghost function Marked(base: seq<Utxo>, chosen: set<nat>): (r: seq<Utxo>)
    ensures |r| == |base|
    ensures forall i :: 0 <= i < |r| ==> r[i] == if i in chosen then base[i].(kind := FeeReserve) else base[i]
  {
    seq(|base|, i requires 0 <= i < |base| => if i in chosen then base[i].(kind := FeeReserve) else base[i])
  }

  /** The rows the reserve takes, smallest first. */
  ghost function Taken(base: seq<Utxo>): (q: seq<nat>)
    ensures Within(q, |base|)
  {
    var order := PoolOrder(base, false);
    order[..ReserveCount(Values(base), order, 0, 0)]
  }

  ghost function Reserved(utxos: seq<Utxo>): (r: seq<Utxo>)
    ensures |r| == |utxos|
  {
    Marked(Released(utxos), Elements(Taken(Released(utxos))))
  }

  method Release(a: array<Utxo>)
    modifies a
    ensures a[..] == Released(old(a[..]))
  {
    for i := 0 to a.Length
      invariant forall j :: 0 <= j < i ==> a[j] == Released(old(a[..]))[j]
      invariant forall j :: i <= j < a.Length ==> a[j] == old(a[j])
    {
      if a[i].kind == FeeReserve {
        a[i] := a[i].(kind := Yec);
      }
    }
  }

  lemma {:induction false} ElementsAppend(order: seq<nat>, k: nat)
    requires Distinct(order) && k < |order|
    ensures Elements(order[..k + 1]) == Elements(order[..k]) + {order[k]}
    ensures order[k] !in Elements(order[..k])
  {
    assert order[..k + 1] == order[..k] + [order[k]];
  }

  method Mark(a: array<Utxo>, order: seq<nat>, ghost base: seq<Utxo>)
    requires a[..] == base && Within(order, a.Length) && Distinct(order)
    modifies a
    ensures a[..] == Marked(base, Elements(order[..ReserveCount(Values(base), order, 0, 0)]))
  {
    var covered, k := 0, 0;
    ghost var done: set<nat> := {};
    while k < |order|
      invariant k <= |order| && done == Elements(order[..k])
      invariant forall i :: 0 <= i < a.Length ==> a[i] == if i in done then base[i].(kind := FeeReserve) else base[i]
      invariant ReserveCount(Values(base), order, k, covered) == ReserveCount(Values(base), order, 0, 0)
    {
      ElementsAppend(order, k);
      var i := order[k];
      if covered >= ReserveZat() || a[i].value > ReserveZat() {
        break;
      }
      covered := covered + a[i].value;
      a[i] := a[i].(kind := FeeReserve);
      k, done := k + 1, done + {i};
    }
    assert k == ReserveCount(Values(base), order, 0, 0);
    assert a[..] == Marked(base, done);
  }

  method ApplyFeeReserve(a: array<Utxo>)
    modifies a
    ensures a[..] == Reserved(old(a[..]))
  {
    Release(a);
    ghost var base := a[..];
    var order := PoolOrder(a[..], false);
    PoolOrderFacts(base, false);
    Mark(a, order, base);
  }

  // ---------------------------------------------------------------- what the reserve keeps

  lemma {:induction false} TakenIsYec(base: seq<Utxo>, i: nat)
    requires i in Taken(base)
    ensures i < |base| && base[i].kind == Yec
  {
    PoolOrderFacts(base, false);
    assert i in PoolOrder(base, false);
  }

  /** Only YEC and reserved rows change, and only between those two classes. */
  lemma {:induction false} ReservedRows(utxos: seq<Utxo>, i: nat)
    requires i < |utxos|
    ensures Reserved(utxos)[i] == utxos[i].(kind := Reserved(utxos)[i].kind)
    ensures if utxos[i].kind.YecSpendable() then Reserved(utxos)[i].kind.YecSpendable()
            else Reserved(utxos)[i] == utxos[i]
  {
    if i in Taken(Released(utxos)) {
      TakenIsYec(Released(utxos), i);
    }
  }

  /** Re-evaluating the reserve changes nothing the second time. */
  lemma {:induction false} ReservedIsIdempotent(utxos: seq<Utxo>)
    ensures Reserved(Reserved(utxos)) == Reserved(utxos)
  {
    var base := Released(utxos);
    forall i | 0 <= i < |utxos|
      ensures Released(Reserved(utxos))[i] == base[i]
    {
      if i in Taken(base) {
        TakenIsYec(base, i);
      }
    }
    assert Released(Reserved(utxos)) == base;
  }

  ghost function Spendable(utxos: seq<Utxo>): (r: seq<int>)
    ensures |r| == |utxos|
  {
    seq(|utxos|, i requires 0 <= i < |utxos| => if utxos[i].kind.YecSpendable() then utxos[i].value else 0)
  }

  /** The reserve moves value between the two balances and loses none. */
  lemma {:induction false} ReservedConserves(utxos: seq<Utxo>)
    ensures Balance(Reserved(utxos), Yec) + Balance(Reserved(utxos), FeeReserve)
         == Balance(utxos, Yec) + Balance(utxos, FeeReserve)
  {
    var r := Reserved(utxos);
    TopAdds(Part(utxos, Yec), Part(utxos, FeeReserve), Spendable(utxos), |utxos|);
    TopAdds(Part(r, Yec), Part(r, FeeReserve), Spendable(r), |utxos|);
    forall i | 0 <= i < |utxos|
      ensures Spendable(utxos)[i] == Spendable(r)[i]
    {
      ReservedRows(utxos, i);
    }
    assert Spendable(utxos) == Spendable(r);
  }

  lemma {:induction false} ReserveCountFacts(vals: seq<int>, order: seq<nat>, k: nat, covered: int)
    requires Within(order, |vals|) && k <= |order|
    requires covered == SumAt(vals, order[..k]) && covered < 2 * ReserveZat()
    ensures var m := ReserveCount(vals, order, k, covered);
            && SumAt(vals, order[..m]) < 2 * ReserveZat()
            && (m < |order| ==> SumAt(vals, order[..m]) >= ReserveZat() || vals[order[m]] > ReserveZat())
    decreases |order| - k
  {
    if k == |order| || covered >= ReserveZat() || vals[order[k]] > ReserveZat() {
    } else {
      assert order[..k + 1] == order[..k] + [order[k]];
      SumAtAppend(vals, order[..k], order[k]);
      ReserveCountFacts(vals, order, k + 1, covered + vals[order[k]]);
    }
  }

  lemma {:induction false} ReservedWorth(utxos: seq<Utxo>)
    ensures var base := Released(utxos); Balance(Reserved(utxos), FeeReserve) == SumAt(Values(base), Taken(base))
  {
    var base, r := Released(utxos), Reserved(utxos);
    var q := Taken(base);
    PoolOrderFacts(base, false);
    MaskedSum(Values(base), q);
    var part, masked := Part(r, FeeReserve), Masked(Values(base), Elements(q));
    forall i | 0 <= i < |r|
      ensures part[i] == masked[i]
    {
      assert r[i] == if i in Elements(q) then base[i].(kind := FeeReserve) else base[i];
    }
    assert part == masked;
  }

  /** The reserve never reaches twice its size. */
  lemma {:induction false} ReservedIsBounded(utxos: seq<Utxo>)
    ensures Balance(Reserved(utxos), FeeReserve) < 2 * ReserveZat()
  {
    var base := Released(utxos);
    ReservedWorth(utxos);
    ReserveCountFacts(Values(base), PoolOrder(base, false), 0, 0);
  }

  lemma {:induction false} LastIsNeeded(vals: seq<int>, order: seq<nat>, k: nat, covered: int)
    requires Within(order, |vals|) && k <= |order| && covered == SumAt(vals, order[..k])
    requires k > 0 ==> SumAt(vals, order[..k - 1]) < ReserveZat()
    ensures var m := ReserveCount(vals, order, k, covered); m > 0 ==> SumAt(vals, order[..m - 1]) < ReserveZat()
    decreases |order| - k
  {
    if k == |order| || covered >= ReserveZat() || vals[order[k]] > ReserveZat() {
    } else {
      assert order[..k + 1] == order[..k] + [order[k]];
      SumAtAppend(vals, order[..k], order[k]);
      LastIsNeeded(vals, order, k + 1, covered + vals[order[k]]);
    }
  }

  lemma {:induction false} LastTaken(base: seq<Utxo>)
    requires Taken(base) != []
    ensures var q := Taken(base); SumAt(Values(base), q) - base[q[|q| - 1]].value < ReserveZat()
  {
    var vals, order, q := Values(base), PoolOrder(base, false), Taken(base);
    var k := |q| - 1;
    LastIsNeeded(vals, order, 0, 0);
    assert q[..k] == order[..k] && q == q[..k] + [q[k]];
    SumAtAppend(vals, q[..k], q[k]);
  }

  /** Nothing is reserved to spare: without one of its rows the reserve would be short. */
  lemma {:induction false} ReservedIsNeeded(utxos: seq<Utxo>) returns (i: nat)
    requires Balance(Reserved(utxos), FeeReserve) != 0
    ensures i < |utxos| && Reserved(utxos)[i].kind == FeeReserve
    ensures Balance(Reserved(utxos), FeeReserve) - utxos[i].value < ReserveZat()
  {
    var base := Released(utxos);
    var q := Taken(base);
    ReservedWorth(utxos);
    LastTaken(base);
    i := q[|q| - 1];
    assert i in Elements(q);
  }

  lemma {:induction false} LeftOver(base: seq<Utxo>, j: nat) returns (k: nat)
    requires j < |base| && base[j].kind == Yec && j !in Taken(base)
    ensures |Taken(base)| <= k < |PoolOrder(base, false)| && PoolOrder(base, false)[k] == j
  {
    var order := PoolOrder(base, false);
    PoolOrderFacts(base, false);
    assert j in order;
    k :| 0 <= k < |order| && order[k] == j;
  }

  lemma {:induction false} TakenFit(vals: seq<int>, order: seq<nat>, k: nat, covered: int, a: nat)
    requires Within(order, |vals|) && k <= |order| && k <= a < ReserveCount(vals, order, k, covered)
    ensures vals[order[a]] <= ReserveZat()
    decreases |order| - k
  {
    if k < a {
      TakenFit(vals, order, k + 1, covered + vals[order[k]], a);
    }
  }

  /** Smallest first: no reserved row is worth more than a row left as YEC. */
  lemma {:induction false} ReservedAreSmallest(utxos: seq<Utxo>, i: nat, j: nat)
    requires i < |utxos| && j < |utxos|
    requires Reserved(utxos)[i].kind == FeeReserve && Reserved(utxos)[j].kind == Yec
    ensures utxos[i].value <= utxos[j].value && utxos[i].value <= ReserveZat()
  {
    var base := Released(utxos);
    var q := Taken(base);
    assert i in q;
    var a :| 0 <= a < |q| && q[a] == i;
    var b := LeftOver(base, j);
    TakenIsYec(base, i);
    PoolOrderValues(base, false, a, b);
    TakenFit(Values(base), PoolOrder(base, false), 0, 0, a);
  }

  lemma {:induction false} OrderIsYec(base: seq<Utxo>, k: nat)
    requires k < |PoolOrder(base, false)|
    ensures base[PoolOrder(base, false)[k]].kind == Yec
  {
    PoolOrderFacts(base, false);
    assert PoolOrder(base, false)[k] in PoolOrder(base, false);
  }

  lemma {:induction false} NextIsLarge(base: seq<Utxo>)
    requires SumAt(Values(base), Taken(base)) < ReserveZat()
    ensures var m := |Taken(base)|;
            m < |PoolOrder(base, false)| ==> base[PoolOrder(base, false)[m]].value > ReserveZat()
  {
    ReserveCountFacts(Values(base), PoolOrder(base, false), 0, 0);
  }

  lemma {:induction false} LeftOverIsLarge(base: seq<Utxo>, j: nat)
    requires SumAt(Values(base), Taken(base)) < ReserveZat()
    requires j < |base| && base[j].kind == Yec && j !in Taken(base)
    ensures base[j].value > ReserveZat()
  {
    var b := LeftOver(base, j);
    var m := |Taken(base)|;
    NextIsLarge(base);
    if m < b {
      OrderIsYec(base, m);
      PoolOrderValues(base, false, m, b);
    }
  }

  /** The reserve falls short only when every row left as YEC exceeds the whole reserve. */
  lemma {:induction false} ShortOnlyWithoutSmall(utxos: seq<Utxo>, j: nat)
    requires Balance(Reserved(utxos), FeeReserve) < ReserveZat()
    requires j < |utxos| && Reserved(utxos)[j].kind == Yec
    ensures utxos[j].value > ReserveZat()
  {
    var base := Released(utxos);
    ReservedWorth(utxos);
    assert base[j].kind == Yec && base[j].value == utxos[j].value && j !in Taken(base);
    LeftOverIsLarge(base, j);
  }
}
