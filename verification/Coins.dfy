/** UTXO classes, the classifier, the balances and the selection of YEC inputs. */
module Coins {
  import opened Wrappers
  import opened Sequences
  import opened Ranking
  import opened Choices
  import opened Bytes
  import opened Script
  import opened Transactions

  const TOKEN_VALUE: int := 10_000
  const FEE_ZAT: int := 1_000
  const RESERVE_K: int := 5
  const RESERVE_MIN: int := 105_000

  function ReserveZat(): (r: int)
    ensures r == 105_000
  {
    var k := RESERVE_K * (FEE_ZAT + 2 * TOKEN_VALUE);
    if k > RESERVE_MIN then k else RESERVE_MIN
  }

  datatype UtxoClass =
    | Yec | FeeReserve | Token | PendingToken | Vault | Carrier | UnknownP2sh | Held | PqOwned | Foreign
  {
    predicate YecSpendable() {
      Yec? || FeeReserve?
    }

    predicate TransferSpendable() {
      Token? || Yec? || FeeReserve?
    }

    predicate MintSpendable() {
      YecSpendable() || Carrier?
    }

    predicate RedeemSpendable() {
      Vault? || Token?
    }

    predicate ClaimSpendable() {
      Token? || Carrier? || YecSpendable()
    }
  }

  datatype Utxo = Utxo(outpoint: OutPoint, script: seq<Byte>, value: int, kind: UtxoClass, cents: nat)

  datatype CoinError = Insufficient(need: int, have: int)

  type OwnKey = seq<Byte> -> bool

  /** The class of an output the server listed for an own address, and its YED cents. */
  function Classify(outpoint: OutPoint, script: seq<Byte>, value: int, isOwnKey: OwnKey, tokens: map<OutPoint, nat>)
    : (UtxoClass, nat)
  {
    if P2shHash(script).Some? then (UnknownP2sh, 0)
    else
      match P2pkhHash(script)
      case Some(h) =>
        if !isOwnKey(h) then (Foreign, 0)
        else if value == TOKEN_VALUE then (if outpoint in tokens then (Token, tokens[outpoint]) else (Held, 0))
        else if outpoint in tokens then (Held, 0)
        else (Yec, 0)
      case None => (Foreign, 0)
  }

  /** An output paid to a P2PKH key of the wallet. */
  predicate IsOwn(script: seq<Byte>, isOwnKey: OwnKey) {
    P2pkhHash(script).Some? && isOwnKey(P2pkhHash(script).value)
  }

  /** When each class is given: an own output is a token exactly when it is listed and has the token
      value, YEC exactly when it is neither, and held when the two disagree. */
  lemma {:induction false} ClassifyExactly(
      outpoint: OutPoint, script: seq<Byte>, value: int, isOwnKey: OwnKey, tokens: map<OutPoint, nat>)
    ensures var (kind, cents) := Classify(outpoint, script, value, isOwnKey, tokens);
            var own, listed := IsOwn(script, isOwnKey), outpoint in tokens;
            && (kind == Token <==> own && listed && value == TOKEN_VALUE)
            && (kind == Yec <==> own && !listed && value != TOKEN_VALUE)
            && (kind == Held <==> own && listed != (value == TOKEN_VALUE))
            && (kind == UnknownP2sh <==> P2shHash(script).Some?)
            && (kind == Foreign <==> !own && P2shHash(script).None?)
            && cents == if kind == Token then tokens[outpoint] else 0
  {
  }

  // ---------------------------------------------------------------- sort keys

  function TxidKey(b: seq<Byte>): (r: Key)
    ensures |r| == |b|
  {
    seq(|b|, i requires 0 <= i < |b| => b[i] as int)
  }

  function UtxoKey(u: Utxo): Key {
    [u.value] + TxidKey(u.outpoint.txid) + [u.outpoint.n as int]
  }

  function PoolKey(u: Utxo): Key {
    [if u.kind != FeeReserve then 1 else 0] + UtxoKey(u)
  }

  function Values(utxos: seq<Utxo>): (r: seq<int>)
    ensures |r| == |utxos|
    ensures forall i :: 0 <= i < |utxos| ==> r[i] == utxos[i].value
  {
    seq(|utxos|, i requires 0 <= i < |utxos| => utxos[i].value)
  }

  predicate Usable(u: Utxo, useReserve: bool) {
    u.kind == Yec || (useReserve && u.kind == FeeReserve)
  }

  /** The positions, ascending, of the outputs an operation may use. */
  function Pool(utxos: seq<Utxo>, useReserve: bool): (q: seq<nat>)
    ensures Within(q, |utxos|)
  {
    if utxos == [] then []
    else
      var k := |utxos| - 1;
      var q := Pool(utxos[..k], useReserve);
      if Usable(utxos[k], useReserve) then q + [k] else q
  }

  lemma {:induction false} PoolFacts(utxos: seq<Utxo>, useReserve: bool)
    ensures Ascending(Pool(utxos, useReserve), |utxos|)
    ensures forall i :: 0 <= i < |utxos| ==> (i in Pool(utxos, useReserve) <==> Usable(utxos[i], useReserve))
  {
    if utxos != [] {
      var k := |utxos| - 1;
      PoolFacts(utxos[..k], useReserve);
      assert forall i :: 0 <= i < k ==> utxos[..k][i] == utxos[i];
    }
  }

  function PoolKeys(utxos: seq<Utxo>, q: seq<nat>): (r: seq<Key>)
    requires Within(q, |utxos|)
    ensures |r| == |q| && forall i :: 0 <= i < |q| ==> r[i] == PoolKey(utxos[q[i]])
  {
    seq(|q|, i requires 0 <= i < |q| => PoolKey(utxos[q[i]]))
  }

  /** The pool in the order (reserve first, value, txid, output), ties by position. */
  function PoolOrder(utxos: seq<Utxo>, useReserve: bool): (r: seq<nat>)
    ensures Within(r, |utxos|)
  {
    var q := Pool(utxos, useReserve);
    At(q, Rank(PoolKeys(utxos, q)))
  }

  lemma {:induction false} PoolOrderFacts(utxos: seq<Utxo>, useReserve: bool)
    ensures var r := PoolOrder(utxos, useReserve);
            && Distinct(r)
            && (forall i :: 0 <= i < |utxos| ==> (i in r <==> Usable(utxos[i], useReserve)))
            && (forall i, j :: 0 <= i < j < |r| ==> LexLe(PoolKey(utxos[r[i]]), PoolKey(utxos[r[j]])))
  {
    var q := Pool(utxos, useReserve);
    var keys := PoolKeys(utxos, q);
    var r := PoolOrder(utxos, useReserve);
    PoolFacts(utxos, useReserve);
    forall i, j | 0 <= i < j < |r|
      ensures r[i] != r[j] && LexLe(PoolKey(utxos[r[i]]), PoolKey(utxos[r[j]]))
    {
      SortedByKey(keys, q, i, j);
    }
    forall i | 0 <= i < |utxos|
      ensures i in r <==> i in q
    {
      SortedMembers(keys, q, i);
    }
  }

  /** Within one class the pool runs from the smallest value up, and the reserve comes first. */
  lemma {:induction false} PoolOrderValues(utxos: seq<Utxo>, useReserve: bool, i: nat, j: nat)
    requires i < j < |PoolOrder(utxos, useReserve)|
    ensures var r := PoolOrder(utxos, useReserve);
            var a, b := utxos[r[i]], utxos[r[j]];
            && (a.kind == b.kind ==> a.value <= b.value)
            && (b.kind == FeeReserve ==> a.kind == FeeReserve)
  {
    PoolOrderFacts(utxos, useReserve);
    var r := PoolOrder(utxos, useReserve);
    var a, b := utxos[r[i]], utxos[r[j]];
    assert LexLe(PoolKey(a), PoolKey(b));
    assert PoolKey(a)[1..] == UtxoKey(a) && PoolKey(b)[1..] == UtxoKey(b);
    if a.kind == b.kind {
      assert LexLe(UtxoKey(a), UtxoKey(b));
      assert UtxoKey(a)[0] == a.value && UtxoKey(b)[0] == b.value;
    }
  }

  /** The bytes of `a` come first where the two part. */
  ghost predicate BytesLess(a: seq<Byte>, b: seq<Byte>, k: nat) {
    k < |a| && k < |b| && a[..k] == b[..k] && a[k] < b[k]
  }

  /** By txid, byte by byte, and then by output number. */
  ghost predicate OutPointLe(a: OutPoint, b: OutPoint) {
    (exists k :: BytesLess(a.txid, b.txid, k)) || (a.txid == b.txid && a.n <= b.n)
  }

  /** The order of the pool: the reserve first, then by value, then by outpoint. */
  ghost predicate RowLe(a: Utxo, b: Utxo) {
    if (a.kind == FeeReserve) != (b.kind == FeeReserve) then a.kind == FeeReserve
    else a.value < b.value || (a.value == b.value && OutPointLe(a.outpoint, b.outpoint))
  }

  lemma {:induction false} LexBytes(a: seq<Byte>, b: seq<Byte>, m: int, n: int)
    requires |a| == |b| && LexLe(TxidKey(a) + [m], TxidKey(b) + [n])
    ensures (exists k :: BytesLess(a, b, k)) || (a == b && m <= n)
  {
    if a == [] {
      assert [m][1..] == [] && [n][1..] == [];
    } else if a[0] < b[0] {
      assert BytesLess(a, b, 0);
    } else {
      var x, y := TxidKey(a) + [m], TxidKey(b) + [n];
      assert x[1..] == TxidKey(a[1..]) + [m] && y[1..] == TxidKey(b[1..]) + [n];
      LexBytes(a[1..], b[1..], m, n);
      assert a == [a[0]] + a[1..] && b == [b[0]] + b[1..];
      if k: nat :| BytesLess(a[1..], b[1..], k) {
        assert a[..k + 1] == [a[0]] + a[1..][..k] && b[..k + 1] == [b[0]] + b[1..][..k];
        assert BytesLess(a, b, k + 1);
      }
    }
  }

  lemma {:induction false} KeyIsRowLe(a: Utxo, b: Utxo)
    requires LexLe(PoolKey(a), PoolKey(b))
    ensures RowLe(a, b)
  {
    assert PoolKey(a)[1..] == UtxoKey(a) && PoolKey(b)[1..] == UtxoKey(b);
    if (a.kind == FeeReserve) == (b.kind == FeeReserve) && a.value == b.value {
      var x, y := UtxoKey(a), UtxoKey(b);
      assert x[1..] == TxidKey(a.outpoint.txid) + [a.outpoint.n as int];
      assert y[1..] == TxidKey(b.outpoint.txid) + [b.outpoint.n as int];
      LexBytes(a.outpoint.txid, b.outpoint.txid, a.outpoint.n, b.outpoint.n);
    }
  }

  /** The pool lists the usable rows, each once, reserve first, then by value, txid and output number. */
  lemma {:induction false} PoolOrderIs(utxos: seq<Utxo>, useReserve: bool, i: nat, j: nat)
    requires i < j < |PoolOrder(utxos, useReserve)|
    ensures var r := PoolOrder(utxos, useReserve); r[i] != r[j] && RowLe(utxos[r[i]], utxos[r[j]])
  {
    var r := PoolOrder(utxos, useReserve);
    PoolOrderFacts(utxos, useReserve);
    KeyIsRowLe(utxos[r[i]], utxos[r[j]]);
  }

  // ---------------------------------------------------------------- balances

  /** The values of one class, zero elsewhere. */
  ghost function Part(utxos: seq<Utxo>, kind: UtxoClass): (r: seq<int>)
    ensures |r| == |utxos|
  {
    seq(|utxos|, i requires 0 <= i < |utxos| => if utxos[i].kind == kind then utxos[i].value else 0)
  }

  ghost function Balance(utxos: seq<Utxo>, kind: UtxoClass): int {
    Sum(Part(utxos, kind))
  }

  method YecBalances(utxos: seq<Utxo>) returns (available: int, reserved: int)
    ensures available == Balance(utxos, Yec) && reserved == Balance(utxos, FeeReserve)
  {
    available, reserved := 0, 0;
    for i := 0 to |utxos|
      invariant available == Top(Part(utxos, Yec), i) && reserved == Top(Part(utxos, FeeReserve), i)
    {
      match utxos[i].kind {
        case Yec => available := available + utxos[i].value;
        case FeeReserve => reserved := reserved + utxos[i].value;
        case _ =>
      }
    }
  }

  lemma {:induction false} TopAdds(a: seq<int>, b: seq<int>, c: seq<int>, k: nat)
    requires k <= |a| == |b| == |c|
    requires forall i :: 0 <= i < k ==> c[i] == a[i] + b[i]
    ensures Top(c, k) == Top(a, k) + Top(b, k)
  {
    if k > 0 {
      TopAdds(a, b, c, k - 1);
    }
  }

  /** What the pool is worth is what the balances report. */
  lemma {:induction false} PoolWorth(utxos: seq<Utxo>, useReserve: bool)
    ensures SumAt(Values(utxos), PoolOrder(utxos, useReserve))
         == Balance(utxos, Yec) + if useReserve then Balance(utxos, FeeReserve) else 0
  {
    var r, vals := PoolOrder(utxos, useReserve), Values(utxos);
    PoolOrderFacts(utxos, useReserve);
    MaskedSum(vals, r);
    var m := Masked(vals, Elements(r));
    if useReserve {
      TopAdds(Part(utxos, Yec), Part(utxos, FeeReserve), m, |utxos|);
    } else {
      assert m == Part(utxos, Yec);
    }
  }

  // ---------------------------------------------------------------- selecting YEC inputs

  /** The shortest prefix of `order`, longer than `k`, worth at least `needed`. */
  ghost function ShortestPrefix(vals: seq<int>, order: seq<nat>, needed: int, k: nat): (m: Option<nat>)
    requires Within(order, |vals|) && k <= |order|
    ensures m.Some? ==> k < m.value <= |order|
    decreases |order| - k
  {
    if k == |order| then None
    else if SumAt(vals, order[..k + 1]) >= needed then Some(k + 1)
    else ShortestPrefix(vals, order, needed, k + 1)
  }

  lemma {:induction false} ShortestPrefixFacts(vals: seq<int>, order: seq<nat>, needed: int, k: nat)
    requires Within(order, |vals|) && k <= |order|
    ensures match ShortestPrefix(vals, order, needed, k)
            case Some(m) =>
              && SumAt(vals, order[..m]) >= needed
              && forall j :: k < j < m ==> SumAt(vals, order[..j]) < needed
            case None => forall j :: k < j <= |order| ==> SumAt(vals, order[..j]) < needed
    decreases |order| - k
  {
    if k < |order| && SumAt(vals, order[..k + 1]) < needed {
      ShortestPrefixFacts(vals, order, needed, k + 1);
    }
  }

  /** The shortest prefix of `order` that covers the need, as rows. */
  ghost function Covering(utxos: seq<Utxo>, order: seq<nat>, needed: int): Result<seq<Utxo>, CoinError>
    requires Within(order, |utxos|)
  {
    match ShortestPrefix(Values(utxos), order, needed, 0)
    case Some(m) => Ok(At(utxos, order[..m]))
    case None => Err(Insufficient(needed, SumAt(Values(utxos), order)))
  }

  ghost function YecSelection(utxos: seq<Utxo>, needed: int, useReserve: bool): Result<seq<Utxo>, CoinError> {
    if needed <= 0 then Ok([]) else Covering(utxos, PoolOrder(utxos, useReserve), needed)
  }

  lemma {:induction false} OneMoreInput(utxos: seq<Utxo>, order: seq<nat>, k: nat)
    requires Within(order, |utxos|) && k < |order|
    ensures At(utxos, order[..k + 1]) == At(utxos, order[..k]) + [utxos[order[k]]]
    ensures SumAt(Values(utxos), order[..k + 1]) == SumAt(Values(utxos), order[..k]) + utxos[order[k]].value
  {
    assert order[..k + 1] == order[..k] + [order[k]];
    SumAtAppend(Values(utxos), order[..k], order[k]);
  }

  method TakeInOrder(utxos: seq<Utxo>, order: seq<nat>, needed: int) returns (r: Result<seq<Utxo>, CoinError>)
    requires Within(order, |utxos|)
    ensures r == Covering(utxos, order, needed)
  {
    ghost var vals := Values(utxos);
    var selected, total := [], 0;
    for k := 0 to |order|
      invariant selected == At(utxos, order[..k])
      invariant total == SumAt(vals, order[..k])
      invariant ShortestPrefix(vals, order, needed, k) == ShortestPrefix(vals, order, needed, 0)
    {
      OneMoreInput(utxos, order, k);
      selected := selected + [utxos[order[k]]];
      total := total + utxos[order[k]].value;
      if total >= needed {
        return Ok(selected);
      }
    }
    assert order[..|order|] == order;
    return Err(Insufficient(needed, total));
  }

  method SelectYec(utxos: seq<Utxo>, needed: int, useReserve: bool) returns (r: Result<seq<Utxo>, CoinError>)
    ensures r == YecSelection(utxos, needed, useReserve)
  {
    if needed <= 0 {
      return Ok([]);
    }
    r := TakeInOrder(utxos, PoolOrder(utxos, useReserve), needed);
  }

  lemma {:induction false} PartNonNegative(utxos: seq<Utxo>, kind: UtxoClass)
    requires NonNegative(Values(utxos))
    ensures Balance(utxos, kind) >= 0
  {
    assert forall i :: 0 <= i < |utxos| ==> Values(utxos)[i] >= 0;
    TopMonotone(Part(utxos, kind), 0, |utxos|);
  }

  lemma {:induction false} PrefixGrows(vals: seq<int>, q: seq<nat>, m: nat)
    requires NonNegative(vals) && Within(q, |vals|) && m <= |q|
    ensures SumAt(vals, q[..m]) <= SumAt(vals, q)
    decreases |q| - m
  {
    if m == |q| {
      assert q[..m] == q;
    } else {
      PrefixGrows(vals, q, m + 1);
      assert q[..m + 1] == q[..m] + [q[m]];
      SumAtAppend(vals, q[..m], q[m]);
    }
  }

  /** YEC selection fails exactly when the need exceeds what the balances report. */
  lemma {:induction false} SelectionFailsIff(utxos: seq<Utxo>, needed: int, useReserve: bool)
    requires NonNegative(Values(utxos))
    ensures var have := Balance(utxos, Yec) + if useReserve then Balance(utxos, FeeReserve) else 0;
            if needed > have then YecSelection(utxos, needed, useReserve) == Err(Insufficient(needed, have))
            else YecSelection(utxos, needed, useReserve).Ok?
  {
    var order, vals := PoolOrder(utxos, useReserve), Values(utxos);
    PoolWorth(utxos, useReserve);
    ShortestPrefixFacts(vals, order, needed, 0);
    assert order[..|order|] == order;
    PartNonNegative(utxos, Yec);
    PartNonNegative(utxos, FeeReserve);
    forall m | 0 <= m <= |order|
      ensures SumAt(vals, order[..m]) <= SumAt(vals, order)
    {
      PrefixGrows(vals, order, m);
    }
    if order == [] {
      assert SumAt(vals, order) == 0;
    }
  }

  /** A selection holds only usable rows of the table. */
  lemma {:induction false} SelectionUsable(utxos: seq<Utxo>, needed: int, useReserve: bool, u: Utxo)
    requires YecSelection(utxos, needed, useReserve).Ok? && u in YecSelection(utxos, needed, useReserve).value
    ensures u in utxos && Usable(u, useReserve)
  {
    var order := PoolOrder(utxos, useReserve);
    PoolOrderFacts(utxos, useReserve);
    var sel := YecSelection(utxos, needed, useReserve).value;
    var k :| 0 <= k < |sel| && sel[k] == u;
    assert u == utxos[order[k]] && order[k] in order;
  }

  lemma {:induction false} SelectionWorth(utxos: seq<Utxo>, q: seq<nat>)
    requires Within(q, |utxos|)
    ensures SumAt(Values(utxos), q) == Sum(Values(At(utxos, q)))
  {
    SumAtIsSum(Values(utxos), q);
    assert At(Values(utxos), q) == Values(At(utxos, q));
  }

  lemma {:induction false} CoveringIsTight(utxos: seq<Utxo>, order: seq<nat>, needed: int)
    requires Within(order, |utxos|) && needed > 0 && Covering(utxos, order, needed).Ok?
    ensures var sel := Covering(utxos, order, needed).value;
            sel != [] && Sum(Values(sel)) >= needed && Sum(Values(sel[..|sel| - 1])) < needed
  {
    var vals := Values(utxos);
    var m := ShortestPrefix(vals, order, needed, 0).value;
    ShortestPrefixFacts(vals, order, needed, 0);
    SelectionWorth(utxos, order[..m]);
    SelectionWorth(utxos, order[..m - 1]);
    assert At(utxos, order[..m])[..m - 1] == At(utxos, order[..m - 1]);
    assert m > 1 ==> SumAt(vals, order[..m - 1]) < needed;
  }

  /** A selection covers the need, and no row of it can be spared from the end. */
  lemma {:induction false} SelectionIsTight(utxos: seq<Utxo>, needed: int, useReserve: bool)
    requires needed > 0 && YecSelection(utxos, needed, useReserve).Ok?
    ensures var sel := YecSelection(utxos, needed, useReserve).value;
            sel != [] && Sum(Values(sel)) >= needed && Sum(Values(sel[..|sel| - 1])) < needed
  {
    CoveringIsTight(utxos, PoolOrder(utxos, useReserve), needed);
  }

  lemma {:induction false} RankOf(utxos: seq<Utxo>, useReserve: bool, i: nat) returns (k: nat)
    requires i < |utxos| && Usable(utxos[i], useReserve)
    ensures k < |PoolOrder(utxos, useReserve)| && PoolOrder(utxos, useReserve)[k] == i
  {
    var order := PoolOrder(utxos, useReserve);
    PoolOrderFacts(utxos, useReserve);
    assert i in order;
    k :| 0 <= k < |order| && order[k] == i;
  }

  lemma {:induction false} ReserveFirst(utxos: seq<Utxo>, taken: seq<nat>, y: nat)
    requires taken <= PoolOrder(utxos, true) && y < |taken| && utxos[taken[y]].kind == Yec
    ensures forall i :: 0 <= i < |utxos| && utxos[i].kind == FeeReserve ==> utxos[i] in At(utxos, taken)
  {
    forall i | 0 <= i < |utxos| && utxos[i].kind == FeeReserve
      ensures utxos[i] in At(utxos, taken)
    {
      var k := RankOf(utxos, true, i);
      if k > y {
        PoolOrderValues(utxos, true, y, k);
      }
      assert At(utxos, taken)[k] == utxos[i];
    }
  }

  /** When the reserve is allowed, a YEC row is selected only once the whole reserve is in. */
  lemma {:induction false} SelectionReserveFirst(utxos: seq<Utxo>, needed: int, u: Utxo)
    requires YecSelection(utxos, needed, true).Ok? && u in YecSelection(utxos, needed, true).value && u.kind == Yec
    ensures forall i :: 0 <= i < |utxos| && utxos[i].kind == FeeReserve
              ==> utxos[i] in YecSelection(utxos, needed, true).value
  {
    var sel, order := YecSelection(utxos, needed, true).value, PoolOrder(utxos, true);
    var y :| 0 <= y < |sel| && sel[y] == u;
    ReserveFirst(utxos, order[..|sel|], y);
  }

  /** Smallest first: a selected row is worth no more than an unselected one of its class. */
  lemma {:induction false} SelectionSmallest(utxos: seq<Utxo>, needed: int, useReserve: bool, u: Utxo, j: nat)
    requires YecSelection(utxos, needed, useReserve).Ok? && u in YecSelection(utxos, needed, useReserve).value
    requires j < |utxos| && utxos[j] !in YecSelection(utxos, needed, useReserve).value
    requires Usable(utxos[j], useReserve) && utxos[j].kind == u.kind
    ensures u.value <= utxos[j].value
  {
    var sel, order := YecSelection(utxos, needed, useReserve).value, PoolOrder(utxos, useReserve);
    var a :| 0 <= a < |sel| && sel[a] == u;
    var b := RankOf(utxos, useReserve, j);
    PoolOrderValues(utxos, useReserve, a, b);
  }

  /** A selection is listed in the order of the pool; nothing is selected for nothing. */
  lemma {:induction false} SelectionOrdered(utxos: seq<Utxo>, needed: int, useReserve: bool)
    requires YecSelection(utxos, needed, useReserve).Ok?
    ensures var sel := YecSelection(utxos, needed, useReserve).value;
            (needed <= 0 ==> sel == []) && forall i, j :: 0 <= i < j < |sel| ==> RowLe(sel[i], sel[j])
  {
    var sel := YecSelection(utxos, needed, useReserve).value;
    forall i, j | 0 <= i < j < |sel|
      ensures RowLe(sel[i], sel[j])
    {
      PoolOrderIs(utxos, useReserve, i, j);
    }
  }
}
