/**
 From the server's listing to the broadcast gate: classify, reserve, select, check. YED is never
 spent as YEC.
 */
module Pipeline {
  import opened Wrappers
  import opened Transactions
  import opened Coins
  import opened FeeReserves
  import opened Gate
  import opened GatePaths

  /** Every row that YEC paths may spend is what the classifier gives. Rows of other classes come from
      elsewhere too, such as post-quantum tokens. */
  ghost predicate Built(table: seq<Utxo>, isOwnKey: OwnKey, tokens: map<OutPoint, nat>) {
    forall i :: 0 <= i < |table| && table[i].kind.YecSpendable() ==>
      var u := table[i]; (u.kind, u.cents) == Classify(u.outpoint, u.script, u.value, isOwnKey, tokens)
  }

  /** Table `i` of a run is the one before it with the reserve re-evaluated. */
  ghost predicate Reevaluates(run: seq<seq<Utxo>>, i: nat)
    requires 0 < i < |run|
  {
    run[i] == Reserved(run[i - 1])
  }

  /** The tables of a run that starts with a table as built and re-evaluates the reserve again and again. */
  ghost predicate ReserveRun(run: seq<seq<Utxo>>, isOwnKey: OwnKey, tokens: map<OutPoint, nat>) {
    run != [] && Built(run[0], isOwnKey, tokens) && forall i :: 0 < i < |run| ==> Reevaluates(run, i)
  }

  /** A row that may hold YED: listed by the server as a token, or exactly a token's value. */
  ghost predicate MayBeToken(u: Utxo, tokens: map<OutPoint, nat>) {
    u.outpoint in tokens || u.value == TOKEN_VALUE
  }

  /** `u` is row `v` with another class at most, and is no possible token if YEC paths may spend it. */
  ghost predicate SafeRow(u: Utxo, v: Utxo, tokens: map<OutPoint, nat>) {
    && u.outpoint == v.outpoint && u.value == v.value
    && (u.kind.YecSpendable() ==> !MayBeToken(u, tokens))
  }

  ghost predicate Safe(after: seq<Utxo>, table: seq<Utxo>, tokens: map<OutPoint, nat>) {
    |after| == |table| && forall i :: 0 <= i < |after| ==> SafeRow(after[i], table[i], tokens)
  }

  lemma {:induction false} BuiltIsSafe(table: seq<Utxo>, isOwnKey: OwnKey, tokens: map<OutPoint, nat>)
    requires Built(table, isOwnKey, tokens)
    ensures Safe(table, table, tokens)
  {
    forall i | 0 <= i < |table|
      ensures SafeRow(table[i], table[i], tokens)
    {
      var u := table[i];
      ClassifyExactly(u.outpoint, u.script, u.value, isOwnKey, tokens);
    }
  }

  ghost predicate RowFollows(u: Utxo, v: Utxo) {
    v == u || (v == u.(kind := v.kind) && u.kind.YecSpendable() && v.kind.YecSpendable())
  }

  /** The rows of `after` are those of `before`, their classes moved between YEC and reserve at most. */
  ghost predicate Follows(before: seq<Utxo>, after: seq<Utxo>) {
    |after| == |before| && forall i :: 0 <= i < |after| ==> RowFollows(before[i], after[i])
  }

  lemma {:induction false} ReservedFollows(before: seq<Utxo>)
    ensures Follows(before, Reserved(before))
  {
    forall i | 0 <= i < |before|
      ensures RowFollows(before[i], Reserved(before)[i])
    {
      ReservedRows(before, i);
    }
  }

  lemma {:induction false} FollowsKeepsSafe(
      before: seq<Utxo>, after: seq<Utxo>, table: seq<Utxo>, tokens: map<OutPoint, nat>)
    requires Safe(before, table, tokens) && Follows(before, after)
    ensures Safe(after, table, tokens)
  {
    forall i | 0 <= i < |after|
      ensures SafeRow(after[i], table[i], tokens)
    {
      assert SafeRow(before[i], table[i], tokens) && RowFollows(before[i], after[i]);
    }
  }

  ghost predicate StepFollows(run: seq<seq<Utxo>>, i: nat)
    requires 0 < i < |run|
  {
    Follows(run[i - 1], run[i])
  }

  lemma {:induction false} ReevaluationFollows(run: seq<seq<Utxo>>, i: nat)
    requires 0 < i < |run| && Reevaluates(run, i)
    ensures StepFollows(run, i)
  {
    ReservedFollows(run[i - 1]);
  }

  lemma {:induction false} FollowingIsSafe(run: seq<seq<Utxo>>, tokens: map<OutPoint, nat>, k: nat)
    requires k < |run| && Safe(run[0], run[0], tokens) && forall i :: 0 < i < |run| ==> StepFollows(run, i)
    ensures Safe(run[k], run[0], tokens)
    decreases k
  {
    if k == 0 {
    } else {
      FollowingIsSafe(run, tokens, k - 1);
      assert StepFollows(run, k);
      FollowsKeepsSafe(run[k - 1], run[k], run[0], tokens);
    }
  }

  /** What every table of a run keeps. */
  lemma {:induction false} RunIsSafe(run: seq<seq<Utxo>>, isOwnKey: OwnKey, tokens: map<OutPoint, nat>, k: nat)
    requires ReserveRun(run, isOwnKey, tokens) && k < |run|
    ensures Safe(run[k], run[0], tokens)
  {
    BuiltIsSafe(run[0], isOwnKey, tokens);
    forall i | 0 < i < |run|
      ensures StepFollows(run, i)
    {
      ReevaluationFollows(run, i);
    }
    FollowingIsSafe(run, tokens, k);
  }

  /** No selection of YEC inputs ever contains a possible token, whatever the need and however often
      the reserve was re-evaluated. */
  lemma {:induction false} NoTokenSelected(
      run: seq<seq<Utxo>>, isOwnKey: OwnKey, tokens: map<OutPoint, nat>, k: nat, needed: int, useReserve: bool, u: Utxo)
    requires ReserveRun(run, isOwnKey, tokens) && k < |run|
    requires YecSelection(run[k], needed, useReserve).Ok?
    requires u in YecSelection(run[k], needed, useReserve).value
    ensures u.outpoint !in tokens && u.value != TOKEN_VALUE
  {
    RunIsSafe(run, isOwnKey, tokens, k);
    SelectionUsable(run[k], needed, useReserve, u);
    var i :| 0 <= i < |run[k]| && run[k][i] == u;
    assert SafeRow(run[k][i], run[0][i], tokens);
  }

  // ---------------------------------------------------------------- through the gate

  /** The class of an outpoint in the wallet's table. */
  function Lookup(table: seq<Utxo>, op: OutPoint): Option<UtxoClass> {
    if table == [] then None
    else if table[0].outpoint == op then Some(table[0].kind)
    else Lookup(table[1..], op)
  }

  /** The table is keyed by outpoint. */
  ghost predicate Keyed(table: seq<Utxo>) {
    forall i, j :: 0 <= i < j < |table| ==> table[i].outpoint != table[j].outpoint
  }

  lemma {:induction false} SafeKeepsKeys(after: seq<Utxo>, table: seq<Utxo>, tokens: map<OutPoint, nat>)
    requires Safe(after, table, tokens) && Keyed(table)
    ensures Keyed(after)
  {
    forall i, j | 0 <= i < j < |after|
      ensures after[i].outpoint != after[j].outpoint
    {
      assert SafeRow(after[i], table[i], tokens) && SafeRow(after[j], table[j], tokens);
    }
  }

  lemma {:induction false} LookupFinds(table: seq<Utxo>, i: nat)
    requires Keyed(table) && i < |table|
    ensures Lookup(table, table[i].outpoint) == Some(table[i].kind)
  {
    if i > 0 {
      LookupFinds(table[1..], i - 1);
    }
  }

  function Outpoints(utxos: seq<Utxo>): (r: seq<OutPoint>)
    ensures |r| == |utxos|
  {
    seq(|utxos|, i requires 0 <= i < |utxos| => utxos[i].outpoint)
  }

  /** Every nonempty selection, spent by a transparent transaction without OP_RETURN, passes the gate
      on the YEC path. */
  lemma {:induction false} SelectionPassesGate(table: seq<Utxo>, needed: int, useReserve: bool, tx: Transaction)
    requires Keyed(table) && needed > 0 && YecSelection(table, needed, useReserve).Ok?
    requires tx.vin == Outpoints(YecSelection(table, needed, useReserve).value)
    requires tx.shielded == Shielded(0, 0, 0) && NoOpReturn(tx)
    ensures Accepted(YecPath, tx, op => Lookup(table, op))
  {
    var sel := YecSelection(table, needed, useReserve).value;
    var classOf: Classifier := op => Lookup(table, op);
    SelectionIsTight(table, needed, useReserve);
    forall n | 0 <= n < |tx.vin|
      ensures classOf(tx.vin[n]) in {Some(Yec), Some(FeeReserve)}
    {
      SelectionUsable(table, needed, useReserve, sel[n]);
      var i :| 0 <= i < |table| && table[i] == sel[n];
      LookupFinds(table, i);
    }
    YecPathIff(tx, classOf);
  }

  /** End to end: from any listing, after any number of reserve re-evaluations, what is selected holds
      no possible token, and spending it passes the gate. */
  lemma {:induction false} YedIsNeverSpentAsYec(
      run: seq<seq<Utxo>>, isOwnKey: OwnKey, tokens: map<OutPoint, nat>, k: nat, needed: int, useReserve: bool,
      tx: Transaction)
    requires ReserveRun(run, isOwnKey, tokens) && Keyed(run[0]) && k < |run|
    requires needed > 0 && YecSelection(run[k], needed, useReserve).Ok?
    requires tx.vin == Outpoints(YecSelection(run[k], needed, useReserve).value)
    requires tx.shielded == Shielded(0, 0, 0) && NoOpReturn(tx)
    ensures Accepted(YecPath, tx, op => Lookup(run[k], op))
    ensures forall n :: 0 <= n < |tx.vin| ==> tx.vin[n] !in tokens
  {
    RunIsSafe(run, isOwnKey, tokens, k);
    SafeKeepsKeys(run[k], run[0], tokens);
    SelectionPassesGate(run[k], needed, useReserve, tx);
    var sel := YecSelection(run[k], needed, useReserve).value;
    forall n | 0 <= n < |tx.vin|
      ensures tx.vin[n] !in tokens
    {
      NoTokenSelected(run, isOwnKey, tokens, k, needed, useReserve, sel[n]);
    }
  }
}
