/** What each path of the gate accepts, with the classes it may spend written out. */
module GatePaths {
  import opened Wrappers
  import opened Script
  import opened Transactions
  import opened Payload
  import opened Coins
  import opened Gate

  /** No shielded part, and at least one input. */
  ghost predicate Transparent(tx: Transaction) {
    tx.shielded == Shielded(0, 0, 0) && tx.vin != []
  }

  /** Every input from `first` on is a known row of one of these classes. */
  ghost predicate Spends(tx: Transaction, classOf: Classifier, first: nat, classes: set<UtxoClass>) {
    forall n :: first <= n < |tx.vin| ==> classOf(tx.vin[n]).Some? && classOf(tx.vin[n]).value in classes
  }

  ghost predicate AllLawful(path: Path, tx: Transaction, classOf: Classifier) {
    forall n :: 0 <= n < |tx.vin| ==> LawfulInput(path, tx, classOf, n)
  }

  /** A path that names no input and spends no vault accepts inputs of its classes. */
  lemma {:induction false} InputsOf(path: Path, tx: Transaction, classOf: Classifier, classes: set<UtxoClass>)
    requires NamedInput(path).None? && Vault !in classes
    requires forall c :: Allows(path, c) <==> c in classes
    ensures AllLawful(path, tx, classOf) <==> Spends(tx, classOf, 0, classes)
  {
    forall n | 0 <= n < |tx.vin|
      ensures LawfulInput(path, tx, classOf, n)
         <==> classOf(tx.vin[n]).Some? && classOf(tx.vin[n]).value in classes
    {
    }
  }

  /** A path that names its first input accepts that one and inputs of its classes after it. */
  lemma {:induction false} InputsAfter(
      path: Path, tx: Transaction, classOf: Classifier, named: OutPoint, classes: set<UtxoClass>)
    requires NamedInput(path) == Some(named) && tx.vin != [] && Vault !in classes
    requires forall c :: Allows(path, c) <==> c in classes
    ensures AllLawful(path, tx, classOf) <==> tx.vin[0] == named && Spends(tx, classOf, 1, classes)
  {
    forall n | 0 < n < |tx.vin|
      ensures LawfulInput(path, tx, classOf, n)
         <==> classOf(tx.vin[n]).Some? && classOf(tx.vin[n]).value in classes
    {
    }
    assert LawfulInput(path, tx, classOf, 0) <==> tx.vin[0] == named;
  }

  lemma {:induction false} TransparentIff(path: Path, tx: Transaction, classOf: Classifier)
    requires path != ShieldPath && path != ShieldedPath
    ensures Accepted(path, tx, classOf)
       <==> Transparent(tx) && AllLawful(path, tx, classOf) && LawfulShape(path, tx, classOf)
  {
    AcceptedIffLawful(path, tx, classOf);
  }

  lemma {:induction false} YecPathIff(tx: Transaction, classOf: Classifier)
    ensures Accepted(YecPath, tx, classOf)
       <==> Transparent(tx) && Spends(tx, classOf, 0, {Yec, FeeReserve}) && NoOpReturn(tx)
  {
    TransparentIff(YecPath, tx, classOf);
    InputsOf(YecPath, tx, classOf, {Yec, FeeReserve});
  }

  lemma {:induction false} TokenSpent(tx: Transaction, classOf: Classifier)
    ensures SpendsToken(YedTransferPath, tx, classOf)
       <==> exists n :: 0 <= n < |tx.vin| && classOf(tx.vin[n]) == Some(Token)
  {
    forall n | 0 <= n < |tx.vin|
      ensures HasClass(YedTransferPath, tx, classOf, n, Token) <==> classOf(tx.vin[n]) == Some(Token)
    {
    }
  }

  lemma {:induction false} TransferPathIff(tx: Transaction, classOf: Classifier)
    ensures Accepted(YedTransferPath, tx, classOf)
       <==> && Transparent(tx) && Spends(tx, classOf, 0, {Token, Yec, FeeReserve})
            && CarriesType(tx, TransferType)
            && exists n :: 0 <= n < |tx.vin| && classOf(tx.vin[n]) == Some(Token)
  {
    TransparentIff(YedTransferPath, tx, classOf);
    InputsOf(YedTransferPath, tx, classOf, {Token, Yec, FeeReserve});
    TokenSpent(tx, classOf);
  }

  lemma {:induction false} CarrierPathIff(tx: Transaction, classOf: Classifier)
    ensures Accepted(CarrierPath, tx, classOf)
       <==> && Transparent(tx) && Spends(tx, classOf, 0, {Yec, FeeReserve}) && NoOpReturn(tx)
            && tx.vout != [] && tx.vout[0].value == 10_000 && P2shHash(tx.vout[0].script).Some?
  {
    TransparentIff(CarrierPath, tx, classOf);
    InputsOf(CarrierPath, tx, classOf, {Yec, FeeReserve});
  }

  /** The last input is a carrier and those between `first` and it are of the other classes. */
  ghost predicate CarrierLast(tx: Transaction, classOf: Classifier, first: nat, others: set<UtxoClass>) {
    var last := |tx.vin| - 1;
    && first <= last && classOf(tx.vin[last]) == Some(Carrier)
    && forall n :: first <= n < last ==> classOf(tx.vin[n]).Some? && classOf(tx.vin[n]).value in others
  }

  lemma {:induction false} CarrierLastIff(
      path: Path, tx: Transaction, classOf: Classifier, first: nat, others: set<UtxoClass>)
    requires tx.vin != [] && Carrier !in others && first <= 1
    requires forall n :: 0 <= n < |tx.vin| ==> (Classified(path, n) <==> first <= n)
    ensures Spends(tx, classOf, first, others + {Carrier}) && OneCarrierLast(path, tx, classOf)
       <==> CarrierLast(tx, classOf, first, others)
  {
    var last := |tx.vin| - 1;
    assert HasClass(path, tx, classOf, last, Carrier) <==> first <= last && classOf(tx.vin[last]) == Some(Carrier);
    forall n | 0 <= n < last
      ensures HasClass(path, tx, classOf, n, Carrier) <==> first <= n && classOf(tx.vin[n]) == Some(Carrier)
    {
    }
  }

  lemma {:induction false} MintPathIff(tx: Transaction, classOf: Classifier)
    ensures Accepted(MintPath, tx, classOf)
       <==> Transparent(tx) && CarrierLast(tx, classOf, 0, {Yec, FeeReserve}) && CarriesType(tx, MintType)
  {
    TransparentIff(MintPath, tx, classOf);
    InputsOf(MintPath, tx, classOf, {Yec, FeeReserve, Carrier});
    if tx.vin != [] {
      CarrierLastIff(MintPath, tx, classOf, 0, {Yec, FeeReserve});
      assert {Yec, FeeReserve} + {Carrier} == {Yec, FeeReserve, Carrier};
    }
  }

  lemma {:induction false} ClaimPathIff(vault: OutPoint, tx: Transaction, classOf: Classifier)
    ensures Accepted(ClaimPath(vault), tx, classOf)
       <==> && Transparent(tx) && tx.vin[0] == vault
            && CarrierLast(tx, classOf, 1, {Token, Yec, FeeReserve}) && CarriesType(tx, RedeemType)
  {
    TransparentIff(ClaimPath(vault), tx, classOf);
    if tx.vin != [] {
      InputsAfter(ClaimPath(vault), tx, classOf, vault, {Token, Yec, FeeReserve, Carrier});
      CarrierLastIff(ClaimPath(vault), tx, classOf, 1, {Token, Yec, FeeReserve});
      assert {Token, Yec, FeeReserve} + {Carrier} == {Token, Yec, FeeReserve, Carrier};
    }
  }

  lemma {:induction false} RedeemInputs(tx: Transaction, classOf: Classifier)
    requires tx.vin != []
    ensures AllLawful(RedeemPath, tx, classOf) && classOf(tx.vin[0]) == Some(Vault)
       <==> classOf(tx.vin[0]) == Some(Vault) && Spends(tx, classOf, 1, {Token})
  {
    forall n | 0 < n < |tx.vin|
      ensures LawfulInput(RedeemPath, tx, classOf, n) <==> classOf(tx.vin[n]) == Some(Token)
    {
    }
    assert classOf(tx.vin[0]) == Some(Vault) ==> LawfulInput(RedeemPath, tx, classOf, 0);
  }

  lemma {:induction false} RedeemPathIff(tx: Transaction, classOf: Classifier)
    ensures Accepted(RedeemPath, tx, classOf)
       <==> && Transparent(tx) && classOf(tx.vin[0]) == Some(Vault)
            && Spends(tx, classOf, 1, {Token}) && CarriesType(tx, RedeemType)
  {
    TransparentIff(RedeemPath, tx, classOf);
    if tx.vin != [] {
      RedeemInputs(tx, classOf);
    }
  }

  lemma {:induction false} ReleasePathIff(tx: Transaction, classOf: Classifier)
    ensures Accepted(ReleasePath, tx, classOf)
       <==> Transparent(tx) && |tx.vin| == 1 && classOf(tx.vin[0]) == Some(Vault) && NoOpReturn(tx)
  {
    TransparentIff(ReleasePath, tx, classOf);
    assert |tx.vin| == 1 ==> (LawfulInput(ReleasePath, tx, classOf, 0) <==> classOf(tx.vin[0]) == Some(Vault));
  }

  lemma {:induction false} SweepPathIff(tx: Transaction, classOf: Classifier)
    ensures Accepted(SweepPath, tx, classOf)
       <==> Transparent(tx) && Spends(tx, classOf, 0, {Carrier}) && NoOpReturn(tx)
  {
    TransparentIff(SweepPath, tx, classOf);
    InputsOf(SweepPath, tx, classOf, {Carrier});
  }

  lemma {:induction false} IntentReleasePathIff(intent: OutPoint, tx: Transaction, classOf: Classifier)
    ensures Accepted(IntentReleasePath(intent), tx, classOf)
       <==> Transparent(tx) && tx.vin[0] == intent && Spends(tx, classOf, 1, {Yec, FeeReserve}) && NoOpReturn(tx)
  {
    TransparentIff(IntentReleasePath(intent), tx, classOf);
    if tx.vin != [] {
      InputsAfter(IntentReleasePath(intent), tx, classOf, intent, {Yec, FeeReserve});
    }
  }

  lemma {:induction false} PqSweepPathIff(coin: OutPoint, tx: Transaction, classOf: Classifier)
    ensures Accepted(PqSweepPath(coin), tx, classOf)
       <==> tx.shielded == Shielded(0, 0, 0) && tx.vin == [coin] && NoOpReturn(tx)
  {
    TransparentIff(PqSweepPath(coin), tx, classOf);
    if tx.vin != [] {
      InputsAfter(PqSweepPath(coin), tx, classOf, coin, {});
    }
  }

  lemma {:induction false} ShieldPathIff(tx: Transaction, classOf: Classifier)
    ensures Accepted(ShieldPath, tx, classOf)
       <==> && tx.shielded.joinsplits == 0 && tx.shielded.spends == 0 && tx.shielded.outputs > 0
            && tx.vin != [] && Spends(tx, classOf, 0, {Yec}) && NoOpReturn(tx)
            && forall i :: 0 <= i < |tx.vout| ==> tx.vout[i].value != 10_000
  {
    AcceptedIffLawful(ShieldPath, tx, classOf);
    InputsOf(ShieldPath, tx, classOf, {Yec});
  }

  lemma {:induction false} ShieldedPathIff(tx: Transaction, classOf: Classifier)
    ensures Accepted(ShieldedPath, tx, classOf)
       <==> && tx.vin == [] && tx.shielded.joinsplits == 0 && tx.shielded.spends > 0 && NoOpReturn(tx)
            && forall i :: 0 <= i < |tx.vout| ==> tx.vout[i].value != 10_000
  {
    AcceptedIffLawful(ShieldedPath, tx, classOf);
  }

  // ---------------------------------------------------------------- which refusal

  /** What is wrong with the first input that breaks a rule. */
  lemma {:induction false} FirstBadInput(path: Path, tx: Transaction, classOf: Classifier, n: nat) returns (k: nat)
    requires n <= |tx.vin| && FirstInputError(path, tx, classOf, n).Some?
    ensures n <= k < |tx.vin| && !LawfulInput(path, tx, classOf, k)
    ensures forall j :: n <= j < k ==> LawfulInput(path, tx, classOf, j)
    ensures var e, o := FirstInputError(path, tx, classOf, n).value, tx.vin[k];
            if k == 0 && NamedInput(path).Some? then e == VaultShape(path, NamedInput(path).value)
            else match classOf(o)
                 case None => e == UnknownInput(o)
                 case Some(c) =>
                   e == if c == Vault && Allows(path, c) then VaultShape(path, o) else ForbiddenInput(o, c, path)
    decreases |tx.vin| - n
  {
    if InputError(path, tx, classOf, n).Some? {
      k := n;
    } else {
      k := FirstBadInput(path, tx, classOf, n + 1);
    }
  }

  /** The shielded rules come first, then the inputs one by one, then the shape. */
  lemma {:induction false} RefusalOrder(path: Path, tx: Transaction, classOf: Classifier)
    requires path != ShieldedPath && path != ShieldPath
    ensures var e := LocalError(path, tx, classOf);
            if tx.shielded != Shielded(0, 0, 0) then e == Some(HasShielded)
            else if tx.vin == [] then e == Some(NoInputs)
            else if !AllLawful(path, tx, classOf) then e.Some? && e == FirstInputError(path, tx, classOf, 0)
            else e == ShapeError(path, tx, classOf)
  {
    InputsLawfulIff(path, tx, classOf);
  }
}
