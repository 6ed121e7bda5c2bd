/** The broadcast gate: the local check on a parsed transaction and the decision on the node's dry run. */
module Gate {
  import opened Wrappers
  import opened Sequences
  import opened Script
  import opened Transactions
  import opened Payload
  import opened PayloadCodec
  import opened Coins

  const CARRIER_VALUE: int := 10_000

  datatype Path =
    | YecPath | YedTransferPath | CarrierPath | MintPath | RedeemPath | ReleasePath
    | ClaimPath(vault: OutPoint) | SweepPath | IntentReleasePath(intent: OutPoint) | PqSweepPath(coin: OutPoint)
    | ShieldedPath | ShieldPath

  datatype ShieldedRule =
    | SpendsTransparent | HasJoinSplit | SpendsNote | SpendsNoNote | NoSaplingOutput | TokenValuedOutput

  datatype Validation = Validation(valid: bool, verdict: string, burned: int, wouldBeRejected: bool)

  datatype GateError =
    | HasShielded
    | NoInputs
    | UnknownInput(outpoint: OutPoint)
    | ForbiddenInput(outpoint: OutPoint, kind: UtxoClass, path: Path)
    | PayloadOnYecPath(output: nat)
    | NoTransferPayload
    | NoTokenInput
    | NoPayload(wanted: PayloadType)
    | CarrierShape(path: Path)
    | VaultShape(path: Path, outpoint: OutPoint)
    | ShieldedShape(rule: ShieldedRule)
    | CarrierOutput
    | YellowbackAbsent
    | ValidateFailed
    | RefusedByNode(answer: Validation)

  type Classifier = OutPoint -> Option<UtxoClass>

  function Allows(path: Path, c: UtxoClass): bool {
    match path
    case YecPath => c.YecSpendable()
    case CarrierPath => c.YecSpendable()
    case YedTransferPath => c.TransferSpendable()
    case MintPath => c.MintSpendable()
    case RedeemPath => c.RedeemSpendable()
    case ReleasePath => c == Vault
    case ClaimPath(_) => c.ClaimSpendable()
    case SweepPath => c == Carrier
    case IntentReleasePath(_) => c.YecSpendable()
    case PqSweepPath(_) => false
    case ShieldedPath => false
    case ShieldPath => c == Yec
  }

  predicate NeedsYellowback(path: Path) {
    path != YecPath && path != ShieldedPath && path != ShieldPath
  }

  /** The output a path names for `vin[0]`, which is never classified. */
  function NamedInput(path: Path): Option<OutPoint> {
    match path
    case ClaimPath(v) => Some(v)
    case IntentReleasePath(i) => Some(i)
    case PqSweepPath(c) => Some(c)
    case _ => None
  }

  // ---------------------------------------------------------------- the local layer, as a function

  predicate HasTokenValue(tx: Transaction) {
    exists i :: 0 <= i < |tx.vout| && tx.vout[i].value == TOKEN_VALUE
  }

  /** The index of the first OP_RETURN output. */
  function FirstOpReturn(tx: Transaction, i: nat): (r: Option<nat>)
    requires i <= |tx.vout|
    ensures r.None? <==> forall j :: i <= j < |tx.vout| ==> !IsOpReturn(tx.vout[j].script)
    ensures r.Some? ==> i <= r.value < |tx.vout| && IsOpReturn(tx.vout[r.value].script)
    ensures r.Some? ==> forall j :: i <= j < r.value ==> !IsOpReturn(tx.vout[j].script)
    decreases |tx.vout| - i
  {
    if i == |tx.vout| then None
    else if IsOpReturn(tx.vout[i].script) then Some(i)
    else FirstOpReturn(tx, i + 1)
  }

  function NoPayloadError(tx: Transaction): Option<GateError> {
    match FirstOpReturn(tx, 0)
    case None => None
    case Some(i) => Some(PayloadOnYecPath(i))
  }

  function ShieldShapeError(tx: Transaction): Option<GateError> {
    if tx.shielded.joinsplits > 0 then Some(ShieldedShape(HasJoinSplit))
    else if tx.shielded.spends > 0 then Some(ShieldedShape(SpendsNote))
    else if tx.shielded.outputs == 0 then Some(ShieldedShape(NoSaplingOutput))
    else if HasTokenValue(tx) then Some(ShieldedShape(TokenValuedOutput))
    else None
  }

  function ShieldedError(tx: Transaction): Option<GateError> {
    if tx.vin != [] then Some(ShieldedShape(SpendsTransparent))
    else if tx.shielded.joinsplits > 0 then Some(ShieldedShape(HasJoinSplit))
    else if tx.shielded.spends == 0 then Some(ShieldedShape(SpendsNoNote))
    else if NoPayloadError(tx).Some? then NoPayloadError(tx)
    else if HasTokenValue(tx) then Some(ShieldedShape(TokenValuedOutput))
    else None
  }

  /** Input `n` is looked up in the wallet's table rather than named by the path. */
  predicate Classified(path: Path, n: nat) {
    NamedInput(path).None? || n != 0
  }

  /** Input `n` is a classified input of class `c`. */
  predicate HasClass(path: Path, tx: Transaction, classOf: Classifier, n: nat, c: UtxoClass)
    requires n < |tx.vin|
  {
    Classified(path, n) && classOf(tx.vin[n]) == Some(c)
  }

  function InputError(path: Path, tx: Transaction, classOf: Classifier, n: nat): Option<GateError>
    requires n < |tx.vin|
  {
    var prevout := tx.vin[n];
    if !Classified(path, n) then
      (if prevout != NamedInput(path).value then Some(VaultShape(path, NamedInput(path).value)) else None)
    else
      match classOf(prevout)
      case None => Some(UnknownInput(prevout))
      case Some(c) =>
        if !Allows(path, c) then Some(ForbiddenInput(prevout, c, path))
        else if c == Vault && n != 0 then Some(VaultShape(path, prevout))
        else None
  }

  function FirstInputError(path: Path, tx: Transaction, classOf: Classifier, n: nat): Option<GateError>
    requires n <= |tx.vin|
    decreases |tx.vin| - n
  {
    if n == |tx.vin| then None
    else
      var e := InputError(path, tx, classOf, n);
      if e.Some? then e else FirstInputError(path, tx, classOf, n + 1)
  }

  predicate SpendsToken(path: Path, tx: Transaction, classOf: Classifier) {
    exists n :: 0 <= n < |tx.vin| && HasClass(path, tx, classOf, n, Token)
  }

  predicate SpendsCarrier(path: Path, tx: Transaction, classOf: Classifier) {
    exists n :: 0 <= n < |tx.vin| && HasClass(path, tx, classOf, n, Carrier)
  }

  /** Exactly one carrier is spent, by the last input. */
  predicate OneCarrierLast(path: Path, tx: Transaction, classOf: Classifier)
    requires tx.vin != []
  {
    && HasClass(path, tx, classOf, |tx.vin| - 1, Carrier)
    && forall n :: 0 <= n < |tx.vin| - 1 ==> !HasClass(path, tx, classOf, n, Carrier)
  }

  /** The transaction carries a payload of one type. */
  ghost predicate CarriesType(tx: Transaction, t: PayloadType) {
    PayloadOf(tx).Some? && TypeOf(PayloadOf(tx).value.payload) == t
  }

  ghost function ShapeError(path: Path, tx: Transaction, classOf: Classifier): Option<GateError>
    requires tx.vin != []
  {
    match path
    case YecPath => NoPayloadError(tx)
    case CarrierPath =>
      if NoPayloadError(tx).Some? then NoPayloadError(tx)
      else if tx.vout == [] || tx.vout[0].value != CARRIER_VALUE || P2shHash(tx.vout[0].script).None?
      then Some(CarrierOutput)
      else None
    case YedTransferPath =>
      if !CarriesType(tx, TransferType) then Some(NoTransferPayload)
      else if !SpendsToken(path, tx, classOf) then Some(NoTokenInput)
      else None
    case MintPath =>
      if !CarriesType(tx, MintType) then Some(NoPayload(MintType))
      else if !OneCarrierLast(path, tx, classOf) then Some(CarrierShape(path))
      else None
    case RedeemPath =>
      if !CarriesType(tx, RedeemType) then Some(NoPayload(RedeemType))
      else if classOf(tx.vin[0]) != Some(Vault) then Some(VaultShape(path, tx.vin[0]))
      else if SpendsCarrier(path, tx, classOf) then Some(CarrierShape(path))
      else None
    case ClaimPath(_) =>
      if !CarriesType(tx, RedeemType) then Some(NoPayload(RedeemType))
      else if !OneCarrierLast(path, tx, classOf) then Some(CarrierShape(path))
      else None
    case ReleasePath =>
      if NoPayloadError(tx).Some? then NoPayloadError(tx)
      else if |tx.vin| != 1 then Some(VaultShape(path, tx.vin[0]))
      else None
    case PqSweepPath(named) =>
      if NoPayloadError(tx).Some? then NoPayloadError(tx)
      else if |tx.vin| != 1 then Some(VaultShape(path, named))
      else None
    case SweepPath => NoPayloadError(tx)
    case ShieldPath => NoPayloadError(tx)
    case IntentReleasePath(_) => NoPayloadError(tx)
    case ShieldedPath => None
  }

  ghost function LocalError(path: Path, tx: Transaction, classOf: Classifier): Option<GateError> {
    if path == ShieldedPath then ShieldedError(tx)
    else if path == ShieldPath && ShieldShapeError(tx).Some? then ShieldShapeError(tx)
    else if path != ShieldPath && tx.shielded.Any() then Some(HasShielded)
    else if tx.vin == [] then Some(NoInputs)
    else if FirstInputError(path, tx, classOf, 0).Some? then FirstInputError(path, tx, classOf, 0)
    else ShapeError(path, tx, classOf)
  }

  // ---------------------------------------------------------------- the local layer, as it runs

  /** The number of token inputs below `n`. */
  ghost function TokensBelow(path: Path, tx: Transaction, classOf: Classifier, n: nat): nat
    requires n <= |tx.vin|
  {
    if n == 0 then 0
    else TokensBelow(path, tx, classOf, n - 1) + if HasClass(path, tx, classOf, n - 1, Token) then 1 else 0
  }

  /** The carrier inputs below `n`. */
  ghost function CarriersBelow(path: Path, tx: Transaction, classOf: Classifier, n: nat): (r: seq<nat>)
    requires n <= |tx.vin|
    ensures Ascending(r, n)
    ensures forall k :: 0 <= k < n ==> (k in r <==> HasClass(path, tx, classOf, k, Carrier))
  {
    if n == 0 then []
    else CarriersBelow(path, tx, classOf, n - 1) + if HasClass(path, tx, classOf, n - 1, Carrier) then [n - 1] else []
  }

  lemma {:induction false} TokensSeen(path: Path, tx: Transaction, classOf: Classifier, n: nat)
    requires n <= |tx.vin|
    ensures TokensBelow(path, tx, classOf, n) > 0 <==> exists k :: 0 <= k < n && HasClass(path, tx, classOf, k, Token)
  {
    if n > 0 {
      TokensSeen(path, tx, classOf, n - 1);
    }
  }

  /** What the loop over the inputs has seen below `n`. */
  ghost predicate Seen(path: Path, tx: Transaction, classOf: Classifier, n: nat, tokens: nat, carriers: seq<nat>)
    requires n <= |tx.vin|
  {
    tokens == TokensBelow(path, tx, classOf, n) && carriers == CarriersBelow(path, tx, classOf, n)
  }

  method ScanInputs(path: Path, tx: Transaction, classOf: Classifier)
    returns (e: Option<GateError>, tokens: nat, carriers: seq<nat>)
    ensures e == FirstInputError(path, tx, classOf, 0)
    ensures e.None? ==> Seen(path, tx, classOf, |tx.vin|, tokens, carriers)
  {
    e, tokens, carriers := None, 0, [];
    for n := 0 to |tx.vin|
      invariant e.None?
      invariant FirstInputError(path, tx, classOf, n) == FirstInputError(path, tx, classOf, 0)
      invariant Seen(path, tx, classOf, n, tokens, carriers)
    {
      var prevout := tx.vin[n];
      var named := NamedInput(path);
      if named.Some? && n == 0 {
        if prevout != named.value {
          e := Some(VaultShape(path, named.value));
          return;
        }
        continue;
      }
      var found := classOf(prevout);
      if found.None? {
        e := Some(UnknownInput(prevout));
        return;
      }
      var c := found.value;
      if !Allows(path, c) {
        e := Some(ForbiddenInput(prevout, c, path));
        return;
      }
      if c == Token {
        tokens := tokens + 1;
      }
      if c == Carrier {
        carriers := carriers + [n];
      }
      if c == Vault && n != 0 {
        e := Some(VaultShape(path, prevout));
        return;
      }
    }
  }

  lemma {:induction false} CarrierListShape(
      path: Path, tx: Transaction, classOf: Classifier, tokens: nat, carriers: seq<nat>)
    requires tx.vin != [] && Seen(path, tx, classOf, |tx.vin|, tokens, carriers)
    ensures |carriers| == 1 && carriers[0] == |tx.vin| - 1 <==> OneCarrierLast(path, tx, classOf)
    ensures carriers != [] <==> SpendsCarrier(path, tx, classOf)
  {
    var last := |tx.vin| - 1;
    if carriers != [] {
      assert carriers[0] in carriers;
      assert HasClass(path, tx, classOf, carriers[0], Carrier);
    }
    if |carriers| > 1 {
      assert carriers[0] < carriers[1] <= last;
    }
    if OneCarrierLast(path, tx, classOf) {
      assert last in carriers;
    }
  }

  method CarriedType(tx: Transaction) returns (t: Option<PayloadType>)
    ensures forall k :: t == Some(k) <==> CarriesType(tx, k)
  {
    var found := FindPayload(tx);
    t := if found.None? then None else Some(TypeOf(found.value.payload));
  }

  predicate CarriesNothing(path: Path) {
    path in {YecPath, CarrierPath, ReleasePath, SweepPath, ShieldPath} || path.IntentReleasePath? || path.PqSweepPath?
  }

  method CheckPayload(path: Path, tx: Transaction, classOf: Classifier, tokens: bool, carriers: bool, oneLast: bool)
    returns (e: Option<GateError>)
    requires tx.vin != [] && path != ShieldedPath && !CarriesNothing(path)
    requires tokens == SpendsToken(path, tx, classOf)
    requires carriers == SpendsCarrier(path, tx, classOf)
    requires oneLast == OneCarrierLast(path, tx, classOf)
    ensures e == ShapeError(path, tx, classOf)
  {
    var t := CarriedType(tx);
    match path {
      case YedTransferPath =>
        if t != Some(TransferType) {
          return Some(NoTransferPayload);
        }
        return if !tokens then Some(NoTokenInput) else None;
      case MintPath =>
        if t != Some(MintType) {
          return Some(NoPayload(MintType));
        }
        return if !oneLast then Some(CarrierShape(path)) else None;
      case RedeemPath =>
        if t != Some(RedeemType) {
          return Some(NoPayload(RedeemType));
        }
        if classOf(tx.vin[0]) != Some(Vault) {
          return Some(VaultShape(path, tx.vin[0]));
        }
        return if carriers then Some(CarrierShape(path)) else None;
      case ClaimPath(_) =>
        if t != Some(RedeemType) {
          return Some(NoPayload(RedeemType));
        }
        return if !oneLast then Some(CarrierShape(path)) else None;
    }
  }

  method CheckNoPayload(path: Path, tx: Transaction, classOf: Classifier) returns (e: Option<GateError>)
    requires tx.vin != [] && CarriesNothing(path)
    ensures e == ShapeError(path, tx, classOf)
  {
    e := NoPayloadError(tx);
    if e.Some? {
      return;
    }
    match path {
      case CarrierPath =>
        if tx.vout == [] || tx.vout[0].value != CARRIER_VALUE || P2shHash(tx.vout[0].script).None? {
          e := Some(CarrierOutput);
        }
      case ReleasePath =>
        if |tx.vin| != 1 {
          e := Some(VaultShape(path, tx.vin[0]));
        }
      case PqSweepPath(named) =>
        if |tx.vin| != 1 {
          e := Some(VaultShape(path, named));
        }
      case _ =>
    }
  }

  method CheckShape(path: Path, tx: Transaction, classOf: Classifier, tokens: nat, carriers: seq<nat>)
    returns (e: Option<GateError>)
    requires tx.vin != [] && path != ShieldedPath
    requires Seen(path, tx, classOf, |tx.vin|, tokens, carriers)
    ensures e == ShapeError(path, tx, classOf)
  {
    if CarriesNothing(path) {
      e := CheckNoPayload(path, tx, classOf);
    } else {
      CarrierListShape(path, tx, classOf, tokens, carriers);
      TokensSeen(path, tx, classOf, |tx.vin|);
      var oneLast := |carriers| == 1 && carriers[0] == |tx.vin| - 1;
      e := CheckPayload(path, tx, classOf, tokens > 0, carriers != [], oneLast);
    }
  }

  method Check(path: Path, tx: Transaction, classOf: Classifier) returns (e: Option<GateError>)
    ensures e == LocalError(path, tx, classOf)
  {
    if path == ShieldedPath {
      return ShieldedError(tx);
    }
    if path == ShieldPath {
      e := ShieldShapeError(tx);
      if e.Some? {
        return;
      }
    } else if tx.shielded.Any() {
      return Some(HasShielded);
    }
    if tx.vin == [] {
      return Some(NoInputs);
    }
    var tokens, carriers;
    e, tokens, carriers := ScanInputs(path, tx, classOf);
    if e.Some? {
      return;
    }
    e := CheckShape(path, tx, classOf, tokens, carriers);
  }

  // ---------------------------------------------------------------- what an accepted transaction is

  lemma {:induction false} NoInputError(path: Path, tx: Transaction, classOf: Classifier, n: nat, k: nat)
    requires n <= k < |tx.vin| && FirstInputError(path, tx, classOf, n).None?
    ensures InputError(path, tx, classOf, k).None?
    decreases |tx.vin| - n
  {
    if n < k {
      NoInputError(path, tx, classOf, n + 1, k);
    }
  }

  lemma {:induction false} AllInputsGood(path: Path, tx: Transaction, classOf: Classifier, n: nat)
    requires n <= |tx.vin| && forall k :: n <= k < |tx.vin| ==> InputError(path, tx, classOf, k).None?
    ensures FirstInputError(path, tx, classOf, n).None?
    decreases |tx.vin| - n
  {
    if n < |tx.vin| {
      AllInputsGood(path, tx, classOf, n + 1);
    }
  }

  ghost predicate Accepted(path: Path, tx: Transaction, classOf: Classifier) {
    LocalError(path, tx, classOf).None?
  }

  // ---------------------------------------------------------------- the rules, without their order

  ghost predicate NoOpReturn(tx: Transaction) {
    forall i :: 0 <= i < |tx.vout| ==> !IsOpReturn(tx.vout[i].script)
  }

  /** Input `n` is the one the path names, or a known row of an allowed class, a vault only at vin[0]. */
  ghost predicate LawfulInput(path: Path, tx: Transaction, classOf: Classifier, n: nat)
    requires n < |tx.vin|
  {
    if Classified(path, n) then
      && classOf(tx.vin[n]).Some? && Allows(path, classOf(tx.vin[n]).value)
      && (classOf(tx.vin[n]) == Some(Vault) ==> n == 0)
    else Some(tx.vin[n]) == NamedInput(path)
  }

  /** The payload and the inputs and outputs a path asks for. */
  ghost predicate LawfulShape(path: Path, tx: Transaction, classOf: Classifier)
    requires tx.vin != []
  {
    match path
    case YedTransferPath => CarriesType(tx, TransferType) && SpendsToken(path, tx, classOf)
    case MintPath => CarriesType(tx, MintType) && OneCarrierLast(path, tx, classOf)
    case RedeemPath => CarriesType(tx, RedeemType) && classOf(tx.vin[0]) == Some(Vault)
    case ClaimPath(_) => CarriesType(tx, RedeemType) && OneCarrierLast(path, tx, classOf)
    case CarrierPath =>
      NoOpReturn(tx) && tx.vout != [] && tx.vout[0].value == CARRIER_VALUE && P2shHash(tx.vout[0].script).Some?
    case ReleasePath => NoOpReturn(tx) && |tx.vin| == 1
    case PqSweepPath(_) => NoOpReturn(tx) && |tx.vin| == 1
    case _ => NoOpReturn(tx)
  }

  ghost predicate Lawful(path: Path, tx: Transaction, classOf: Classifier) {
    match path
    case ShieldedPath =>
      && tx.vin == [] && tx.shielded.joinsplits == 0 && tx.shielded.spends > 0
      && NoOpReturn(tx) && !HasTokenValue(tx)
    case _ =>
      && (if path == ShieldPath
          then tx.shielded.joinsplits == 0 && tx.shielded.spends == 0 && tx.shielded.outputs > 0 && !HasTokenValue(tx)
          else !tx.shielded.Any())
      && tx.vin != []
      && (forall n :: 0 <= n < |tx.vin| ==> LawfulInput(path, tx, classOf, n))
      && LawfulShape(path, tx, classOf)
  }

  lemma {:induction false} InputsLawfulIff(path: Path, tx: Transaction, classOf: Classifier)
    ensures FirstInputError(path, tx, classOf, 0).None?
       <==> forall n :: 0 <= n < |tx.vin| ==> LawfulInput(path, tx, classOf, n)
  {
    if FirstInputError(path, tx, classOf, 0).None? {
      forall n | 0 <= n < |tx.vin|
        ensures LawfulInput(path, tx, classOf, n)
      {
        NoInputError(path, tx, classOf, 0, n);
      }
    }
    if forall n :: 0 <= n < |tx.vin| ==> LawfulInput(path, tx, classOf, n) {
      forall n | 0 <= n < |tx.vin|
        ensures InputError(path, tx, classOf, n).None?
      {
        assert LawfulInput(path, tx, classOf, n);
      }
      AllInputsGood(path, tx, classOf, 0);
    }
  }

  lemma {:induction false} ShapeLawfulIff(path: Path, tx: Transaction, classOf: Classifier)
    requires tx.vin != [] && path != ShieldedPath
    requires forall n :: 0 <= n < |tx.vin| ==> LawfulInput(path, tx, classOf, n)
    ensures ShapeError(path, tx, classOf).None? <==> LawfulShape(path, tx, classOf)
  {
    assert NoPayloadError(tx).None? <==> NoOpReturn(tx);
    if path == RedeemPath {
      forall n | 0 <= n < |tx.vin|
        ensures !HasClass(path, tx, classOf, n, Carrier)
      {
        assert LawfulInput(path, tx, classOf, n);
      }
    }
  }

  lemma {:induction false} TransparentLawfulIff(path: Path, tx: Transaction, classOf: Classifier)
    requires path != ShieldedPath && tx.vin != []
    ensures FirstInputError(path, tx, classOf, 0).None? && ShapeError(path, tx, classOf).None?
       <==> (forall n :: 0 <= n < |tx.vin| ==> LawfulInput(path, tx, classOf, n)) && LawfulShape(path, tx, classOf)
  {
    InputsLawfulIff(path, tx, classOf);
    if forall n :: 0 <= n < |tx.vin| ==> LawfulInput(path, tx, classOf, n) {
      ShapeLawfulIff(path, tx, classOf);
    }
  }

  /** The local layer accepts exactly the lawful transactions, on all twelve paths. */
  lemma {:induction false} AcceptedIffLawful(path: Path, tx: Transaction, classOf: Classifier)
    ensures Accepted(path, tx, classOf) <==> Lawful(path, tx, classOf)
  {
    if path == ShieldedPath {
      assert NoPayloadError(tx).None? <==> NoOpReturn(tx);
    } else if tx.vin != [] {
      TransparentLawfulIff(path, tx, classOf);
    }
  }

  /** Every input of an accepted transaction is the one its path names, or a known output of a
      class the path may spend: YEC, reserve, token, vault or carrier. A vault is only ever vin[0]. */
  lemma {:induction false} AcceptedInput(path: Path, tx: Transaction, classOf: Classifier, n: nat)
    requires Accepted(path, tx, classOf) && n < |tx.vin|
    ensures if Classified(path, n) then
              && classOf(tx.vin[n]).Some?
              && Allows(path, classOf(tx.vin[n]).value)
              && classOf(tx.vin[n]).value in {Yec, FeeReserve, Token, Vault, Carrier}
              && (classOf(tx.vin[n]).value == Vault ==> n == 0)
            else n == 0 && Some(tx.vin[0]) == NamedInput(path)
  {
    NoInputError(path, tx, classOf, 0, n);
  }

  /** An accepted mint or claim spends exactly one carrier, last. */
  lemma {:induction false} AcceptedCarrier(path: Path, tx: Transaction, classOf: Classifier, n: nat)
    requires Accepted(path, tx, classOf) && (path == MintPath || path.ClaimPath?) && n < |tx.vin|
    ensures HasClass(path, tx, classOf, n, Carrier) <==> n == |tx.vin| - 1
  {
    assert OneCarrierLast(path, tx, classOf);
  }

  lemma {:induction false} TokenCarries(path: Path, tx: Transaction, classOf: Classifier, n: nat)
    requires Accepted(path, tx, classOf) && n < |tx.vin| && HasClass(path, tx, classOf, n, Token)
    ensures NeedsYellowback(path) && (CarriesType(tx, TransferType) || CarriesType(tx, RedeemType))
  {
    AcceptedInput(path, tx, classOf, n);
    assert path == YedTransferPath || path == RedeemPath || path.ClaimPath?;
  }

  /** A token input means a TRANSFER or REDEEM payload in the only OP_RETURN, whose assigned outputs
      all exist and exclude the OP_RETURN itself; and the path is one the node must validate. */
  lemma {:induction false} AcceptedToken(path: Path, tx: Transaction, classOf: Classifier, n: nat)
    requires Accepted(path, tx, classOf) && n < |tx.vin| && HasClass(path, tx, classOf, n, Token)
    ensures NeedsYellowback(path)
    ensures var f := PayloadOf(tx);
            && f.Some? && Carries(tx, f.value)
            && (f.value.payload.Transfer? || f.value.payload.Redeem?)
            && OnlyOpReturn(tx, f.value.opReturn)
            && InRange(f.value.payload.assignments, |tx.vout|, f.value.opReturn)
  {
    TokenCarries(path, tx, classOf, n);
  }

  // ---------------------------------------------------------------- the remote layer

  function Accept(v: Validation, plannedBurn: int): Option<GateError> {
    if v.valid && v.verdict == "ok" && v.burned == plannedBurn && !v.wouldBeRejected then None
    else Some(RefusedByNode(v))
  }

  /** The server offers no dry run, or it answers (or fails to). */
  datatype Validator = Absent | Remote(answer: Option<Validation>)

  /** The node's dry run burns what was planned; without a node only YEC leaves, openly or shielded. */
  ghost predicate NodeAgrees(validator: Validator, path: Path, plannedBurn: int) {
    match validator
    case Absent => path in {YecPath, ShieldedPath, ShieldPath}
    case Remote(None) => false
    case Remote(Some(v)) => v == Validation(true, "ok", plannedBurn, false)
  }

  /** What the gate lets out: the node has confirmed that the transaction burns exactly what was
      planned, or no node was asked and the transaction spends YEC and reserve rows only. */
  ghost predicate Broadcastable(
      path: Path, tx: Transaction, classOf: Classifier, plannedBurn: int, v: Option<Validation>)
  {
    && Accepted(path, tx, classOf)
    && match v
       case Some(answer) =>
         answer.valid && answer.verdict == "ok" && answer.burned == plannedBurn && !answer.wouldBeRejected
       case None => forall n :: 0 <= n < |tx.vin| ==> classOf(tx.vin[n]) in {Some(Yec), Some(FeeReserve)}
  }

  lemma {:induction false} ConfirmedIsSafe(
      path: Path, tx: Transaction, classOf: Classifier, plannedBurn: int, v: Option<Validation>)
    requires Accepted(path, tx, classOf)
    requires match v case None => !NeedsYellowback(path) case Some(answer) => Accept(answer, plannedBurn).None?
    ensures Broadcastable(path, tx, classOf, plannedBurn, v)
  {
    if v.None? {
      forall n | 0 <= n < |tx.vin|
        ensures classOf(tx.vin[n]) in {Some(Yec), Some(FeeReserve)}
      {
        AcceptedInput(path, tx, classOf, n);
      }
    }
  }

  method ConfirmBurning(validator: Validator, path: Path, tx: Transaction, classOf: Classifier, plannedBurn: int)
    returns (r: Result<Option<Validation>, GateError>)
    ensures LocalError(path, tx, classOf).Some? ==> r == Err(LocalError(path, tx, classOf).value)
    ensures Accepted(path, tx, classOf) ==>
              r == match validator
                   case Absent => (if NeedsYellowback(path) then Err(YellowbackAbsent) else Ok(None))
                   case Remote(None) => Err(ValidateFailed)
                   case Remote(Some(v)) => (if Accept(v, plannedBurn).Some? then Err(RefusedByNode(v)) else Ok(Some(v)))
    ensures r.Ok? ==> Broadcastable(path, tx, classOf, plannedBurn, r.value)
    ensures r.Ok? <==> Accepted(path, tx, classOf) && NodeAgrees(validator, path, plannedBurn)
    ensures r.Ok? ==> r.value == if validator.Absent? then None else validator.answer
  {
    var e := Check(path, tx, classOf);
    if e.Some? {
      return Err(e.value);
    }
    match validator {
      case Absent =>
        r := if NeedsYellowback(path) then Err(YellowbackAbsent) else Ok(None);
      case Remote(answer) =>
        if answer.None? {
          return Err(ValidateFailed);
        }
        var refusal := Accept(answer.value, plannedBurn);
        r := if refusal.Some? then Err(refusal.value) else Ok(answer);
    }
    if r.Ok? {
      ConfirmedIsSafe(path, tx, classOf, plannedBurn, r.value);
    }
  }

  /** A token never leaves the wallet unless the node confirmed the planned burn. */
  lemma {:induction false} TokenNeedsNode(
      path: Path, tx: Transaction, classOf: Classifier, plannedBurn: int, v: Option<Validation>, n: nat)
    requires Broadcastable(path, tx, classOf, plannedBurn, v)
    requires n < |tx.vin| && HasClass(path, tx, classOf, n, Token)
    ensures v.Some? && v.value.burned == plannedBurn
  {
    AcceptedToken(path, tx, classOf, n);
  }
}
