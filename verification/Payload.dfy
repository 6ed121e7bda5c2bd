/** The wire layout of a Yellowback payload: `Encode` and `Decode` undo each other, both ways. */
module Payload {
  import opened Wrappers
  import opened Bytes

  const MAGIC_0: Byte := 0x59
  const MAGIC_1: Byte := 0x42
  const VERSION: Byte := 0x03
  const MINT_VERSION: Byte := 0x04
  const MIN_PAYLOAD: nat := 4
  const MAX_PAYLOAD: nat := 80
  const MAX_ASSIGNMENTS: nat := 15
  const MAX_REDEEM_ASSIGNMENTS: nat := 13

  datatype Assignment = Assignment(vout: Byte, cents: U32)

  datatype KeyId = KeyId(scheme: Byte, hash: Bytes32)

  datatype Payload =
    | Mint(
        termClass: Byte, cents: U32, lockHeight: U32, refHeight: U32, owner: KeyId, feeVout: Byte, attestFeeVout: Byte)
    | Transfer(assignments: seq<Assignment>)
    | Redeem(refHeight: U32, feeVout: Byte, attestFeeVout: Byte, assignments: seq<Assignment>)
    | AttestorRegister(attestorKey: Bytes33, bondKey: Bytes33, bondLocktime: U32, flags: Byte)
    | ClaimNotice(vaultTxid: Bytes32, vaultVout: Byte, refHeight: U32)
    | Equivocation
    | AttestorRevive(number: U16, priceMicroUsd: U32, citedHeight: U32, sig: Bytes64)

  datatype PayloadType =
    | MintType | TransferType | RedeemType | RegisterType | NoticeType | EquivocationType | ReviveType

  function TypeOf(p: Payload): PayloadType {
    match p
    case Mint(_, _, _, _, _, _, _) => MintType
    case Transfer(_) => TransferType
    case Redeem(_, _, _, _) => RedeemType
    case AttestorRegister(_, _, _, _) => RegisterType
    case ClaimNotice(_, _, _) => NoticeType
    case Equivocation => EquivocationType
    case AttestorRevive(_, _, _, _) => ReviveType
  }

  function TypeByte(t: PayloadType): Byte {
    match t
    case MintType => 0x01
    case TransferType => 0x02
    case RedeemType => 0x03
    case RegisterType => 0x05
    case NoticeType => 0x06
    case EquivocationType => 0x07
    case ReviveType => 0x08
  }

  function TypeFromByte(b: Byte): Option<PayloadType> {
    match b
    case 0x01 => Some(MintType)
    case 0x02 => Some(TransferType)
    case 0x03 => Some(RedeemType)
    case 0x05 => Some(RegisterType)
    case 0x06 => Some(NoticeType)
    case 0x07 => Some(EquivocationType)
    case 0x08 => Some(ReviveType)
    case _ => None
  }

  function VersionOf(t: PayloadType): Byte {
    if t == MintType then MINT_VERSION else VERSION
  }

  // ---------------------------------------------------------------- the wire layout

  /** At most `max` assignments, none of zero cents, no output assigned twice. */
  ghost predicate ValidAssignments(a: seq<Assignment>, max: nat) {
    && |a| <= max
    && (forall i :: 0 <= i < |a| ==> a[i].cents != 0)
    && (forall i, j :: 0 <= i < j < |a| ==> a[i].vout != a[j].vout)
  }

  ghost predicate Encodable(p: Payload) {
    match p
    case Transfer(a) => ValidAssignments(a, MAX_ASSIGNMENTS)
    case Redeem(_, _, _, a) => ValidAssignments(a, MAX_REDEEM_ASSIGNMENTS)
    case _ => true
  }

  function PutAssignments(a: seq<Assignment>): (b: seq<Byte>)
    ensures |b| == 5 * |a|
  {
    if a == [] then [] else PutAssignments(a[..|a| - 1]) + [a[|a| - 1].vout] + Le32(a[|a| - 1].cents)
  }

  function Header(t: PayloadType): (b: seq<Byte>)
    ensures |b| == 4
  {
    [MAGIC_0, MAGIC_1, VersionOf(t), TypeByte(t)]
  }

  function Body(p: Payload): seq<Byte>
    requires p.Transfer? || p.Redeem? ==> |p.assignments| < 0x100
  {
    match p
    case Mint(term, cents, lock, ref, owner, fee, attest) =>
      [term] + Le32(cents) + Le32(lock) + Le32(ref) + ([owner.scheme] + owner.hash) + [fee, attest]
    case Transfer(a) => [|a|] + PutAssignments(a)
    case Redeem(ref, fee, attest, a) => Le32(ref) + [fee, attest, |a|] + PutAssignments(a)
    case AttestorRegister(key, bond, locktime, flags) => key + bond + Le32(locktime) + [flags]
    case ClaimNotice(txid, vout, ref) => txid + [vout] + Le32(ref)
    case Equivocation => []
    case AttestorRevive(number, price, cited, sig) => Le16(number) + Le32(price) + Le32(cited) + sig
  }

  /** The bytes of an encodable payload. */
  ghost function Wire(p: Payload): seq<Byte>
    requires Encodable(p)
  {
    Header(TypeOf(p)) + Body(p)
  }

  ghost function Encode(p: Payload): Option<seq<Byte>> {
    if Encodable(p) then Some(Wire(p)) else None
  }

  function AssignmentsAt(d: seq<Byte>, at: nat, count: nat): (a: seq<Assignment>)
    requires at + 5 * count <= |d|
    ensures |a| == count
  {
    seq(count, i requires 0 <= i < count => Assignment(d[at + 5 * i], Le32At(d, at + 5 * i + 1)))
  }

  ghost function DecodeBody(d: seq<Byte>, t: PayloadType): Option<Payload>
    requires |d| >= 4
  {
    match t
    case MintType =>
      if |d| != 52 then None
      else Some(Mint(d[4], Le32At(d, 5), Le32At(d, 9), Le32At(d, 13), KeyId(d[17], d[18..50]), d[50], d[51]))
    case TransferType =>
      if |d| < 5 || d[4] > MAX_ASSIGNMENTS || |d| != 5 + 5 * d[4] as nat then None
      else
        var a := AssignmentsAt(d, 5, d[4]);
        if ValidAssignments(a, MAX_ASSIGNMENTS) then Some(Transfer(a)) else None
    case RedeemType =>
      if |d| < 11 || d[10] > MAX_REDEEM_ASSIGNMENTS || |d| != 11 + 5 * d[10] as nat then None
      else
        var a := AssignmentsAt(d, 11, d[10]);
        if ValidAssignments(a, MAX_REDEEM_ASSIGNMENTS) then Some(Redeem(Le32At(d, 4), d[8], d[9], a)) else None
    case RegisterType =>
      if |d| != 75 then None else Some(AttestorRegister(d[4..37], d[37..70], Le32At(d, 70), d[74]))
    case NoticeType =>
      if |d| != 41 then None else Some(ClaimNotice(d[4..36], d[36], Le32At(d, 37)))
    case EquivocationType =>
      if |d| != 4 then None else Some(Equivocation)
    case ReviveType =>
      if |d| != 78 then None else Some(AttestorRevive(Le16At(d, 4), Le32At(d, 6), Le32At(d, 10), d[14..78]))
  }

  ghost function Decode(d: seq<Byte>): Option<Payload> {
    if |d| < MIN_PAYLOAD || |d| > MAX_PAYLOAD || d[0] != MAGIC_0 || d[1] != MAGIC_1 then None
    else
      var t := TypeFromByte(d[3]);
      if t.None? || d[2] != VersionOf(t.value) then None else DecodeBody(d, t.value)
  }

  // ---------------------------------------------------------------- parser and printer undo each other

  lemma {:induction false} SubSlice(d: seq<Byte>, i: nat, j: nat, k: nat, l: nat)
    requires i <= k <= l <= j <= |d|
    ensures d[i..j][k - i..l - i] == d[k..l]
  {
    forall m | 0 <= m < l - k
      ensures d[i..j][k - i..l - i][m] == d[k..l][m]
    {
      assert d[i..j][k - i + m] == d[k + m];
    }
  }

  lemma {:induction false} Grow(d: seq<Byte>, i: nat, j: nat, k: nat)
    requires i <= j <= k <= |d|
    ensures d[i..k] == d[i..j] + d[j..k]
  {
  }

  /** The last five bytes written are the last assignment's. */
  lemma {:induction false} PutLast(a: seq<Assignment>)
    requires a != []
    ensures var b, k := PutAssignments(a), |a| - 1;
            && b[..5 * k] == PutAssignments(a[..k])
            && b[5 * k] == a[k].vout && b[5 * k + 1..5 * k + 5] == Le32(a[k].cents)
  {
    var k := |a| - 1;
    var head, last := PutAssignments(a[..k]), Le32(a[k].cents);
    assert PutAssignments(a) == head + ([a[k].vout] + last);
  }

  lemma {:induction false} ReadLast(d: seq<Byte>, at: nat, k: nat)
    requires at + 5 * (k + 1) <= |d|
    ensures var last := at + 5 * k;
            AssignmentsAt(d, at, k + 1) == AssignmentsAt(d, at, k) + [Assignment(d[last], Le32At(d, last + 1))]
  {
  }

  lemma {:induction false} PutThenRead(a: seq<Assignment>, d: seq<Byte>, at: nat)
    requires at + 5 * |a| <= |d| && d[at..at + 5 * |a|] == PutAssignments(a)
    ensures AssignmentsAt(d, at, |a|) == a
  {
    if a == [] {
    } else {
      var k := |a| - 1;
      var last, end := at + 5 * k, at + 5 * |a|;
      PutLast(a);
      SubSlice(d, at, end, at, last);
      PutThenRead(a[..k], d, at);
      SubSlice(d, at, end, last + 1, last + 5);
      Le32RoundTrip(a[k].cents, d, last + 1);
      assert d[last] == d[at..end][5 * k];
      ReadLast(d, at, k);
    }
  }

  lemma {:induction false} ReadThenPut(d: seq<Byte>, at: nat, count: nat)
    requires at + 5 * count <= |d|
    ensures PutAssignments(AssignmentsAt(d, at, count)) == d[at..at + 5 * count]
  {
    if count == 0 {
    } else {
      var k := count - 1;
      var a, last := AssignmentsAt(d, at, k), at + 5 * k;
      var x := Assignment(d[last], Le32At(d, last + 1));
      ReadThenPut(d, at, k);
      ReadLast(d, at, k);
      Le32Unique(d, last + 1);
      assert (a + [x])[..k] == a;
      assert PutAssignments(a + [x]) == PutAssignments(a) + [x.vout] + Le32(x.cents);
      Grow(d, at, last, last + 1);
      Grow(d, at, last + 1, last + 5);
      assert d[last..last + 1] == [d[last]];
    }
  }

  /** Where three parts of a body lie behind a header. */
  lemma {:induction false} Layout(h: seq<Byte>, x: seq<Byte>, y: seq<Byte>, z: seq<Byte>)
    ensures var d, i := h + (x + y + z), |h| + |x|;
            d[|h|..i] == x && d[i..i + |y|] == y && d[i + |y|..] == z
  {
  }

  /** The first five fields of a MINT body. */
  ghost function MintHead(p: Payload): (x: seq<Byte>)
    requires p.Mint?
    ensures |x| == 13
  {
    [p.termClass] + Le32(p.cents) + Le32(p.lockHeight) + Le32(p.refHeight)
  }

  lemma {:induction false} MintFromFields(d: seq<Byte>, p: Payload)
    requires |d| == 52 && p.Mint?
    requires d[4] == p.termClass && d[5..9] == Le32(p.cents)
    requires d[9..13] == Le32(p.lockHeight) && d[13..17] == Le32(p.refHeight)
    requires d[17] == p.owner.scheme && d[18..50] == p.owner.hash
    requires d[50] == p.feeVout && d[51] == p.attestFeeVout
    ensures DecodeBody(d, MintType) == Some(p)
  {
    Le32RoundTrip(p.cents, d, 5);
    Le32RoundTrip(p.lockHeight, d, 9);
    Le32RoundTrip(p.refHeight, d, 13);
  }

  lemma {:induction false} MintFromParts(d: seq<Byte>, p: Payload)
    requires |d| == 52 && p.Mint? && d[4..17] == MintHead(p)
    requires d[17..50] == [p.owner.scheme] + p.owner.hash && d[50..] == [p.feeVout, p.attestFeeVout]
    ensures DecodeBody(d, MintType) == Some(p)
  {
    var x := MintHead(p);
    SubSlice(d, 4, 17, 5, 9);
    SubSlice(d, 4, 17, 9, 13);
    SubSlice(d, 4, 17, 13, 17);
    assert d[4] == x[0] && x[1..5] == Le32(p.cents) && x[5..9] == Le32(p.lockHeight) && x[9..13] == Le32(p.refHeight);
    SubSlice(d, 17, 50, 18, 50);
    assert d[17] == d[17..50][0] && d[17..50][1..33] == p.owner.hash;
    assert d[50] == d[50..][0] && d[51] == d[50..][1];
    MintFromFields(d, p);
  }

  lemma {:induction false} MintReadsBack(p: Payload)
    requires p.Mint?
    ensures |Wire(p)| == 52 && DecodeBody(Wire(p), MintType) == Some(p)
  {
    var x, y, z := MintHead(p), [p.owner.scheme] + p.owner.hash, [p.feeVout, p.attestFeeVout];
    Layout(Header(MintType), x, y, z);
    MintFromParts(Wire(p), p);
  }

  lemma {:induction false} TransferReadsBack(p: Payload)
    requires p.Transfer? && Encodable(p)
    ensures |Wire(p)| == 5 + 5 * |p.assignments| && DecodeBody(Wire(p), TransferType) == Some(p)
  {
    var d := Wire(p);
    assert d[4] == |p.assignments|;
    assert d[5..5 + 5 * |p.assignments|] == PutAssignments(p.assignments);
    PutThenRead(p.assignments, d, 5);
  }

  lemma {:induction false} RedeemReadsBack(p: Payload)
    requires p.Redeem? && Encodable(p)
    ensures |Wire(p)| == 11 + 5 * |p.assignments| && DecodeBody(Wire(p), RedeemType) == Some(p)
  {
    var d := Wire(p);
    assert d[4..8] == Le32(p.refHeight);
    Le32RoundTrip(p.refHeight, d, 4);
    assert d[8] == p.feeVout && d[9] == p.attestFeeVout && d[10] == |p.assignments|;
    assert d[11..11 + 5 * |p.assignments|] == PutAssignments(p.assignments);
    PutThenRead(p.assignments, d, 11);
  }

  lemma {:induction false} RegisterReadsBack(p: Payload)
    requires p.AttestorRegister?
    ensures |Wire(p)| == 75 && DecodeBody(Wire(p), RegisterType) == Some(p)
  {
    var d := Wire(p);
    assert d[4..37] == p.attestorKey;
    assert d[37..70] == p.bondKey;
    assert d[70..74] == Le32(p.bondLocktime);
    Le32RoundTrip(p.bondLocktime, d, 70);
  }

  lemma {:induction false} NoticeReadsBack(p: Payload)
    requires p.ClaimNotice?
    ensures |Wire(p)| == 41 && DecodeBody(Wire(p), NoticeType) == Some(p)
  {
    var d := Wire(p);
    assert d[4..36] == p.vaultTxid;
    assert d[37..41] == Le32(p.refHeight);
    Le32RoundTrip(p.refHeight, d, 37);
  }

  lemma {:induction false} ReviveNumbers(p: Payload)
    requires p.AttestorRevive?
    ensures var d := Wire(p);
            && |d| == 78 && d[4..6] == Le16(p.number)
            && d[6..10] == Le32(p.priceMicroUsd) && d[10..14] == Le32(p.citedHeight)
  {
    var d := Wire(p);
    assert d[4..6] == Le16(p.number);
    assert d[6..10] == Le32(p.priceMicroUsd);
    assert d[10..14] == Le32(p.citedHeight);
  }

  lemma {:induction false} ReviveSig(p: Payload)
    requires p.AttestorRevive?
    ensures |Wire(p)| == 78 && Wire(p)[14..78] == p.sig
  {
    assert Wire(p)[14..78] == p.sig;
  }

  lemma {:induction false} ReviveFromFields(d: seq<Byte>, p: Payload)
    requires |d| == 78 && p.AttestorRevive?
    requires d[4..6] == Le16(p.number) && d[6..10] == Le32(p.priceMicroUsd)
    requires d[10..14] == Le32(p.citedHeight) && d[14..78] == p.sig
    ensures DecodeBody(d, ReviveType) == Some(p)
  {
    Le16RoundTrip(p.number, d, 4);
    Le32RoundTrip(p.priceMicroUsd, d, 6);
    Le32RoundTrip(p.citedHeight, d, 10);
  }

  lemma {:induction false} ReviveReadsBack(p: Payload)
    requires p.AttestorRevive?
    ensures |Wire(p)| == 78 && DecodeBody(Wire(p), ReviveType) == Some(p)
  {
    ReviveNumbers(p);
    ReviveSig(p);
    ReviveFromFields(Wire(p), p);
  }

  /** The decoder undoes the encoder on all seven types; an encoding is 4 to 80 bytes; and the
      encoder fails exactly on too many, zero-cent or repeated assignments. */
  lemma {:induction false} DecodeEncode(p: Payload)
    ensures Encode(p).Some? <==> Encodable(p)
    ensures Encodable(p) ==> MIN_PAYLOAD <= |Encode(p).value| <= MAX_PAYLOAD
    ensures Encodable(p) ==> Decode(Encode(p).value) == Some(p)
  {
    if Encodable(p) {
      var d, t := Wire(p), TypeOf(p);
      assert |d| <= MAX_PAYLOAD && DecodeBody(d, t) == Some(p) by {
        match p
        case Mint(_, _, _, _, _, _, _) => MintReadsBack(p);
        case Transfer(_) => TransferReadsBack(p);
        case Redeem(_, _, _, _) => RedeemReadsBack(p);
        case AttestorRegister(_, _, _, _) => RegisterReadsBack(p);
        case ClaimNotice(_, _, _) => NoticeReadsBack(p);
        case Equivocation =>
        case AttestorRevive(_, _, _, _) => ReviveReadsBack(p);
      }
      assert d[0] == MAGIC_0 && d[1] == MAGIC_1 && d[2] == VersionOf(t) && d[3] == TypeByte(t);
      assert TypeFromByte(TypeByte(t)) == Some(t);
    }
  }

  lemma {:induction false} TransferIsUnique(d: seq<Byte>)
    requires |d| >= 4 && DecodeBody(d, TransferType).Some?
    ensures Encodable(DecodeBody(d, TransferType).value) && Body(DecodeBody(d, TransferType).value) == d[4..]
  {
    ReadThenPut(d, 5, d[4]);
    assert d[4..] == [d[4]] + d[5..5 + 5 * d[4] as nat];
  }

  lemma {:induction false} RedeemIsUnique(d: seq<Byte>)
    requires |d| >= 4 && DecodeBody(d, RedeemType).Some?
    ensures Encodable(DecodeBody(d, RedeemType).value) && Body(DecodeBody(d, RedeemType).value) == d[4..]
  {
    Le32Unique(d, 4);
    ReadThenPut(d, 11, d[10]);
    assert d[4..] == d[4..8] + [d[8], d[9], d[10]] + d[11..11 + 5 * d[10] as nat];
  }

  lemma {:induction false} NoticeIsUnique(d: seq<Byte>)
    requires |d| == 41
    ensures Body(DecodeBody(d, NoticeType).value) == d[4..]
  {
    Le32Unique(d, 37);
    assert d[4..] == d[4..36] + [d[36]] + d[37..41];
  }

  lemma {:induction false} RegisterIsUnique(d: seq<Byte>)
    requires |d| == 75
    ensures Body(DecodeBody(d, RegisterType).value) == d[4..]
  {
    Le32Unique(d, 70);
    assert d[4..] == d[4..37] + d[37..70] + d[70..74] + [d[74]];
  }

  lemma {:induction false} ReviveIsUnique(d: seq<Byte>)
    requires |d| == 78
    ensures Body(DecodeBody(d, ReviveType).value) == d[4..]
  {
    Le16Unique(d, 4);
    Le32Unique(d, 6);
    Le32Unique(d, 10);
    assert d[4..] == d[4..6] + d[6..10] + d[10..14] + d[14..78];
  }

  lemma {:induction false} MintHeadIsUnique(d: seq<Byte>)
    requires |d| == 52
    ensures MintHead(DecodeBody(d, MintType).value) == d[4..17]
  {
    Le32Unique(d, 5);
    Le32Unique(d, 9);
    Le32Unique(d, 13);
    Grow(d, 4, 5, 9);
    Grow(d, 4, 9, 13);
    Grow(d, 4, 13, 17);
    assert d[4..5] == [d[4]];
  }

  lemma {:induction false} MintIsUnique(d: seq<Byte>)
    requires |d| == 52
    ensures Body(DecodeBody(d, MintType).value) == d[4..]
  {
    MintHeadIsUnique(d);
    Grow(d, 4, 17, 50);
    Grow(d, 4, 50, 52);
    assert d[17..50] == [d[17]] + d[18..50] && d[50..52] == [d[50], d[51]];
  }

  lemma {:induction false} BodyIsUnique(d: seq<Byte>, t: PayloadType)
    requires |d| >= 4 && DecodeBody(d, t).Some?
    ensures var p := DecodeBody(d, t).value; TypeOf(p) == t && Encodable(p) && Body(p) == d[4..]
  {
    match t
    case MintType => MintIsUnique(d);
    case TransferType => TransferIsUnique(d);
    case RedeemType => RedeemIsUnique(d);
    case RegisterType => RegisterIsUnique(d);
    case NoticeType => NoticeIsUnique(d);
    case EquivocationType =>
    case ReviveType => ReviveIsUnique(d);
  }

  /** The encoder undoes the decoder: a byte string that decodes is the only encoding of its payload. */
  lemma {:induction false} EncodeDecode(d: seq<Byte>)
    requires Decode(d).Some?
    ensures Encode(Decode(d).value) == Some(d)
  {
    var t := TypeFromByte(d[3]).value;
    BodyIsUnique(d, t);
    assert TypeByte(t) == d[3];
    assert d == d[..4] + d[4..];
    assert d[..4] == Header(t);
  }

  // ---------------------------------------------------------------- the layout, byte by byte

  /** The bytes of `d` at `i` are those of `x`, lowest first. */
  ghost predicate Little16(d: seq<Byte>, i: nat, x: int) {
    i + 2 <= |d| && x == d[i] as int + 0x100 * d[i + 1] as int
  }

  ghost predicate Little32(d: seq<Byte>, i: nat, x: int) {
    && i + 4 <= |d|
    && x == d[i] as int + 0x100 * d[i + 1] as int + 0x1_0000 * d[i + 2] as int + 0x100_0000 * d[i + 3] as int
  }

  /** A count at `i`, then five bytes for each assignment: its output and its cents. */
  ghost predicate Spells(d: seq<Byte>, i: nat, a: seq<Assignment>) {
    && |d| == i + 1 + 5 * |a| && d[i] == |a|
    && forall k :: 0 <= k < |a| ==> d[i + 1 + 5 * k] == a[k].vout && Little32(d, i + 2 + 5 * k, a[k].cents)
  }

  lemma {:induction false} AssignmentsSpell(d: seq<Byte>, i: nat, a: seq<Assignment>)
    requires |d| == i + 1 + 5 * |a| && d[i] == |a| && AssignmentsAt(d, i + 1, |a|) == a
    ensures Spells(d, i, a)
  {
    forall k | 0 <= k < |a|
      ensures d[i + 1 + 5 * k] == a[k].vout && Little32(d, i + 2 + 5 * k, a[k].cents)
    {
      assert AssignmentsAt(d, i + 1, |a|)[k] == a[k];
    }
  }

  /** The magic, the version and the type of all seven payloads. */
  lemma {:induction false} HeaderBytes(p: Payload)
    requires Encodable(p)
    ensures |Wire(p)| >= 4
    ensures Wire(p)[..4] == match p
                            case Mint(_, _, _, _, _, _, _) => [0x59, 0x42, 0x04, 0x01]
                            case Transfer(_) => [0x59, 0x42, 0x03, 0x02]
                            case Redeem(_, _, _, _) => [0x59, 0x42, 0x03, 0x03]
                            case AttestorRegister(_, _, _, _) => [0x59, 0x42, 0x03, 0x05]
                            case ClaimNotice(_, _, _) => [0x59, 0x42, 0x03, 0x06]
                            case Equivocation => [0x59, 0x42, 0x03, 0x07]
                            case AttestorRevive(_, _, _, _) => [0x59, 0x42, 0x03, 0x08]
  {
    assert Wire(p)[..4] == Header(TypeOf(p));
  }

  /** The encoder refuses too many assignments (15 on a TRANSFER, 13 on a REDEEM), zero cents and an
      output assigned twice, and nothing else. */
  lemma {:induction false} EncodeRefusesIff(p: Payload)
    ensures Encode(p).None?
       <==> && (p.Transfer? || p.Redeem?)
            && (|| |p.assignments| > (if p.Transfer? then 15 else 13)
                || (exists i :: 0 <= i < |p.assignments| && p.assignments[i].cents == 0)
                || exists i, j :: 0 <= i < j < |p.assignments| && p.assignments[i].vout == p.assignments[j].vout)
  {
  }

  lemma {:induction false} MintLayout(p: Payload)
    requires p.Mint?
    ensures var d := Wire(p);
            && |d| == 52 && d[4] == p.termClass && Little32(d, 5, p.cents)
            && Little32(d, 9, p.lockHeight) && Little32(d, 13, p.refHeight)
            && d[17] == p.owner.scheme && d[18..50] == p.owner.hash && d[50] == p.feeVout && d[51] == p.attestFeeVout
  {
    MintReadsBack(p);
  }

  lemma {:induction false} TransferLayout(p: Payload)
    requires p.Transfer? && Encodable(p)
    ensures Spells(Wire(p), 4, p.assignments)
  {
    TransferReadsBack(p);
    AssignmentsSpell(Wire(p), 4, p.assignments);
  }

  lemma {:induction false} RedeemLayout(p: Payload)
    requires p.Redeem? && Encodable(p)
    ensures var d := Wire(p);
            && |d| >= 11 && Little32(d, 4, p.refHeight) && d[8] == p.feeVout && d[9] == p.attestFeeVout
            && Spells(d, 10, p.assignments)
  {
    RedeemReadsBack(p);
    AssignmentsSpell(Wire(p), 10, p.assignments);
  }

  lemma {:induction false} RegisterLayout(p: Payload)
    requires p.AttestorRegister?
    ensures var d := Wire(p);
            && |d| == 75 && d[4..37] == p.attestorKey && d[37..70] == p.bondKey
            && Little32(d, 70, p.bondLocktime) && d[74] == p.flags
  {
    RegisterReadsBack(p);
  }

  lemma {:induction false} NoticeLayout(p: Payload)
    requires p.ClaimNotice?
    ensures var d := Wire(p);
            |d| == 41 && d[4..36] == p.vaultTxid && d[36] == p.vaultVout && Little32(d, 37, p.refHeight)
  {
    NoticeReadsBack(p);
  }

  lemma {:induction false} ReviveLayout(p: Payload)
    requires p.AttestorRevive?
    ensures var d := Wire(p);
            && |d| == 78 && Little16(d, 4, p.number) && Little32(d, 6, p.priceMicroUsd)
            && Little32(d, 10, p.citedHeight) && d[14..78] == p.sig
  {
    ReviveReadsBack(p);
  }

  /** Known bytes: a TRANSFER of $5.00 to output 0 and $1.00 to output 1, an empty EQUIVOCATION, and the
      first four bytes of a MINT. */
  lemma {:induction false} KnownBytes(mint: Payload)
    requires mint.Mint?
    ensures Encode(Transfer([Assignment(0, 500), Assignment(1, 100)]))
         == Some([0x59, 0x42, 0x03, 0x02, 0x02, 0x00, 0xf4, 0x01, 0x00, 0x00, 0x01, 0x64, 0x00, 0x00, 0x00])
    ensures Encode(Equivocation) == Some([0x59, 0x42, 0x03, 0x07])
    ensures Encode(mint).Some? && Encode(mint).value[..4] == [0x59, 0x42, 0x04, 0x01]
  {
    var a := [Assignment(0, 500), Assignment(1, 100)];
    assert a[..1] == [Assignment(0, 500)] && a[..1][..0] == [];
    assert PutAssignments(a[..1]) == [0x00, 0xf4, 0x01, 0x00, 0x00];
    assert PutAssignments(a) == [0x00, 0xf4, 0x01, 0x00, 0x00, 0x01, 0x64, 0x00, 0x00, 0x00];
    var header := Header(TransferType);
    assert ValidAssignments(a, MAX_ASSIGNMENTS);
    assert header == [0x59, 0x42, 0x03, 0x02];
    assert header + ([2] + PutAssignments(a))
        == [0x59, 0x42, 0x03, 0x02, 0x02, 0x00, 0xf4, 0x01, 0x00, 0x00, 0x01, 0x64, 0x00, 0x00, 0x00];
    assert Wire(Equivocation) == Header(EquivocationType);
    assert Wire(mint)[..4] == Header(MintType);
  }
}
