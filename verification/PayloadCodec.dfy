/** The payload codec as it runs: a buffer that grows and a cursor that moves. */
module PayloadCodec {
  import opened Wrappers
  import opened Bytes
  import opened Script
  import opened Transactions
  import opened Payload

  /** A bounds-checked little-endian reader. */
  class Reader {
    const data: seq<Byte>
    var pos: nat

    constructor (data: seq<Byte>)
      ensures this.data == data && pos == 0
    {
      this.data, pos := data, 0;
    }

    method U8() returns (r: Option<Byte>)
      modifies this
      ensures if old(pos) < |data| then r == Some(data[old(pos)]) && pos == old(pos) + 1
              else r == None && pos == old(pos)
    {
      if pos >= |data| {
        return None;
      }
      r := Some(data[pos]);
      pos := pos + 1;
    }

    method Take(n: nat) returns (r: Option<seq<Byte>>)
      modifies this
      ensures if old(pos) + n <= |data| then r == Some(data[old(pos)..old(pos) + n]) && pos == old(pos) + n
              else r == None && pos == old(pos)
    {
      var end := pos + n;
      if end > |data| {
        return None;
      }
      r := Some(data[pos..end]);
      pos := end;
    }

    method ReadU16() returns (r: Option<U16>)
      modifies this
      ensures if old(pos) + 2 <= |data| then r == Some(Le16At(data, old(pos))) && pos == old(pos) + 2
              else r == None && pos == old(pos)
    {
      var b :- Take(2);
      r := Some(Le16At(b, 0));
    }

    method ReadU32() returns (r: Option<U32>)
      modifies this
      ensures if old(pos) + 4 <= |data| then r == Some(Le32At(data, old(pos))) && pos == old(pos) + 4
              else r == None && pos == old(pos)
    {
      var b :- Take(4);
      r := Some(Le32At(b, 0));
    }

    predicate AtEnd()
      reads this
    {
      pos == |data|
    }
  }

  method CheckAssignments(a: seq<Assignment>, max: nat) returns (ok: bool)
    ensures ok <==> ValidAssignments(a, max)
  {
    if |a| > max {
      return false;
    }
    var seen: set<Byte> := {};
    for i := 0 to |a|
      invariant forall j :: 0 <= j < i ==> a[j].cents != 0
      invariant forall j, k :: 0 <= j < k < i ==> a[j].vout != a[k].vout
      invariant forall v :: v in seen <==> exists j :: 0 <= j < i && a[j].vout == v
    {
      if a[i].cents == 0 || a[i].vout in seen {
        return false;
      }
      seen := seen + {a[i].vout};
    }
    return true;
  }

  method WriteAssignments(out: seq<Byte>, a: seq<Assignment>) returns (r: seq<Byte>)
    requires |a| < 0x100
    ensures r == out + ([|a|] + PutAssignments(a))
  {
    r := out + [|a|];
    for i := 0 to |a|
      invariant r == out + [|a|] + PutAssignments(a[..i])
    {
      assert a[..i + 1][..i] == a[..i];
      r := r + [a[i].vout];
      r := r + Le32(a[i].cents);
    }
    assert a[..|a|] == a;
  }

  method WriteTransfer(out: seq<Byte>, p: Payload) returns (r: Option<seq<Byte>>)
    requires p.Transfer?
    ensures r == if Encodable(p) then Some(out + Body(p)) else None
  {
    var ok := CheckAssignments(p.assignments, MAX_ASSIGNMENTS);
    if !ok {
      return None;
    }
    var b := WriteAssignments(out, p.assignments);
    r := Some(b);
  }

  method WriteRedeem(out: seq<Byte>, p: Payload) returns (r: Option<seq<Byte>>)
    requires p.Redeem?
    ensures r == if Encodable(p) then Some(out + Body(p)) else None
  {
    var ok := CheckAssignments(p.assignments, MAX_REDEEM_ASSIGNMENTS);
    if !ok {
      return None;
    }
    var b := out + Le32(p.refHeight);
    b := b + [p.feeVout];
    b := b + [p.attestFeeVout];
    b := WriteAssignments(b, p.assignments);
    assert b == out + Body(p);
    r := Some(b);
  }

  /** The bodies without assignments. */
  method WriteFixed(out: seq<Byte>, p: Payload) returns (r: seq<Byte>)
    requires p.Mint? || p.AttestorRegister? || p.ClaimNotice? || p.AttestorRevive?
    ensures r == out + Body(p)
  {
    r := out;
    match p {
      case Mint(term, cents, lock, ref, owner, fee, attest) =>
        r := r + [term];
        r := r + Le32(cents);
        r := r + Le32(lock);
        r := r + Le32(ref);
        r := r + ([owner.scheme] + owner.hash);
        r := r + [fee];
        r := r + [attest];
      case AttestorRegister(key, bond, locktime, flags) =>
        r := r + key;
        r := r + bond;
        r := r + Le32(locktime);
        r := r + [flags];
      case ClaimNotice(txid, vout, ref) =>
        r := r + txid;
        r := r + [vout];
        r := r + Le32(ref);
      case AttestorRevive(number, price, cited, sig) =>
        r := r + Le16(number);
        r := r + Le32(price);
        r := r + Le32(cited);
        r := r + sig;
    }
  }

  method WriteBody(out: seq<Byte>, p: Payload) returns (r: Option<seq<Byte>>)
    ensures r == if Encodable(p) then Some(out + Body(p)) else None
  {
    match p {
      case Transfer(_) => r := WriteTransfer(out, p);
      case Redeem(_, _, _, _) => r := WriteRedeem(out, p);
      case Equivocation =>
        assert out == out + [];
        r := Some(out);
      case _ =>
        var b := WriteFixed(out, p);
        r := Some(b);
    }
  }

  method EncodePayload(p: Payload) returns (r: Option<seq<Byte>>)
    ensures r == Encode(p)
  {
    DecodeEncode(p);
    var out := [MAGIC_0, MAGIC_1];
    out := out + [VersionOf(TypeOf(p))];
    out := out + [TypeByte(TypeOf(p))];
    assert out == Header(TypeOf(p));
    out :- WriteBody(out, p);
    if |out| > MAX_PAYLOAD {
      return None;
    }
    r := Some(out);
  }

  method ReadAssignments(r: Reader, count: Byte) returns (a: Option<seq<Assignment>>)
    requires r.pos <= |r.data|
    modifies r
    ensures if old(r.pos) + 5 * count as nat <= |r.data|
            then a == Some(AssignmentsAt(r.data, old(r.pos), count)) && r.pos == old(r.pos) + 5 * count as nat
            else a == None
  {
    var out, start := [], r.pos;
    for i := 0 to count as nat
      invariant r.pos == start + 5 * i <= |r.data|
      invariant |out| == i
      invariant forall j :: 0 <= j < i ==>
                  out[j] == Assignment(r.data[start + 5 * j], Le32At(r.data, start + 5 * j + 1))
    {
      var vout :- r.U8();
      var cents :- r.ReadU32();
      out := out + [Assignment(vout, cents)];
    }
    assert out == AssignmentsAt(r.data, start, count);
    a := Some(out);
  }

  // ---------------------------------------------------------------- decoding

  method ReadMint(r: Reader) returns (p: Option<Payload>)
    requires r.pos == 4 <= |r.data|
    modifies r
    ensures p == DecodeBody(r.data, MintType) && (p.Some? ==> r.AtEnd())
  {
    if |r.data| != 52 {
      return None;
    }
    var term :- r.U8();
    var cents :- r.ReadU32();
    var lock :- r.ReadU32();
    var ref :- r.ReadU32();
    var owner :- r.Take(33);
    var fee :- r.U8();
    var attest :- r.U8();
    assert owner[1..] == r.data[18..50];
    p := Some(Mint(term, cents, lock, ref, KeyId(owner[0], owner[1..]), fee, attest));
  }

  method ReadTransfer(r: Reader) returns (p: Option<Payload>)
    requires r.pos == 4 <= |r.data|
    modifies r
    ensures p == DecodeBody(r.data, TransferType) && (p.Some? ==> r.AtEnd())
  {
    var count :- r.U8();
    if count > MAX_ASSIGNMENTS || |r.data| != 5 + 5 * count as nat {
      return None;
    }
    var a :- ReadAssignments(r, count);
    var ok := CheckAssignments(a, MAX_ASSIGNMENTS);
    if !ok {
      return None;
    }
    p := Some(Transfer(a));
  }

  method ReadRedeem(r: Reader) returns (p: Option<Payload>)
    requires r.pos == 4 <= |r.data|
    modifies r
    ensures p == DecodeBody(r.data, RedeemType) && (p.Some? ==> r.AtEnd())
  {
    var ref :- r.ReadU32();
    var fee :- r.U8();
    var attest :- r.U8();
    var count :- r.U8();
    if count > MAX_REDEEM_ASSIGNMENTS || |r.data| != 11 + 5 * count as nat {
      return None;
    }
    var a :- ReadAssignments(r, count);
    var ok := CheckAssignments(a, MAX_REDEEM_ASSIGNMENTS);
    if !ok {
      return None;
    }
    p := Some(Redeem(ref, fee, attest, a));
  }

  method ReadRegister(r: Reader) returns (p: Option<Payload>)
    requires r.pos == 4 <= |r.data|
    modifies r
    ensures p == DecodeBody(r.data, RegisterType) && (p.Some? ==> r.AtEnd())
  {
    if |r.data| != 75 {
      return None;
    }
    var key :- r.Take(33);
    var bond :- r.Take(33);
    var locktime :- r.ReadU32();
    var flags :- r.U8();
    p := Some(AttestorRegister(key, bond, locktime, flags));
  }

  method ReadNotice(r: Reader) returns (p: Option<Payload>)
    requires r.pos == 4 <= |r.data|
    modifies r
    ensures p == DecodeBody(r.data, NoticeType) && (p.Some? ==> r.AtEnd())
  {
    if |r.data| != 41 {
      return None;
    }
    var txid :- r.Take(32);
    var vout :- r.U8();
    var ref :- r.ReadU32();
    p := Some(ClaimNotice(txid, vout, ref));
  }

  method ReadRevive(r: Reader) returns (p: Option<Payload>)
    requires r.pos == 4 <= |r.data|
    modifies r
    ensures p == DecodeBody(r.data, ReviveType) && (p.Some? ==> r.AtEnd())
  {
    if |r.data| != 78 {
      return None;
    }
    var number :- r.ReadU16();
    var price :- r.ReadU32();
    var cited :- r.ReadU32();
    var sig :- r.Take(64);
    p := Some(AttestorRevive(number, price, cited, sig));
  }

  method ReadBody(r: Reader, t: PayloadType) returns (p: Option<Payload>)
    requires r.pos == 4 <= |r.data|
    modifies r
    ensures p == DecodeBody(r.data, t) && (p.Some? ==> r.AtEnd())
  {
    match t {
      case MintType => p := ReadMint(r);
      case TransferType => p := ReadTransfer(r);
      case RedeemType => p := ReadRedeem(r);
      case RegisterType => p := ReadRegister(r);
      case NoticeType => p := ReadNotice(r);
      case EquivocationType => p := if |r.data| != 4 then None else Some(Equivocation);
      case ReviveType => p := ReadRevive(r);
    }
  }

  /** The cursor-moving decoder reads every field at the offset the layout gives it. */
  method DecodePayload(data: seq<Byte>) returns (p: Option<Payload>)
    ensures p == Decode(data)
  {
    if |data| < MIN_PAYLOAD || |data| > MAX_PAYLOAD {
      return None;
    }
    if data[0] != MAGIC_0 || data[1] != MAGIC_1 {
      return None;
    }
    var r := new Reader(data);
    var magic0 :- r.U8();
    var magic1 :- r.U8();
    var version :- r.U8();
    var typeByte :- r.U8();
    var t :- TypeFromByte(typeByte);
    if version != VersionOf(t) {
      return None;
    }
    p := ReadBody(r, t);
    if p.Some? && !r.AtEnd() {
      return None;
    }
  }

  // ---------------------------------------------------------------- finding the payload

  function PayloadScript(data: seq<Byte>): seq<Byte> {
    [OP_RETURN] + PushData(data)
  }

  /** The pushed bytes when the script is exactly `OP_RETURN` and one data push of 4..80 bytes. */
  function ExtractOpReturnData(script: seq<Byte>): Option<seq<Byte>> {
    if !IsOpReturn(script) then None
    else
      match Ops(script[1..])
      case None => None
      case Some(ops) =>
        if |ops| != 1 || ops[0].opcode > OP_PUSHDATA4 || |ops[0].data| < MIN_PAYLOAD || |ops[0].data| > MAX_PAYLOAD
        then None else Some(ops[0].data)
  }

  /** A payload script carries its data. */
  lemma {:induction false} ExtractPayloadScript(data: seq<Byte>)
    requires MIN_PAYLOAD <= |data| <= MAX_PAYLOAD
    ensures ExtractOpReturnData(PayloadScript(data)) == Some(data)
  {
    assert PayloadScript(data)[1..] == PushData(data);
    PushReads(data);
    ReadsAlone(PushData(data), [PushOp(data)]);
  }

  ghost predicate OnlyOpReturn(tx: Transaction, i: nat) {
    && i < |tx.vout| && IsOpReturn(tx.vout[i].script)
    && forall j :: 0 <= j < |tx.vout| && j != i ==> !IsOpReturn(tx.vout[j].script)
  }

  method FindOpReturn(tx: Transaction) returns (r: Option<nat>)
    ensures r.Some? ==> OnlyOpReturn(tx, r.value)
    ensures r.None? ==> forall i :: !OnlyOpReturn(tx, i)
  {
    r := None;
    for i := 0 to |tx.vout|
      invariant r.Some? ==> r.value < i && IsOpReturn(tx.vout[r.value].script)
      invariant forall j :: 0 <= j < i && r != Some(j) ==> !IsOpReturn(tx.vout[j].script)
    {
      if IsOpReturn(tx.vout[i].script) {
        if r.Some? {
          return None;
        }
        r := Some(i);
      }
    }
  }

  function Assignments(p: Payload): seq<Assignment> {
    if p.Transfer? || p.Redeem? then p.assignments else []
  }

  datatype FoundPayload = FoundPayload(payload: Payload, opReturn: nat)

  /** The outputs assigned cents exist and are not the OP_RETURN. */
  ghost predicate InRange(a: seq<Assignment>, outputs: nat, opReturn: nat) {
    forall i :: 0 <= i < |a| ==> a[i].vout < outputs && a[i].vout != opReturn
  }

  /** `f` is the transaction's payload: its only OP_RETURN decodes to it, and every output it
      assigns cents to exists and is not the OP_RETURN. */
  ghost predicate Carries(tx: Transaction, f: FoundPayload) {
    && OnlyOpReturn(tx, f.opReturn)
    && ExtractOpReturnData(tx.vout[f.opReturn].script).Some?
    && Decode(ExtractOpReturnData(tx.vout[f.opReturn].script).value) == Some(f.payload)
    && InRange(Assignments(f.payload), |tx.vout|, f.opReturn)
  }

  /** A transaction carries at most one payload. */
  lemma CarriesOne(tx: Transaction, f: FoundPayload, g: FoundPayload)
    requires Carries(tx, f) && Carries(tx, g)
    ensures f == g
  {
  }

  method CheckRange(a: seq<Assignment>, outputs: nat, opReturn: nat) returns (ok: bool)
    ensures ok <==> InRange(a, outputs, opReturn)
  {
    for i := 0 to |a|
      invariant forall j :: 0 <= j < i ==> a[j].vout < outputs && a[j].vout != opReturn
    {
      if a[i].vout >= outputs || a[i].vout == opReturn {
        return false;
      }
    }
    return true;
  }

  /** The payload a transaction carries, if it carries one. */
  ghost function PayloadOf(tx: Transaction): (r: Option<FoundPayload>)
    ensures r.Some? ==> Carries(tx, r.value)
    ensures r.None? ==> forall f :: !Carries(tx, f)
  {
    if exists f :: Carries(tx, f) then
      var f :| Carries(tx, f);
      Some(f)
    else None
  }

  lemma {:induction false} CarriedAt(tx: Transaction, i: nat, f: FoundPayload)
    requires OnlyOpReturn(tx, i) && Carries(tx, f)
    ensures f.opReturn == i && ExtractOpReturnData(tx.vout[i].script).Some?
    ensures Decode(ExtractOpReturnData(tx.vout[i].script).value) == Some(f.payload)
    ensures InRange(Assignments(f.payload), |tx.vout|, i)
  {
  }

  /** The payload at the transaction's only OP_RETURN. */
  method PayloadAt(tx: Transaction, idx: nat) returns (r: Option<FoundPayload>)
    requires OnlyOpReturn(tx, idx)
    ensures r == PayloadOf(tx)
  {
    ghost var want := PayloadOf(tx);
    if want.Some? {
      CarriedAt(tx, idx, want.value);
    }
    var data :- ExtractOpReturnData(tx.vout[idx].script);
    var payload :- DecodePayload(data);
    var ok := CheckRange(Assignments(payload), |tx.vout|, idx);
    if !ok {
      return None;
    }
    r := Some(FoundPayload(payload, idx));
    assert Carries(tx, r.value);
  }

  method FindPayload(tx: Transaction) returns (r: Option<FoundPayload>)
    ensures r == PayloadOf(tx)
  {
    var idx := FindOpReturn(tx);
    if idx.None? {
      return None;
    }
    r := PayloadAt(tx, idx.value);
  }

  /** Written into a transaction's only OP_RETURN, an encodable payload is the one found there, if and
      only if the outputs it assigns cents to exist and are not that OP_RETURN. */
  lemma {:induction false} WrittenIsFound(tx: Transaction, i: nat, p: Payload)
    requires Encodable(p) && OnlyOpReturn(tx, i)
    requires tx.vout[i].script == PayloadScript(Encode(p).value)
    ensures PayloadOf(tx)
         == if p.Transfer? || p.Redeem? ==>
                 forall k :: 0 <= k < |p.assignments| ==>
                   p.assignments[k].vout < |tx.vout| && p.assignments[k].vout != i
            then Some(FoundPayload(p, i)) else None
  {
    DecodeEncode(p);
    ExtractPayloadScript(Encode(p).value);
    if InRange(Assignments(p), |tx.vout|, i) {
      assert Carries(tx, FoundPayload(p, i));
      CarriesOne(tx, FoundPayload(p, i), PayloadOf(tx).value);
    } else if PayloadOf(tx).Some? {
      CarriedAt(tx, i, PayloadOf(tx).value);
    }
  }

  /** A transaction without an OP_RETURN, or with two of them, carries no payload. */
  lemma {:induction false} OneOpReturnOnly(tx: Transaction, i: nat, j: nat)
    requires i < |tx.vout| && j < |tx.vout|
    ensures i != j && IsOpReturn(tx.vout[i].script) && IsOpReturn(tx.vout[j].script) ==> PayloadOf(tx) == None
    ensures (forall k :: 0 <= k < |tx.vout| ==> !IsOpReturn(tx.vout[k].script)) ==> PayloadOf(tx) == None
  {
  }

  lemma {:induction false} ExtractBytes(script: seq<Byte>, data: seq<Byte>)
    requires script != [] && |data| < |script|
    ensures var s := script[1..];
            && s[|s| - |data|..] == script[|script| - |data|..]
            && s[..|s| - |data|] == script[1..|script| - |data|]
  {
  }

  /** The script is 0x6a and one push of `data`, in any of the four forms. */
  ghost predicate PushesOnly(script: seq<Byte>, data: seq<Byte>) {
    && |script| > |data| && script[0] == 0x6a
    && script[|script| - |data|..] == data && Announces(script[1..|script| - |data|], |data|)
  }

  lemma {:induction false} ExtractedIsPushed(script: seq<Byte>, data: seq<Byte>)
    requires ExtractOpReturnData(script) == Some(data)
    ensures 4 <= |data| <= 80 && PushesOnly(script, data)
  {
    OnePushIs(script[1..]);
    ExtractBytes(script, data);
  }

  lemma {:induction false} PushedIsExtracted(script: seq<Byte>, data: seq<Byte>)
    requires 4 <= |data| <= 80 && PushesOnly(script, data)
    ensures ExtractOpReturnData(script) == Some(data)
  {
    var h := script[1..|script| - |data|];
    assert script[1..] == h + data;
    AnnouncedReads(h, data);
  }

  /** The data of a script is `data` exactly when it is 4 to 80 bytes long and all the script pushes. */
  lemma {:induction false} ExtractIff(script: seq<Byte>, data: seq<Byte>)
    ensures ExtractOpReturnData(script) == Some(data) <==> 4 <= |data| <= 80 && PushesOnly(script, data)
  {
    if ExtractOpReturnData(script) == Some(data) {
      ExtractedIsPushed(script, data);
    }
    if 4 <= |data| <= 80 && PushesOnly(script, data) {
      PushedIsExtracted(script, data);
    }
  }
}
