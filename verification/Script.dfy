/** Script bytes: the push encoding, the op iterator and the output shapes the wallet recognises. */
module Script {
  import opened Wrappers
  import opened Bytes

  const OP_PUSHDATA1: Byte := 0x4c
  const OP_PUSHDATA2: Byte := 0x4d
  const OP_PUSHDATA4: Byte := 0x4e
  const OP_1: Byte := 0x51
  const OP_16: Byte := 0x60
  const OP_RETURN: Byte := 0x6a
  const OP_DUP: Byte := 0x76
  const OP_EQUAL: Byte := 0x87
  const OP_EQUALVERIFY: Byte := 0x88
  const OP_HASH160: Byte := 0xa9
  const OP_CHECKSIG: Byte := 0xac

  datatype ScriptOp = ScriptOp(opcode: Byte, data: seq<Byte>)

  /** The bytes in front of a pushed element of `n` bytes. */
  function PushHeader(n: nat): seq<Byte> {
    if n < OP_PUSHDATA1 then [n]
    else if n <= 0xff then [OP_PUSHDATA1, n]
    else if n <= 0xffff then [OP_PUSHDATA2] + Le16(n)
    else [OP_PUSHDATA4] + Le32(n % 0x1_0000_0000)
  }

  function PushData(data: seq<Byte>): seq<Byte> {
    PushHeader(|data|) + data
  }

  /** The opcode and length announced at the start of a script: `(length, bytes used)`. */
  function Announced(script: seq<Byte>): Option<(nat, nat)>
    requires script != []
  {
    var opcode := script[0];
    if opcode < OP_PUSHDATA1 then Some((opcode, 1))
    else if opcode == OP_PUSHDATA1 then (if |script| < 2 then None else Some((script[1], 2)))
    else if opcode == OP_PUSHDATA2 then (if |script| < 3 then None else Some((Le16At(script, 1), 3)))
    else if opcode == OP_PUSHDATA4 then (if |script| < 5 then None else Some((Le32At(script, 1), 5)))
    else Some((0, 1))
  }

  /** The first op of a script and the number of bytes it takes; `None` when a push is truncated. */
  function FirstOp(script: seq<Byte>): (r: Option<(ScriptOp, nat)>)
    requires script != []
    ensures r.Some? ==> 0 < r.value.1 <= |script|
  {
    match Announced(script)
    case None => None
    case Some((n, at)) =>
      if at + n > |script| then None else Some((ScriptOp(script[0], script[at..at + n]), at + n))
  }

  function Ops(script: seq<Byte>): Option<seq<ScriptOp>> {
    if script == [] then Some([])
    else
      match FirstOp(script)
      case None => None
      case Some((o, n)) =>
        match Ops(script[n..])
        case None => None
        case Some(rest) => Some([o] + rest)
  }

  /** The ops already read, in front of what the rest of the script gives. */
  function Onto(out: seq<ScriptOp>, rest: Option<seq<ScriptOp>>): Option<seq<ScriptOp>> {
    match rest
    case None => None
    case Some(t) => Some(out + t)
  }

  lemma {:induction false} OntoStep(out: seq<ScriptOp>, script: seq<Byte>)
    requires script != []
    ensures match FirstOp(script)
            case None => Onto(out, Ops(script)) == None
            case Some((o, n)) => Onto(out, Ops(script)) == Onto(out + [o], Ops(script[n..]))
  {
    match FirstOp(script)
    case None =>
    case Some((o, n)) =>
      match Ops(script[n..])
      case None =>
      case Some(t) => assert out + ([o] + t) == (out + [o]) + t;
  }

  lemma {:induction false} OntoNothing(script: seq<Byte>)
    ensures Onto([], Ops(script)) == Ops(script)
  {
    if Ops(script).Some? {
      assert [] + Ops(script).value == Ops(script).value;
    }
  }

  method ReadOps(script: seq<Byte>) returns (r: Option<seq<ScriptOp>>)
    ensures r == Ops(script)
  {
    var out, rest := [], script;
    OntoNothing(script);
    while rest != []
      invariant Onto(out, Ops(rest)) == Ops(script)
      decreases |rest|
    {
      OntoStep(out, rest);
      var one := FirstOp(rest);
      if one.None? {
        return None;
      }
      out, rest := out + [one.value.0], rest[one.value.1..];
    }
    assert out + [] == out;
    r := Some(out);
  }

  /** The op a pushed element reads back as. */
  function PushOp(data: seq<Byte>): ScriptOp {
    ScriptOp(PushHeader(|data|)[0], data)
  }

  /** In front of anything, these bytes read as these ops. */
  ghost predicate ReadsAs(b: seq<Byte>, ops: seq<ScriptOp>) {
    forall rest: seq<Byte> :: Ops(b + rest) == Onto(ops, Ops(rest))
  }

  lemma {:induction false} PushThenRest(data: seq<Byte>, rest: seq<Byte>)
    requires |data| <= 0xffff
    ensures Ops(PushData(data) + rest) == Onto([PushOp(data)], Ops(rest))
  {
    var s, h := PushData(data) + rest, PushHeader(|data|);
    var n := |h| + |data|;
    if 0xff < |data| {
      assert s[1..3] == Le16(|data|);
      Le16RoundTrip(|data|, s, 1);
    }
    assert Announced(s) == Some((|data|, |h|));
    assert s[|h|..n] == data;
    assert s[n..] == rest;
  }

  /** A pushed element is read back as one op. */
  lemma {:induction false} PushReads(data: seq<Byte>)
    requires |data| <= 0xffff
    ensures ReadsAs(PushData(data), [PushOp(data)])
  {
    forall rest: seq<Byte>
      ensures Ops(PushData(data) + rest) == Onto([PushOp(data)], Ops(rest))
    {
      PushThenRest(data, rest);
    }
  }

  /** An `OP_1`..`OP_16` is read back as itself. */
  lemma {:induction false} SmallIntReads(op: Byte)
    requires OP_1 <= op <= OP_16
    ensures ReadsAs([op], [ScriptOp(op, [])])
  {
    forall rest: seq<Byte>
      ensures Ops([op] + rest) == Onto([ScriptOp(op, [])], Ops(rest))
    {
      var s := [op] + rest;
      assert s[1..1] == [] && s[1..] == rest;
    }
  }

  lemma {:induction false} NothingReads()
    ensures ReadsAs([], [])
  {
    forall rest: seq<Byte>
      ensures Ops([] + rest) == Onto([], Ops(rest))
    {
      assert [] + rest == rest;
      OntoNothing(rest);
    }
  }

  lemma {:induction false} InTurn(a: seq<Byte>, x: seq<ScriptOp>, b: seq<Byte>, y: seq<ScriptOp>, rest: seq<Byte>)
    requires Ops(a + (b + rest)) == Onto(x, Ops(b + rest)) && Ops(b + rest) == Onto(y, Ops(rest))
    ensures Ops(a + b + rest) == Onto(x + y, Ops(rest))
  {
    assert a + b + rest == a + (b + rest);
    var r := Ops(rest);
    if r.Some? {
      assert x + (y + r.value) == x + y + r.value;
    }
  }

  /** Scripts read one after the other. */
  lemma {:induction false} ReadsInTurn(a: seq<Byte>, x: seq<ScriptOp>, b: seq<Byte>, y: seq<ScriptOp>)
    requires ReadsAs(a, x) && ReadsAs(b, y)
    ensures ReadsAs(a + b, x + y)
  {
    forall rest: seq<Byte>
      ensures Ops(a + b + rest) == Onto(x + y, Ops(rest))
    {
      InTurn(a, x, b, y, rest);
    }
  }

  lemma {:induction false} ReadsAlone(b: seq<Byte>, ops: seq<ScriptOp>)
    requires ReadsAs(b, ops)
    ensures Ops(b) == Some(ops)
  {
    assert b + [] == b && ops + [] == ops;
    assert Ops(b + []) == Onto(ops, Ops([]));
  }

  // ---------------------------------------------------------------- output shapes

  function P2pkhHash(script: seq<Byte>): (r: Option<seq<Byte>>)
    ensures r.Some? ==> |r.value| == 20
  {
    if |script| == 25 && script[0] == OP_DUP && script[1] == OP_HASH160 && script[2] == 20
       && script[23] == OP_EQUALVERIFY && script[24] == OP_CHECKSIG
    then Some(script[3..23]) else None
  }

  function P2shHash(script: seq<Byte>): (r: Option<seq<Byte>>)
    ensures r.Some? ==> |r.value| == 20
  {
    if |script| == 23 && script[0] == OP_HASH160 && script[1] == 20 && script[22] == OP_EQUAL
    then Some(script[2..22]) else None
  }

  predicate IsOpReturn(script: seq<Byte>) {
    script != [] && script[0] == OP_RETURN
  }

  // ---------------------------------------------------------------- the shapes, byte by byte

  /** The bytes in front of a push: its length, or one of the three longer forms, lowest byte first. */
  lemma {:induction false} PushHeaderIs(n: nat)
    requires n < 0x1_0000_0000
    ensures PushHeader(n) == if n <= 75 then [n]
                             else if n <= 255 then [0x4c, n]
                             else if n <= 65_535 then [0x4d, n % 256, n / 256]
                             else [0x4e, n % 256, n / 256 % 256, n / 65_536 % 256, n / 16_777_216]
  {
  }

  /** `h` in front of `n` bytes announces a push of them. */
  ghost predicate Announces(h: seq<Byte>, n: nat) {
    || (n <= 75 && h == [n])
    || (n < 0x100 && h == [0x4c, n])
    || (n < 0x1_0000 && h == [0x4d, n % 256, n / 256])
    || (n < 0x1_0000_0000 && h == [0x4e, n % 256, n / 256 % 256, n / 65_536 % 256, n / 16_777_216])
  }

  lemma {:induction false} AnnouncedReads(h: seq<Byte>, data: seq<Byte>)
    requires Announces(h, |data|)
    ensures Ops(h + data) == Some([ScriptOp(h[0], data)]) && h[0] <= 0x4e
  {
    var s, n := h + data, |data|;
    assert s[..|h|] == h && s[|h|..] == data;
    if h[0] == 0x4d {
      assert s[1..3] == Le16(n);
      Le16RoundTrip(n, s, 1);
    } else if h[0] == 0x4e {
      assert s[1..5] == Le32(n);
      Le32RoundTrip(n, s, 1);
    }
    assert Announced(s) == Some((n, |h|));
    assert s[|h|..|h| + n] == data;
    var o := ScriptOp(h[0], data);
    assert FirstOp(s) == Some((o, |s|));
    assert s[|s|..] == [] && Ops(s[|s|..]) == Some([]);
    assert [o] + [] == [o];
  }

  lemma {:induction false} AnnouncedBytes(s: seq<Byte>)
    requires s != [] && s[0] <= 0x4e && Announced(s).Some? && Announced(s).value.1 <= |s|
    ensures var (len, at) := Announced(s).value; Announces(s[..at], len)
  {
    var (len, at) := Announced(s).value;
    if s[0] == 0x4d {
      Le16Unique(s, 1);
      assert s[..3] == [0x4d] + s[1..3];
    } else if s[0] == 0x4e {
      Le32Unique(s, 1);
      assert s[..5] == [0x4e] + s[1..5];
    }
  }

  lemma {:induction false} OnePushIs(s: seq<Byte>)
    requires Ops(s).Some? && |Ops(s).value| == 1 && Ops(s).value[0].opcode <= 0x4e
    ensures var data := Ops(s).value[0].data;
            |data| <= |s| && s[|s| - |data|..] == data && Announces(s[..|s| - |data|], |data|)
  {
    var (o, n) := FirstOp(s).value;
    assert Ops(s).value == [o] + Ops(s[n..]).value;
    assert Ops(s[n..]).value == [];
    assert s[n..] == [];
    var (len, at) := Announced(s).value;
    assert o.data == s[at..at + len];
    AnnouncedBytes(s);
  }

  /** A pay-to-key-hash script: `OP_DUP OP_HASH160 <20 bytes> OP_EQUALVERIFY OP_CHECKSIG`. */
  lemma {:induction false} P2pkhIff(script: seq<Byte>, h: seq<Byte>)
    ensures P2pkhHash(script) == Some(h) <==> |h| == 20 && script == [0x76, 0xa9, 20] + h + [0x88, 0xac]
  {
    if P2pkhHash(script) == Some(h) {
      assert script == script[..3] + script[3..23] + script[23..];
    }
    if |h| == 20 && script == [0x76, 0xa9, 20] + h + [0x88, 0xac] {
      assert script[3..23] == h;
    }
  }

  /** A pay-to-script-hash script: `OP_HASH160 <20 bytes> OP_EQUAL`. */
  lemma {:induction false} P2shIff(script: seq<Byte>, h: seq<Byte>)
    ensures P2shHash(script) == Some(h) <==> |h| == 20 && script == [0xa9, 20] + h + [0x87]
  {
    if P2shHash(script) == Some(h) {
      assert script == script[..2] + script[2..22] + script[22..];
    }
    if |h| == 20 && script == [0xa9, 20] + h + [0x87] {
      assert script[2..22] == h;
    }
  }
}
