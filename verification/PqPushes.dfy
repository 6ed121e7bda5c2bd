/**
 The chunked pushes of a post-quantum spend: `<sig chunks> <count> <key chunks> <count>`, every
 chunk but the last of an element exactly 520 bytes, the counts as `OP_1`..`OP_16`.
 */
module PqPushes {
  import opened Wrappers
  import opened Bytes
  import opened Script

  const MAX_CHUNK: nat := 520
  const MAX_ELEMENT: nat := 8320

  datatype PqError = TooManyChunks(length: nat)

  function Chunks(data: seq<Byte>): seq<seq<Byte>> {
    if data == [] then []
    else if |data| <= MAX_CHUNK then [data]
    else [data[..MAX_CHUNK]] + Chunks(data[MAX_CHUNK..])
  }

  function Join(cs: seq<seq<Byte>>): seq<Byte> {
    if cs == [] then [] else cs[0] + Join(cs[1..])
  }

  lemma {:induction false} JoinAppend(cs: seq<seq<Byte>>, c: seq<Byte>)
    ensures Join(cs + [c]) == Join(cs) + c
  {
    if cs == [] {
      assert [c][1..] == [] && c + [] == [] + c;
    } else {
      JoinAppend(cs[1..], c);
      assert (cs + [c])[1..] == cs[1..] + [c];
    }
  }

  function PushAll(cs: seq<seq<Byte>>): seq<Byte> {
    if cs == [] then [] else PushData(cs[0]) + PushAll(cs[1..])
  }

  /** Every chunk but the last is full and the last is not empty. */
  ghost predicate Chunked(cs: seq<seq<Byte>>) {
    && (forall i :: 0 <= i < |cs| - 1 ==> |cs[i]| == MAX_CHUNK)
    && (cs != [] ==> 1 <= |cs[|cs| - 1]| <= MAX_CHUNK)
  }

  /** The elements that fit sixteen chunks. */
  predicate Fits(data: seq<Byte>) {
    1 <= |data| <= MAX_ELEMENT
  }

  lemma {:induction false} ChunksFacts(data: seq<Byte>)
    ensures Chunked(Chunks(data)) && Join(Chunks(data)) == data
    ensures |Chunks(data)| == (|data| + 519) / MAX_CHUNK
    decreases |data|
  {
    if data == [] {
    } else if |data| <= MAX_CHUNK {
      assert Chunks(data)[1..] == [];
      assert data + [] == data;
    } else {
      var rest := data[MAX_CHUNK..];
      ChunksFacts(rest);
      assert Chunks(data)[1..] == Chunks(rest);
      assert Chunks(rest) != [];
      forall i | 0 <= i < |Chunks(data)| - 1
        ensures |Chunks(data)[i]| == MAX_CHUNK
      {
        if i > 0 {
          assert Chunks(data)[i] == Chunks(rest)[i - 1];
        }
      }
    }
  }

  lemma {:induction false} FitsIsSixteen(data: seq<Byte>)
    ensures Fits(data) <==> 1 <= |Chunks(data)| <= 16
  {
    ChunksFacts(data);
  }

  lemma {:induction false} JoinNotEmpty(cs: seq<seq<Byte>>)
    requires Chunked(cs) && cs != []
    ensures Join(cs) != []
  {
    if |cs| == 1 {
      assert cs[1..] == [];
    }
  }

  /** A list in chunk form is the only chunking of what it joins to. */
  lemma {:induction false} ChunkingIsUnique(cs: seq<seq<Byte>>)
    requires Chunked(cs)
    ensures Chunks(Join(cs)) == cs
  {
    if |cs| == 1 {
      assert cs[1..] == [] && cs == [cs[0]];
      assert Join(cs) == cs[0] + [] == cs[0];
    } else if cs != [] {
      var rest := cs[1..];
      assert |cs[0]| == MAX_CHUNK;
      ChunkingIsUnique(rest);
      assert rest[|rest| - 1] == cs[|cs| - 1];
      JoinNotEmpty(rest);
      assert Join(cs)[..MAX_CHUNK] == cs[0] && Join(cs)[MAX_CHUNK..] == Join(rest);
      assert cs == [cs[0]] + rest;
    }
  }

  // ---------------------------------------------------------------- building

  function CountOp(n: nat): Byte
    requires 1 <= n <= 16
  {
    OP_1 + (n as int) - 1
  }

  function Element(data: seq<Byte>): seq<Byte>
    requires Fits(data)
  {
    FitsIsSixteen(data);
    PushAll(Chunks(data)) + [CountOp(|Chunks(data)|)]
  }

  /** The whole signature script. */
  function SigPushes(sig: seq<Byte>, pk: seq<Byte>): seq<Byte>
    requires Fits(sig) && Fits(pk)
  {
    Element(sig) + Element(pk)
  }

  lemma {:induction false} PushStep(out: seq<Byte>, c: seq<seq<Byte>>, i: nat)
    requires i < |c|
    ensures (out + PushData(c[i])) + PushAll(c[i + 1..]) == out + PushAll(c[i..])
  {
    assert c[i..][1..] == c[i + 1..];
    assert PushAll(c[i..]) == PushData(c[i]) + PushAll(c[i + 1..]);
  }

  method PushChunked(s: seq<Byte>, data: seq<Byte>) returns (r: Result<seq<Byte>, PqError>)
    ensures r == if Fits(data) then Ok(s + Element(data)) else Err(TooManyChunks(|data|))
  {
    FitsIsSixteen(data);
    var c := Chunks(data);
    if |c| == 0 || |c| > 16 {
      return Err(TooManyChunks(|data|));
    }
    var out := s;
    assert c[0..] == c;
    for i := 0 to |c|
      invariant out + PushAll(c[i..]) == s + PushAll(c)
    {
      PushStep(out, c, i);
      out := out + PushData(c[i]);
    }
    assert out == s + PushAll(c) by {
      assert c[|c|..] == [];
      assert out + [] == out;
    }
    out := out + [CountOp(|c|)];
    assert out == s + (PushAll(c) + [CountOp(|c|)]);
    r := Ok(out);
  }

  method PqSigPushes(sig: seq<Byte>, pk: seq<Byte>) returns (r: Result<seq<Byte>, PqError>)
    ensures r == if !Fits(sig) then Err(TooManyChunks(|sig|))
                 else if !Fits(pk) then Err(TooManyChunks(|pk|))
                 else Ok(SigPushes(sig, pk))
  {
    r := PushChunked([], sig);
    if r.Err? {
      return;
    }
    assert [] + Element(sig) == Element(sig);
    r := PushChunked(r.value, pk);
  }

  // ---------------------------------------------------------------- parsing

  function IsCount(o: ScriptOp): bool {
    OP_1 <= o.opcode <= OP_16
  }

  /** A data push that may stand at position `i` of `n` chunks. */
  predicate IsChunk(o: ScriptOp, last: bool) {
    o.opcode <= OP_PUSHDATA4 && 1 <= |o.data| <= MAX_CHUNK && (last || |o.data| == MAX_CHUNK)
  }

  /** The data of `n` ops from `first` on, one after the other. */
  ghost function Gathered(ops: seq<ScriptOp>, first: nat, n: nat): seq<Byte>
    requires first + n <= |ops|
  {
    if n == 0 then [] else Gathered(ops, first, n - 1) + ops[first + n - 1].data
  }

  ghost function Datas(ops: seq<ScriptOp>, first: nat, n: nat): (r: seq<seq<Byte>>)
    requires first + n <= |ops|
    ensures |r| == n && forall i :: 0 <= i < n ==> r[i] == ops[first + i].data
  {
    seq(n, i requires 0 <= i < n => ops[first + i].data)
  }

  lemma {:induction false} GatheredIsJoin(ops: seq<ScriptOp>, first: nat, n: nat)
    requires first + n <= |ops|
    ensures Gathered(ops, first, n) == Join(Datas(ops, first, n))
  {
    if n > 0 {
      GatheredIsJoin(ops, first, n - 1);
      assert Datas(ops, first, n) == Datas(ops, first, n - 1) + [ops[first + n - 1].data];
      JoinAppend(Datas(ops, first, n - 1), ops[first + n - 1].data);
    }
  }

  /** The element whose count op is `ops[end - 1]`, and the index of its first chunk. */
  ghost function ElementAt(ops: seq<ScriptOp>, end: nat): (r: Option<(seq<Byte>, nat)>)
    ensures r.Some? ==> end <= |ops| && r.value.1 < end
  {
    if end == 0 || end > |ops| || !IsCount(ops[end - 1]) then None
    else
      var n := ops[end - 1].opcode as int - OP_1 + 1;
      if end < 1 + n then None
      else
        var first := end - 1 - n;
        if forall i :: first <= i < end - 1 ==> IsChunk(ops[i], i == end - 2)
        then Some((Gathered(ops, first, n), first)) else None
  }

  method ReadChunked(ops: seq<ScriptOp>, end: nat) returns (r: Option<(seq<Byte>, nat)>)
    ensures r == ElementAt(ops, end)
  {
    if end == 0 || end > |ops| {
      return None;
    }
    var countOp := ops[end - 1];
    if !IsCount(countOp) {
      return None;
    }
    var n := countOp.opcode as int - OP_1 + 1;
    if end < 1 + n {
      return None;
    }
    var first := end - 1 - n;
    var out := [];
    for i := 0 to n
      invariant forall j :: first <= j < first + i ==> IsChunk(ops[j], j == end - 2)
      invariant out == Gathered(ops, first, i)
    {
      var c := ops[first + i];
      if c.opcode > OP_PUSHDATA4 || c.data == [] {
        assert !IsChunk(ops[first + i], first + i == end - 2);
        return None;
      }
      var last := i + 1 == n;
      if (!last && |c.data| != MAX_CHUNK) || |c.data| > MAX_CHUNK {
        assert !IsChunk(ops[first + i], first + i == end - 2);
        return None;
      }
      out := out + c.data;
    }
    r := Some((out, first));
  }

  ghost function ParseOps(ops: seq<ScriptOp>): Option<(seq<Byte>, seq<Byte>)> {
    var pk := ElementAt(ops, |ops|);
    if pk.None? then None
    else
      var sig := ElementAt(ops, pk.value.1);
      if sig.None? || sig.value.1 != 0 then None else Some((sig.value.0, pk.value.0))
  }

  method ParsePqSigOps(ops: seq<ScriptOp>) returns (r: Option<(seq<Byte>, seq<Byte>)>)
    ensures r == ParseOps(ops)
  {
    var pk :- ReadChunked(ops, |ops|);
    var sig :- ReadChunked(ops, pk.1);
    if sig.1 != 0 {
      return None;
    }
    r := Some((sig.0, pk.0));
  }

  /** A bare spend, or a spend followed by one template selector. */
  ghost predicate IsPqSpend(ops: seq<ScriptOp>) {
    ParseOps(ops).Some? || (ops != [] && IsCount(ops[|ops| - 1]) && ParseOps(ops[..|ops| - 1]).Some?)
  }

  method IsPqScriptSig(scriptSig: seq<Byte>) returns (r: bool)
    ensures r <==> Ops(scriptSig).Some? && IsPqSpend(Ops(scriptSig).value)
  {
    var ops := ReadOps(scriptSig);
    if ops.None? {
      return false;
    }
    var bare := ParsePqSigOps(ops.value);
    if bare.Some? {
      return true;
    }
    if ops.value == [] || !IsCount(ops.value[|ops.value| - 1]) {
      return false;
    }
    var rest := ParsePqSigOps(ops.value[..|ops.value| - 1]);
    r := rest.Some?;
  }

  // ---------------------------------------------------------------- round trips

  function PushOps(cs: seq<seq<Byte>>): (r: seq<ScriptOp>)
    ensures |r| == |cs|
    ensures forall i :: 0 <= i < |cs| ==> r[i] == PushOp(cs[i])
  {
    if cs == [] then [] else [PushOp(cs[0])] + PushOps(cs[1..])
  }

  /** The ops of one pushed element. */
  function ElementOps(data: seq<Byte>): seq<ScriptOp>
    requires Fits(data)
  {
    FitsIsSixteen(data);
    PushOps(Chunks(data)) + [ScriptOp(CountOp(|Chunks(data)|), [])]
  }

  lemma {:induction false} PushAllReads(cs: seq<seq<Byte>>)
    requires forall i :: 0 <= i < |cs| ==> |cs[i]| <= MAX_CHUNK
    ensures ReadsAs(PushAll(cs), PushOps(cs))
  {
    if cs == [] {
      NothingReads();
    } else {
      PushReads(cs[0]);
      PushAllReads(cs[1..]);
      ReadsInTurn(PushData(cs[0]), [PushOp(cs[0])], PushAll(cs[1..]), PushOps(cs[1..]));
    }
  }

  lemma {:induction false} ElementReads(data: seq<Byte>)
    requires Fits(data)
    ensures ReadsAs(Element(data), ElementOps(data))
  {
    FitsIsSixteen(data);
    ChunksFacts(data);
    var cs := Chunks(data);
    var count := CountOp(|cs|);
    PushAllReads(cs);
    SmallIntReads(count);
    ReadsInTurn(PushAll(cs), PushOps(cs), [count], [ScriptOp(count, [])]);
  }

  lemma SmallHeader(n: nat)
    ensures PushHeader(n)[0] <= OP_PUSHDATA4
  {
  }

  /** Chunks in front of their count are read as one element. */
  lemma {:induction false} ChunksParse(ops: seq<ScriptOp>, cs: seq<seq<Byte>>, first: nat)
    requires Chunked(cs) && 1 <= |cs| <= 16 && first + |cs| < |ops|
    requires forall i :: 0 <= i < |cs| ==> ops[first + i] == PushOp(cs[i])
    requires ops[first + |cs|].opcode == CountOp(|cs|)
    ensures ElementAt(ops, first + |cs| + 1) == Some((Join(cs), first))
  {
    var end := first + |cs| + 1;
    forall i | first <= i < end - 1
      ensures IsChunk(ops[i], i == end - 2)
    {
      assert ops[first + (i - first)] == PushOp(cs[i - first]);
      SmallHeader(|cs[i - first]|);
    }
    GatheredIsJoin(ops, first, |cs|);
    assert Datas(ops, first, |cs|) == cs;
  }

  /** `own` is a list of full chunks and its count. */
  ghost predicate OpsOf(own: seq<ScriptOp>, cs: seq<seq<Byte>>) {
    && Chunked(cs) && 1 <= |cs| <= 16 && |own| == |cs| + 1
    && own[|cs|].opcode == CountOp(|cs|)
    && forall i :: 0 <= i < |cs| ==> own[i] == PushOp(cs[i])
  }

  lemma {:induction false} ElementOpsAre(data: seq<Byte>)
    requires Fits(data)
    ensures OpsOf(ElementOps(data), Chunks(data)) && Join(Chunks(data)) == data
  {
    FitsIsSixteen(data);
    ChunksFacts(data);
  }

  lemma {:induction false} OwnOpsParse(ops: seq<ScriptOp>, own: seq<ScriptOp>, cs: seq<seq<Byte>>, first: nat)
    requires OpsOf(own, cs) && first + |own| <= |ops| && ops[first..first + |own|] == own
    ensures ElementAt(ops, first + |own|) == Some((Join(cs), first))
  {
    forall i | 0 <= i < |own|
      ensures ops[first + i] == own[i]
    {
      assert ops[first..first + |own|][i] == own[i];
    }
    ChunksParse(ops, cs, first);
  }

  lemma {:induction false} FirstParses(a: seq<ScriptOp>, sig: seq<seq<Byte>>, b: seq<ScriptOp>)
    requires OpsOf(a, sig)
    ensures ElementAt(a + b, |a|) == Some((Join(sig), 0))
  {
    assert (a + b)[0..0 + |a|] == a;
    OwnOpsParse(a + b, a, sig, 0);
  }

  lemma {:induction false} SecondParses(a: seq<ScriptOp>, b: seq<ScriptOp>, pk: seq<seq<Byte>>)
    requires OpsOf(b, pk)
    ensures ElementAt(a + b, |a + b|) == Some((Join(pk), |a|))
  {
    assert (a + b)[|a|..|a| + |b|] == b;
    OwnOpsParse(a + b, b, pk, |a|);
  }

  /** Two elements one after the other parse as a signature and a key. */
  lemma {:induction false} TwoElements(a: seq<ScriptOp>, sig: seq<seq<Byte>>, b: seq<ScriptOp>, pk: seq<seq<Byte>>)
    requires OpsOf(a, sig) && OpsOf(b, pk)
    ensures ParseOps(a + b) == Some((Join(sig), Join(pk)))
  {
    FirstParses(a, sig, b);
    SecondParses(a, b, pk);
  }

  lemma {:induction false} SigPushesRead(sig: seq<Byte>, pk: seq<Byte>)
    requires Fits(sig) && Fits(pk)
    ensures Ops(SigPushes(sig, pk)) == Some(ElementOps(sig) + ElementOps(pk))
  {
    ElementReads(sig);
    ElementReads(pk);
    ReadsInTurn(Element(sig), ElementOps(sig), Element(pk), ElementOps(pk));
    ReadsAlone(SigPushes(sig, pk), ElementOps(sig) + ElementOps(pk));
  }

  lemma {:induction false} ElementOpsParse(sig: seq<Byte>, pk: seq<Byte>)
    requires Fits(sig) && Fits(pk)
    ensures ParseOps(ElementOps(sig) + ElementOps(pk)) == Some((sig, pk))
  {
    ElementOpsAre(sig);
    ElementOpsAre(pk);
    TwoElements(ElementOps(sig), Chunks(sig), ElementOps(pk), Chunks(pk));
  }

  /** Parsing the pushed bytes returns the same signature and key, for all elements of 1 to 8,320
      bytes. */
  lemma {:induction false} ParseSigPushes(sig: seq<Byte>, pk: seq<Byte>)
    requires Fits(sig) && Fits(pk)
    ensures Ops(SigPushes(sig, pk)).Some?
    ensures ParseOps(Ops(SigPushes(sig, pk)).value) == Some((sig, pk))
  {
    SigPushesRead(sig, pk);
    ElementOpsParse(sig, pk);
  }

  /** `o` says what `o'` says: the same count, or a push of the same bytes. */
  ghost predicate Same(o: ScriptOp, o': ScriptOp) {
    if IsCount(o') then o.opcode == o'.opcode else o.opcode <= OP_PUSHDATA4 && o.data == o'.data
  }

  ghost predicate AllSame(ops: seq<ScriptOp>, ops': seq<ScriptOp>) {
    |ops| == |ops'| && forall i :: 0 <= i < |ops| ==> Same(ops[i], ops'[i])
  }

  lemma {:induction false} DatasChunked(ops: seq<ScriptOp>, first: nat, n: nat)
    requires first + n <= |ops|
    requires forall i :: first <= i < first + n ==> IsChunk(ops[i], i == first + n - 1)
    ensures Chunked(Datas(ops, first, n))
  {
    var cs := Datas(ops, first, n);
    forall i | 0 <= i < n
      ensures cs[i] == ops[first + i].data && IsChunk(ops[first + i], first + i == first + n - 1)
    {
    }
  }

  lemma {:induction false} ElementChunks(ops: seq<ScriptOp>, end: nat)
    requires ElementAt(ops, end).Some?
    ensures var (data, first) := ElementAt(ops, end).value;
            var n := end - 1 - first;
            && Chunks(data) == Datas(ops, first, n)
            && 1 <= n <= 16 && ops[end - 1].opcode == CountOp(n)
            && forall i :: first <= i < end - 1 ==> ops[i].opcode <= OP_PUSHDATA4
  {
    var (data, first) := ElementAt(ops, end).value;
    var n := end - 1 - first;
    DatasChunked(ops, first, n);
    GatheredIsJoin(ops, first, n);
    ChunkingIsUnique(Datas(ops, first, n));
    assert forall i :: first <= i < end - 1 ==> IsChunk(ops[i], i == end - 2) ==> ops[i].opcode <= OP_PUSHDATA4;
  }

  lemma {:induction false} ElementOpAt(data: seq<Byte>, i: nat)
    requires Fits(data) && i <= |Chunks(data)| <= 16 && Chunks(data) != []
    ensures |ElementOps(data)| == |Chunks(data)| + 1
    ensures ElementOps(data)[i]
         == if i < |Chunks(data)| then PushOp(Chunks(data)[i]) else ScriptOp(CountOp(|Chunks(data)|), [])
  {
  }

  lemma {:induction false} OpMatches(ops: seq<ScriptOp>, end: nat, i: nat)
    requires ElementAt(ops, end).Some? && i < end - ElementAt(ops, end).value.1
    ensures var (data, first) := ElementAt(ops, end).value;
            var cs := Chunks(data);
            && 1 <= |cs| <= 16 && end - first == |cs| + 1
            && (i < |cs| ==> ops[first + i].data == cs[i] && ops[first + i].opcode <= OP_PUSHDATA4)
            && (i == |cs| ==> ops[first + i].opcode == CountOp(|cs|))
  {
    ElementChunks(ops, end);
  }

  lemma {:induction false} OpIsCanonical(ops: seq<ScriptOp>, end: nat, i: nat)
    requires ElementAt(ops, end).Some? && i < end - ElementAt(ops, end).value.1
    ensures var (data, first) := ElementAt(ops, end).value;
            Fits(data) && end - first == |ElementOps(data)| && Same(ops[first + i], ElementOps(data)[i])
  {
    var data := ElementAt(ops, end).value.0;
    OpMatches(ops, end, i);
    FitsIsSixteen(data);
    ElementOpAt(data, i);
    if i < |Chunks(data)| {
      SmallHeader(|Chunks(data)[i]|);
    }
  }

  lemma {:induction false} ElementIsCanonical(ops: seq<ScriptOp>, end: nat)
    requires ElementAt(ops, end).Some?
    ensures var (data, first) := ElementAt(ops, end).value;
            && Fits(data) && end - first == |ElementOps(data)|
            && forall i :: 0 <= i < end - first ==> Same(ops[first + i], ElementOps(data)[i])
  {
    var (data, first) := ElementAt(ops, end).value;
    OpIsCanonical(ops, end, 0);
    forall i | 0 <= i < end - first
      ensures Same(ops[first + i], ElementOps(data)[i])
    {
      OpIsCanonical(ops, end, i);
    }
  }

  lemma {:induction false} SameInTurn(ops: seq<ScriptOp>, mid: nat, a: seq<ScriptOp>, b: seq<ScriptOp>)
    requires mid == |a| && |ops| == |a| + |b|
    requires forall i :: 0 <= i < |a| ==> Same(ops[0 + i], a[i])
    requires forall i :: 0 <= i < |b| ==> Same(ops[mid + i], b[i])
    ensures AllSame(ops, a + b)
  {
    forall i | 0 <= i < |ops|
      ensures Same(ops[i], (a + b)[i])
    {
      if i < mid {
        assert Same(ops[0 + i], a[i]);
      } else {
        assert Same(ops[mid + (i - mid)], b[i - mid]);
      }
    }
  }

  /** Any op list that parses is, op for op, what re-encoding its signature and key would push: the
      chunk boundaries and counts are forced. */
  lemma {:induction false} ParsedIsCanonical(ops: seq<ScriptOp>)
    requires ParseOps(ops).Some?
    ensures var (sig, pk) := ParseOps(ops).value;
            Fits(sig) && Fits(pk) && AllSame(ops, ElementOps(sig) + ElementOps(pk))
  {
    var (sig, pk) := ParseOps(ops).value;
    var mid := ElementAt(ops, |ops|).value.1;
    ElementIsCanonical(ops, |ops|);
    ElementIsCanonical(ops, mid);
    SameInTurn(ops, mid, ElementOps(sig), ElementOps(pk));
  }

  /** No op list is both a bare spend and a spend followed by a selector. */
  lemma {:induction false} SelectorIsUnambiguous(ops: seq<ScriptOp>)
    requires ParseOps(ops).Some?
    ensures ops != [] && ParseOps(ops[..|ops| - 1]) == None
  {
    var end := |ops|;
    var first := ElementAt(ops, end).value.1;
    assert IsChunk(ops[end - 2], end - 2 == end - 2);
    assert ops[..end - 1][end - 2] == ops[end - 2];
  }

  // ---------------------------------------------------------------- sizes

  function PushLen(n: nat): nat {
    if n < OP_PUSHDATA1 then 1 + n else if n <= 0xff then 2 + n else 3 + n
  }

  /** The size of one pushed element from its length alone. */
  function ElementSize(n: nat): nat {
    var full, rest := n / MAX_CHUNK, n % MAX_CHUNK;
    full * PushLen(MAX_CHUNK) + (if rest > 0 then PushLen(rest) else 0) + 1
  }

  lemma {:induction false} PushAllSize(data: seq<Byte>)
    ensures |PushAll(Chunks(data))| + 1 == ElementSize(|data|)
    decreases |data|
  {
    var cs := Chunks(data);
    if data == [] {
    } else if |data| <= MAX_CHUNK {
      assert cs[1..] == [];
      assert PushAll(cs) == PushData(data) + [];
    } else {
      PushAllSize(data[MAX_CHUNK..]);
      assert cs[1..] == Chunks(data[MAX_CHUNK..]);
      assert |data| / MAX_CHUNK == (|data| - MAX_CHUNK) / MAX_CHUNK + 1;
      assert |data| % MAX_CHUNK == (|data| - MAX_CHUNK) % MAX_CHUNK;
    }
  }

  function PubKeySize(scheme: Byte): nat {
    if scheme == 1 then 32 else if scheme == 2 then 897 else 0
  }

  function SigSize(scheme: Byte): nat {
    if scheme == 1 then 7856 else if scheme == 2 then 666 else 0
  }

  function PqSigPushesSize(scheme: Byte): Option<nat> {
    if scheme != 1 && scheme != 2 then None
    else Some(ElementSize(SigSize(scheme) + 1) + ElementSize(PubKeySize(scheme)))
  }

  /** The closed-form size is the built size, for every pair of lengths that can be built. */
  lemma {:induction false} SizeIsExact(sig: seq<Byte>, pk: seq<Byte>)
    requires Fits(sig) && Fits(pk)
    ensures |SigPushes(sig, pk)| == ElementSize(|sig|) + ElementSize(|pk|)
  {
    PushAllSize(sig);
    PushAllSize(pk);
  }

  /** For both registered schemes the size quoted before signing is the size of the script. */
  lemma {:induction false} SchemeSizeIsExact(scheme: Byte, sig: seq<Byte>, pk: seq<Byte>)
    requires scheme == 1 || scheme == 2
    requires |sig| == SigSize(scheme) + 1 && |pk| == PubKeySize(scheme)
    ensures Fits(sig) && Fits(pk) && PqSigPushesSize(scheme) == Some(|SigPushes(sig, pk)|)
    ensures |SigPushes(sig, pk)| == if scheme == 1 then 7938 else 1577
  {
    SizeIsExact(sig, pk);
  }

  // ---------------------------------------------------------------- the layout, op by op

  /** How many chunks `n` bytes take. */
  function ChunkCount(n: nat): nat {
    (n + 519) / 520
  }

  /** The bytes of chunk `i`: 520 of them, or what is left. */
  function ChunkOf(data: seq<Byte>, i: nat): seq<Byte>
    requires i < ChunkCount(|data|)
  {
    if 520 * (i + 1) <= |data| then data[520 * i..520 * (i + 1)] else data[520 * i..]
  }

  lemma {:induction false} ChunkOfTail(data: seq<Byte>, i: nat)
    requires 0 < i < ChunkCount(|data|)
    ensures |data| > 520 && i - 1 < ChunkCount(|data[520..]|) && ChunkOf(data[520..], i - 1) == ChunkOf(data, i)
  {
    var rest := data[520..];
    assert rest[520 * (i - 1)..] == data[520 * i..];
  }

  lemma {:induction false} ChunkAt(data: seq<Byte>, i: nat)
    requires i < |Chunks(data)|
    ensures i < ChunkCount(|data|) && Chunks(data)[i] == ChunkOf(data, i)
    decreases i
  {
    ChunksFacts(data);
    if i == 0 {
    } else {
      ChunkOfTail(data, i);
      assert Chunks(data) == [data[..520]] + Chunks(data[520..]);
      ChunkAt(data[520..], i - 1);
    }
  }

  /** The ops push the chunks of `data`, and then their count as `OP_1`..`OP_16`. */
  ghost predicate Pushes(own: seq<ScriptOp>, data: seq<Byte>) {
    var n := ChunkCount(|data|);
    && |own| == n + 1 && own[n].opcode == 0x50 + n
    && forall i :: 0 <= i < n ==> own[i].opcode <= 0x4e && own[i].data == ChunkOf(data, i)
  }

  lemma {:induction false} OwnOpIs(data: seq<Byte>, i: nat)
    requires Fits(data) && i <= ChunkCount(|data|)
    ensures var own, n := ElementOps(data), ChunkCount(|data|);
            && 1 <= n <= 16 && |own| == n + 1
            && if i < n then own[i].opcode <= 0x4e && own[i].data == ChunkOf(data, i) else own[n].opcode == 0x50 + n
  {
    var n := ChunkCount(|data|);
    ChunksFacts(data);
    FitsIsSixteen(data);
    ElementOpAt(data, i);
    if i < n {
      ChunkAt(data, i);
      SmallHeader(|Chunks(data)[i]|);
    }
  }

  lemma {:induction false} ElementPushes(data: seq<Byte>)
    requires Fits(data)
    ensures Pushes(ElementOps(data), data)
  {
    var own, n := ElementOps(data), ChunkCount(|data|);
    OwnOpIs(data, n);
    forall i | 0 <= i < n
      ensures own[i].opcode <= 0x4e && own[i].data == ChunkOf(data, i)
    {
      OwnOpIs(data, i);
    }
  }

  lemma {:induction false} Halves(a: seq<ScriptOp>, b: seq<ScriptOp>)
    ensures (a + b)[..|a|] == a && (a + b)[|a|..] == b
  {
  }

  /** The script pushes the chunks of the signature and their count, then those of the key. */
  lemma {:induction false} SigPushesLayout(sig: seq<Byte>, pk: seq<Byte>)
    requires Fits(sig) && Fits(pk)
    ensures var ops, m := Ops(SigPushes(sig, pk)), ChunkCount(|sig|) + 1;
            ops.Some? && m <= |ops.value| && Pushes(ops.value[..m], sig) && Pushes(ops.value[m..], pk)
  {
    SigPushesRead(sig, pk);
    ElementPushes(sig);
    ElementPushes(pk);
    Halves(ElementOps(sig), ElementOps(pk));
  }

  /** A spend is recognised bare, and with any one selector `OP_1`..`OP_16` behind it. */
  lemma {:induction false} BuiltIsSpend(sig: seq<Byte>, pk: seq<Byte>, selector: Byte)
    requires Fits(sig) && Fits(pk) && 0x51 <= selector <= 0x60
    ensures var bare, full := Ops(SigPushes(sig, pk)), Ops(SigPushes(sig, pk) + [selector]);
            bare.Some? && IsPqSpend(bare.value) && full.Some? && IsPqSpend(full.value)
  {
    var s, ops, last := SigPushes(sig, pk), ElementOps(sig) + ElementOps(pk), [ScriptOp(selector, [])];
    ParseSigPushes(sig, pk);
    ElementReads(sig);
    ElementReads(pk);
    ReadsInTurn(Element(sig), ElementOps(sig), Element(pk), ElementOps(pk));
    SmallIntReads(selector);
    ReadsInTurn(s, ops, [selector], last);
    ReadsAlone(s, ops);
    ReadsAlone(s + [selector], ops + last);
    assert (ops + last)[..|ops|] == ops;
  }

  /** And nothing else is: a recognised op list is some signature and key in their forced chunks, with at
      most one such selector behind them. */
  lemma {:induction false} SpendIsBuilt(ops: seq<ScriptOp>) returns (sig: seq<Byte>, pk: seq<Byte>)
    requires IsPqSpend(ops)
    ensures Fits(sig) && Fits(pk)
    ensures var own := ElementOps(sig) + ElementOps(pk);
            || AllSame(ops, own)
            || (ops != [] && 0x51 <= ops[|ops| - 1].opcode <= 0x60 && AllSame(ops[..|ops| - 1], own))
  {
    var bare := if ParseOps(ops).Some? then ops else ops[..|ops| - 1];
    ParsedIsCanonical(bare);
    sig, pk := ParseOps(bare).value.0, ParseOps(bare).value.1;
  }
}
