/** The expand step of HKDF, section 2.3 of RFC 5869, over an arbitrary 32-byte HMAC. */
module Hkdf {
  import opened Bytes

  type Hmac = (seq<Byte>, seq<Byte>) -> Bytes32

  /** Block `T(i)` of the standard. */
  ghost function Block(hmac: Hmac, prk: Bytes32, info: seq<Byte>, i: nat): (t: seq<Byte>)
    requires i <= 255
    ensures |t| == if i == 0 then 0 else 32
  {
    if i == 0 then [] else hmac(prk, Block(hmac, prk, info, i - 1) + info + [i])
  }

  /** The first `n` blocks, one after the other. */
  ghost function Blocks(hmac: Hmac, prk: Bytes32, info: seq<Byte>, n: nat): (t: seq<Byte>)
    requires n <= 255
    ensures |t| == 32 * n
  {
    if n == 0 then [] else Blocks(hmac, prk, info, n - 1) + Block(hmac, prk, info, n)
  }

  /** Output keying material: the first `length` bytes of the blocks. */
  ghost function Okm(hmac: Hmac, prk: Bytes32, info: seq<Byte>, length: nat): (r: seq<Byte>)
    requires length <= 255 * 32
    ensures |r| == length
  {
    Blocks(hmac, prk, info, (length + 31) / 32)[..length]
  }

  method CopyInto(out: array<Byte>, at: nat, block: seq<Byte>)
    requires at + |block| <= out.Length
    modifies out
    ensures out[..at] == old(out[..at]) && out[at..at + |block|] == block
  {
    for i := 0 to |block|
      invariant out[..at] == old(out[..at])
      invariant forall j :: 0 <= j < i ==> out[at + j] == block[j]
    {
      out[at + i] := block[i];
    }
  }

  lemma {:induction false} Extends(hmac: Hmac, prk: Bytes32, info: seq<Byte>, k: nat, done: nat, n: nat, out: seq<Byte>)
    requires k < 255 && done == 32 * k && n <= 32 && done + n <= |out|
    requires out[..done] == Blocks(hmac, prk, info, k)[..done]
    requires out[done..done + n] == Block(hmac, prk, info, k + 1)[..n]
    ensures out[..done + n] == Blocks(hmac, prk, info, k + 1)[..done + n]
  {
    var a, b := Blocks(hmac, prk, info, k), Block(hmac, prk, info, k + 1);
    assert a[..done] == a;
    assert out[..done + n] == out[..done] + out[done..done + n];
    assert (a + b)[..done + n] == a + b[..n];
  }

  method Expand(hmac: Hmac, prk: Bytes32, info: seq<Byte>, out: array<Byte>)
    requires out.Length <= 255 * 32
    modifies out
    ensures out[..] == Okm(hmac, prk, info, out.Length)
  {
    var t: seq<Byte> := [];
    var done, counter := 0, 1;
    ghost var k := 0;
    while done < out.Length
      invariant 0 <= k <= 255 && done <= out.Length
      invariant done == (if 32 * k <= out.Length then 32 * k else out.Length)
      invariant done < out.Length ==> k < 255 && counter == k + 1
      invariant k > 0 ==> 32 * (k - 1) < out.Length
      invariant t == Block(hmac, prk, info, k)
      invariant out[..done] == Blocks(hmac, prk, info, k)[..done]
    {
      var block := hmac(prk, t + info + [counter]);
      var n := if out.Length - done < 32 then out.Length - done else 32;
      CopyInto(out, done, block[..n]);
      Extends(hmac, prk, info, k, done, n, out[..]);
      t := block;
      done := done + n;
      counter := if counter == 255 then 0 else counter + 1;
      k := k + 1;
    }
    assert out[..done] == out[..];
    assert out.Length > 0 ==> k == (out.Length + 31) / 32;
  }

  /** The first two blocks, spelled out. */
  lemma {:induction false} OkmStarts(hmac: Hmac, prk: Bytes32, info: seq<Byte>)
    ensures var t1: seq<Byte> := hmac(prk, info + [1]);
            Okm(hmac, prk, info, 64) == t1 + hmac(prk, t1 + info + [2])
  {
    var t1: seq<Byte> := hmac(prk, info + [1]);
    assert [] + info == info;
    assert Block(hmac, prk, info, 1) == t1;
    assert Blocks(hmac, prk, info, 0) == [];
    assert Blocks(hmac, prk, info, 1) == [] + t1 == t1;
    var t2 := Block(hmac, prk, info, 2);
    assert Blocks(hmac, prk, info, 2) == t1 + t2;
    assert (t1 + t2)[..64] == t1 + t2;
  }
}
