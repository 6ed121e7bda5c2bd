/** The attestor a wallet pays by default: the bundle's seqs as a canonical list, indexed by a digest. */
module AttestPayee {
  import opened Wrappers
  import opened Sequences
  import opened Ranking
  import opened Bytes

  const SUFFIX_A: Byte := 0x41

  type Digest = seq<Byte> -> Bytes32

  function SeqKeys(s: seq<U16>): seq<Key> {
    seq(|s|, i requires 0 <= i < |s| => [s[i] as int])
  }

  function SortedSeqs(s: seq<U16>): (r: seq<U16>)
    ensures |r| == |s|
  {
    At(s, Rank(SeqKeys(s)))
  }

  /** Drop every element equal to the one before it. */
  function Dedup(s: seq<U16>): (r: seq<U16>)
    ensures |r| <= |s| && (s != [] ==> r != [] && r[|r| - 1] == s[|s| - 1])
  {
    if |s| <= 1 then s
    else
      var k := |s| - 1;
      var r := Dedup(s[..k]);
      if s[k] == s[k - 1] then r else r + [s[k]]
  }

  function Canonical(s: seq<U16>): seq<U16> {
    Dedup(SortedSeqs(s))
  }

  ghost predicate StrictlyUp(s: seq<U16>) {
    forall i, j :: 0 <= i < j < |s| ==> s[i] < s[j]
  }

  lemma {:induction false} AppendLarger(r: seq<U16>, x: U16)
    requires StrictlyUp(r) && r != [] && r[|r| - 1] < x
    ensures StrictlyUp(r + [x])
  {
    forall i | 0 <= i < |r|
      ensures r[i] < x
    {
      assert i < |r| - 1 ==> r[i] < r[|r| - 1];
    }
  }

  ghost predicate Up(s: seq<U16>) {
    forall i, j :: 0 <= i < j < |s| ==> s[i] <= s[j]
  }

  lemma {:induction false} DedupUp(s: seq<U16>)
    requires Up(s)
    ensures StrictlyUp(Dedup(s))
  {
    if |s| > 1 {
      var k := |s| - 1;
      var r := Dedup(s[..k]);
      DedupUp(s[..k]);
      if s[k] != s[k - 1] {
        assert r[|r| - 1] == s[k - 1] < s[k];
        AppendLarger(r, s[k]);
      }
    }
  }

  lemma {:induction false} DedupMember(s: seq<U16>, x: U16)
    ensures x in Dedup(s) <==> x in s
  {
    if |s| > 1 {
      var k := |s| - 1;
      DedupMember(s[..k], x);
      assert s == s[..k] + [s[k]] && s[..k][k - 1] == s[k - 1];
    }
  }

  lemma {:induction false} SortedMember(s: seq<U16>, x: U16)
    ensures x in SortedSeqs(s) <==> x in s
  {
    var r, t := Rank(SeqKeys(s)), SortedSeqs(s);
    if x in s {
      RankIsSort(SeqKeys(s));
      var i :| 0 <= i < |s| && s[i] == x;
      assert i in r;
      var k :| 0 <= k < |r| && r[k] == i;
      assert t[k] == x;
    }
  }

  /** The canonical list holds exactly the listed seqs, each once, ascending. */
  lemma {:induction false} CanonicalFacts(s: seq<U16>)
    ensures StrictlyUp(Canonical(s))
    ensures forall x :: x in Canonical(s) <==> x in s
    ensures s == [] <==> Canonical(s) == []
  {
    var keys, r, t := SeqKeys(s), Rank(SeqKeys(s)), SortedSeqs(s);
    RankIsSort(keys);
    forall i, j | 0 <= i < j < |t|
      ensures t[i] <= t[j]
    {
      assert Before(keys, r[i], r[j]);
    }
    DedupUp(t);
    forall x
      ensures x in Canonical(s) <==> x in s
    {
      DedupMember(t, x);
      SortedMember(s, x);
    }
    assert s != [] ==> s[0] in Canonical(s);
  }

  lemma {:induction false} TailMembers(s: seq<U16>, x: U16)
    requires StrictlyUp(s) && s != []
    ensures x in s[1..] <==> x in s && x != s[0]
  {
    assert s == [s[0]] + s[1..];
    if x in s[1..] {
      var i :| 0 <= i < |s[1..]| && s[1..][i] == x;
      assert s[i + 1] == x;
    }
  }

  /** A strictly ascending list is determined by its members. */
  lemma {:induction false} StrictlyUpUnique(s: seq<U16>, t: seq<U16>)
    requires StrictlyUp(s) && StrictlyUp(t)
    requires forall x :: x in s <==> x in t
    ensures s == t
  {
    assert t != [] ==> t[0] in s;
    if s != [] {
      assert s[0] in t && t != [];
      assert t[0] in s;
      var i :| 0 <= i < |t| && t[i] == s[0];
      var j :| 0 <= j < |s| && s[j] == t[0];
      assert s[0] == t[0];
      assert s == [s[0]] + s[1..] && t == [t[0]] + t[1..];
      forall x
        ensures x in s[1..] <==> x in t[1..]
      {
        TailMembers(s, x);
        TailMembers(t, x);
      }
      StrictlyUpUnique(s[1..], t[1..]);
    }
  }

  lemma {:induction false} AtMostAllSeqs(s: seq<U16>)
    requires StrictlyUp(s)
    ensures |s| <= 0x1_0000 && (s != [] ==> s[|s| - 1] >= |s| - 1)
  {
    if s != [] {
      var k := |s| - 1;
      AtMostAllSeqs(s[..k]);
      assert k > 0 ==> s[..k][k - 1] < s[k];
    }
  }

  // ---------------------------------------------------------------- the index

  /** The bytes as a little-endian integer. */
  function Little(d: seq<Byte>): nat {
    if d == [] then 0 else d[0] as int + 0x100 * Little(d[1..])
  }

  lemma {:induction false} RemainderIsUnique(n: int, q: int, r: int)
    requires 0 <= r < n
    ensures (n * q + r) % n == r
  {
    var m := n * q + r;
    var d := q - m / n;
    assert m == n * (m / n) + m % n;
    assert n * d == m % n - r;
    assert d > 0 ==> n * d >= n;
    assert d < 0 ==> n * d <= -n;
  }

  lemma {:induction false} ModShift(n: nat, k: nat, y: nat)
    requires n > 0
    ensures (n * k + y) % n == y % n
  {
    assert y == n * (y / n) + y % n;
    assert n * k + y == n * (k + y / n) + y % n;
    RemainderIsUnique(n, k + y / n, y % n);
  }

  lemma {:induction false} HornerStep(x: nat, b: Byte, n: nat)
    requires n > 0
    ensures (x % n * 0x100 + b) % n == (b as int + 0x100 * x) % n
  {
    var q, r := x / n, x % n;
    assert x == n * q + r;
    assert b as int + 0x100 * x == n * (0x100 * q) + (r * 0x100 + b) by {
      assert 0x100 * (n * q) == n * (0x100 * q);
    }
    ModShift(n, 0x100 * q, r * 0x100 + b);
  }

  /** The digest selects from the canonical list by its value as a 256-bit little-endian integer. */
  ghost function Payee(blockHash: Bytes32, selector: seq<Byte>, seqs: seq<U16>, sha256: Digest): Option<U16> {
    var a := Canonical(seqs);
    if a == [] then None
    else Some(a[Little(sha256(blockHash + selector + [SUFFIX_A])) % |a|])
  }

  /** Fold the digest from its last byte, reducing at every step; 64 bits never overflow. */
  method LittleMod(digest: seq<Byte>, n: nat) returns (acc: nat)
    requires 0 < n <= 0x1_0000
    ensures acc == Little(digest) % n
  {
    acc := 0;
    for i := |digest| downto 0
      invariant acc == Little(digest[i..]) % n
    {
      assert digest[i..][1..] == digest[i + 1..];
      HornerStep(Little(digest[i + 1..]), digest[i], n);
      assert acc * 0x100 + digest[i] < 0x1_0000_0000_0000_0000;
      acc := (acc * 0x100 + digest[i]) % n;
    }
    assert digest[0..] == digest;
  }

  method DefaultAttestPayee(blockHash: Bytes32, selector: seq<Byte>, seqs: seq<U16>, sha256: Digest)
    returns (r: Option<U16>)
    ensures r == Payee(blockHash, selector, seqs, sha256)
  {
    var a := Canonical(seqs);
    if a == [] {
      return None;
    }
    var pre: seq<Byte> := blockHash;
    pre := pre + selector;
    pre := pre + [SUFFIX_A];
    var digest := sha256(pre);
    CanonicalFacts(seqs);
    AtMostAllSeqs(a);
    var acc := LittleMod(digest, |a|);
    r := Some(a[acc]);
  }

  /** Someone is paid exactly when the bundle names anyone, and the one paid is in the bundle. */
  lemma {:induction false} PayeeIsMember(blockHash: Bytes32, selector: seq<Byte>, seqs: seq<U16>, sha256: Digest)
    ensures var r := Payee(blockHash, selector, seqs, sha256);
            (r.Some? <==> seqs != []) && (r.Some? ==> r.value in seqs)
  {
    CanonicalFacts(seqs);
    var a := Canonical(seqs);
    if a != [] {
      assert a[Little(sha256(blockHash + selector + [SUFFIX_A])) % |a|] in a;
    }
  }

  /** The choice depends on which seqs are listed, not on their order or repetition. */
  lemma {:induction false} PayeeIgnoresOrder(
      blockHash: Bytes32, selector: seq<Byte>, seqs: seq<U16>, seqs': seq<U16>, sha256: Digest)
    requires forall x :: x in seqs <==> x in seqs'
    ensures Payee(blockHash, selector, seqs, sha256) == Payee(blockHash, selector, seqs', sha256)
  {
    CanonicalFacts(seqs);
    CanonicalFacts(seqs');
    StrictlyUpUnique(Canonical(seqs), Canonical(seqs'));
  }

  lemma {:induction false} ElementsAppend(s: seq<U16>, x: U16)
    ensures Elements(s + [x]) == Elements(s) + {x}
  {
  }

  lemma {:induction false} StrictlyUpCount(s: seq<U16>)
    requires StrictlyUp(s)
    ensures |Elements(s)| == |s|
  {
    if s != [] {
      var k := |s| - 1;
      StrictlyUpCount(s[..k]);
      assert s == s[..k] + [s[k]];
      ElementsAppend(s[..k], s[k]);
      assert s[k] !in Elements(s[..k]);
    }
  }

  /** The modulus is the number of distinct seqs. */
  lemma {:induction false} CanonicalCount(seqs: seq<U16>)
    ensures |Canonical(seqs)| == |Elements(seqs)|
  {
    CanonicalFacts(seqs);
    var a := Canonical(seqs);
    assert Elements(seqs) == Elements(a);
    StrictlyUpCount(a);
  }

  /** The byte `i` places up in a number written to base 256. */
  ghost function ByteOf(n: nat, i: nat): int {
    if i == 0 then n % 0x100 else ByteOf(n / 0x100, i - 1)
  }

  /** The digest counts from its first byte up. */
  lemma {:induction false} LittleBytes(d: seq<Byte>, i: nat)
    requires i < |d|
    ensures ByteOf(Little(d), i) == d[i]
  {
    assert Little(d) == d[0] as int + 0x100 * Little(d[1..]);
    if i > 0 {
      LittleBytes(d[1..], i - 1);
      assert Little(d) / 0x100 == Little(d[1..]);
    }
  }

  ghost function Below(s: seq<U16>, x: U16): set<nat> {
    set y | y in s && y < x
  }

  lemma {:induction false} BelowCount(s: seq<U16>, k: nat)
    requires StrictlyUp(s) && k < |s|
    ensures |Below(s, s[k])| == k
  {
    assert Below(s, s[k]) == Elements(s[..k]) by {
      forall y: nat
        ensures y in Below(s, s[k]) <==> y in s[..k]
      {
        if y in s && y < s[k] {
          var i :| 0 <= i < |s| && s[i] == y;
          assert i < k;
          assert s[..k][i] == y;
        }
      }
    }
    StrictlyUpCount(s[..k]);
  }

  /** The payee is the listed seq with as many smaller ones as the digest of the block hash, the selector
      and the letter A leaves modulo the number of distinct seqs. */
  lemma {:induction false} PayeeIsRanked(blockHash: Bytes32, selector: seq<Byte>, seqs: seq<U16>, sha256: Digest)
    requires seqs != []
    ensures var r := Payee(blockHash, selector, seqs, sha256);
            && r.Some? && Elements(seqs) != {}
            && |Below(seqs, r.value)| == Little(sha256(blockHash + selector + [0x41])) % |Elements(seqs)|
  {
    var a := Canonical(seqs);
    CanonicalFacts(seqs);
    CanonicalCount(seqs);
    var k := Little(sha256(blockHash + selector + [SUFFIX_A])) % |a|;
    BelowCount(a, k);
    assert Below(seqs, a[k]) == Below(a, a[k]);
    assert seqs[0] in Elements(seqs);
  }
}
