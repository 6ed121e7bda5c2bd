/**
 Stable sorting of positions by key. A key is a list of integers compared lexicographically, so
 one sort serves every order in the wallet: `(cents, index)`, `(value, txid, n)`, and so on.
 */
module Ranking {
  import opened Sequences

  type Key = seq<int>

  predicate LexLe(a: Key, b: Key) {
    if a == [] then true
    else if b == [] then false
    else a[0] < b[0] || (a[0] == b[0] && LexLe(a[1..], b[1..]))
  }

  lemma {:induction false} LexTotal(a: Key, b: Key)
    ensures LexLe(a, b) || LexLe(b, a)
    ensures LexLe(a, b) && LexLe(b, a) ==> a == b
  {
    if a != [] && b != [] {
      LexTotal(a[1..], b[1..]);
      assert a == [a[0]] + a[1..] && b == [b[0]] + b[1..];
    }
  }

  lemma {:induction false} LexTransitive(a: Key, b: Key, c: Key)
    requires LexLe(a, b) && LexLe(b, c)
    ensures LexLe(a, c)
  {
    if a != [] && b != [] && c != [] {
      if a[0] == b[0] == c[0] {
        LexTransitive(a[1..], b[1..], c[1..]);
      }
    }
  }

  /** Insert `x` after every element whose key is not above its own. */
  function Insert(keys: seq<Key>, s: seq<nat>, x: nat): (r: seq<nat>)
    requires Within(s, |keys|) && x < |keys|
    ensures |r| == |s| + 1
    ensures Within(r, |keys|)
  {
    if s == [] then [x]
    else if LexLe(keys[s[0]], keys[x]) then [s[0]] + Insert(keys, s[1..], x)
    else [x] + s
  }

  /** The first `n` positions in stable key order. */
  function RankFirst(keys: seq<Key>, n: nat): (r: seq<nat>)
    requires n <= |keys|
    ensures |r| == n
    ensures Within(r, |keys|)
  {
    if n == 0 then [] else Insert(keys, RankFirst(keys, n - 1), n - 1)
  }

  /** A stable sort: the positions of `keys` by key, ties by position. */
  function Rank(keys: seq<Key>): (r: seq<nat>)
    ensures |r| == |keys|
    ensures Within(r, |keys|)
  {
    RankFirst(keys, |keys|)
  }

  lemma {:induction false} InsertMembers(keys: seq<Key>, s: seq<nat>, x: nat, y: nat)
    requires Within(s, |keys|) && x < |keys|
    ensures y in Insert(keys, s, x) <==> y == x || y in s
  {
    if s != [] && LexLe(keys[s[0]], keys[x]) {
      InsertMembers(keys, s[1..], x, y);
      assert s == [s[0]] + s[1..];
    }
  }

  lemma {:induction false} RankFirstMembers(keys: seq<Key>, n: nat, y: nat)
    requires n <= |keys|
    ensures y in RankFirst(keys, n) <==> y < n
  {
    if n > 0 {
      RankFirstMembers(keys, n - 1, y);
      InsertMembers(keys, RankFirst(keys, n - 1), n - 1, y);
    }
  }

  ghost predicate Before(keys: seq<Key>, a: nat, b: nat)
    requires a < |keys| && b < |keys|
  {
    LexLe(keys[a], keys[b]) && (keys[a] == keys[b] ==> a < b)
  }

  ghost predicate InOrder(keys: seq<Key>, s: seq<nat>)
    requires Within(s, |keys|)
  {
    forall i, j :: 0 <= i < j < |s| ==> Before(keys, s[i], s[j])
  }

  lemma {:induction false} InsertInOrder(keys: seq<Key>, s: seq<nat>, x: nat)
    requires Within(s, |keys|) && x < |keys|
    requires InOrder(keys, s)
    requires forall i :: 0 <= i < |s| ==> s[i] < x
    ensures InOrder(keys, Insert(keys, s, x))
  {
    if s != [] {
      var r := Insert(keys, s, x);
      if LexLe(keys[s[0]], keys[x]) {
        var t := Insert(keys, s[1..], x);
        InsertInOrder(keys, s[1..], x);
        forall j | 0 < j < |r|
          ensures Before(keys, r[0], r[j])
        {
          assert r[j] == t[j - 1] && t[j - 1] in t;
          InsertMembers(keys, s[1..], x, t[j - 1]);
        }
        assert forall i, j :: 0 < i < j < |r| ==> Before(keys, t[i - 1], t[j - 1]) ==> Before(keys, r[i], r[j]);
      } else {
        forall j | 0 <= j < |s|
          ensures Before(keys, x, s[j])
        {
          LexTotal(keys[s[0]], keys[x]);
          if j > 0 {
            assert Before(keys, s[0], s[j]);
            LexTransitive(keys[x], keys[s[0]], keys[s[j]]);
            if keys[x] == keys[s[j]] {
              assert false;
            }
          }
        }
      }
    }
  }

  lemma {:induction false} RankFirstInOrder(keys: seq<Key>, n: nat)
    requires n <= |keys|
    ensures InOrder(keys, RankFirst(keys, n))
    ensures forall i :: 0 <= i < n ==> RankFirst(keys, n)[i] < n
  {
    if n > 0 {
      RankFirstInOrder(keys, n - 1);
      InsertInOrder(keys, RankFirst(keys, n - 1), n - 1);
      var r := RankFirst(keys, n);
      forall i | 0 <= i < n
        ensures r[i] < n
      {
        assert r[i] in r;
        RankFirstMembers(keys, n, r[i]);
      }
    }
  }

  /** The ranking is a permutation of all positions, in stable key order. */
  lemma RankIsSort(keys: seq<Key>)
    ensures InOrder(keys, Rank(keys))
    ensures forall i, j :: 0 <= i < j < |keys| ==> Rank(keys)[i] != Rank(keys)[j]
    ensures forall i :: 0 <= i < |keys| ==> i in Rank(keys)
  {
    RankFirstInOrder(keys, |keys|);
    var r := Rank(keys);
    assert forall i, j :: 0 <= i < j < |r| ==> Before(keys, r[i], r[j]) ==> r[i] != r[j];
    forall i | 0 <= i < |keys|
      ensures i in r
    {
      RankFirstMembers(keys, |keys|, i);
    }
  }

  lemma {:induction false} SumAtCons(g: seq<int>, x: nat, q: seq<nat>)
    requires x < |g| && Within(q, |g|)
    ensures SumAt(g, [x] + q) == g[x] + SumAt(g, q)
  {
    if q == [] {
      assert [x] + q == [] + [x];
      SumAtAppend(g, [], x);
    } else {
      var k := |q| - 1;
      SumAtCons(g, x, q[..k]);
      assert ([x] + q)[..|q|] == [x] + q[..k];
    }
  }

  lemma {:induction false} SumAtInsert(keys: seq<Key>, s: seq<nat>, x: nat, g: seq<int>)
    requires |g| == |keys| && Within(s, |keys|) && x < |keys|
    ensures SumAt(g, Insert(keys, s, x)) == SumAt(g, s) + g[x]
  {
    if s == [] {
      SumAtAppend(g, [], x);
    } else if LexLe(keys[s[0]], keys[x]) {
      SumAtInsert(keys, s[1..], x, g);
      SumAtCons(g, s[0], Insert(keys, s[1..], x));
      SumAtCons(g, s[0], s[1..]);
      assert s == [s[0]] + s[1..];
    } else {
      SumAtCons(g, x, s);
    }
  }

  lemma {:induction false} SumAtRankFirst(keys: seq<Key>, g: seq<int>, n: nat)
    requires |g| == |keys| && n <= |keys|
    ensures SumAt(g, RankFirst(keys, n)) == Top(g, n)
  {
    if n > 0 {
      SumAtRankFirst(keys, g, n - 1);
      SumAtInsert(keys, RankFirst(keys, n - 1), n - 1, g);
    }
  }

  /** Summing any quantity over the ranked positions gives its sum over all positions. */
  lemma SumAtRank(keys: seq<Key>, g: seq<int>)
    requires |g| == |keys|
    ensures SumAt(g, Rank(keys)) == Sum(g)
  {
    SumAtRankFirst(keys, g, |keys|);
  }
}
