/**
 Applying overlapping autofix edits to one file, last first. Offsets are byte offsets into the
 original file; an edit that reaches past the start of the last one applied is skipped.
 */
module ApplyFixes {
  import opened Sequences
  import opened Ranking
  import opened Bytes
  import Choices

  datatype Edit = Edit(start: nat, end: nat, text: seq<Byte>)

  /** Slicing clamps an offset to the length of what it slices. */
  function Clamp(data: seq<Byte>, k: nat): (r: nat)
    ensures r <= |data|
  {
    if k <= |data| then k else |data|
  }

  function Keys(fixes: seq<Edit>): seq<Key> {
    seq(|fixes|, i requires 0 <= i < |fixes| => [0 - fixes[i].start as int])
  }

  /** The edits by start, last first; edits with one start keep their order. */
  function LastFirst(fixes: seq<Edit>): (r: seq<Edit>)
    ensures |r| == |fixes|
  {
    At(fixes, Rank(Keys(fixes)))
  }

  function Replace(data: seq<Byte>, e: Edit): seq<Byte> {
    data[..Clamp(data, e.start)] + e.text + data[Clamp(data, e.end)..]
  }

  /** The edits the loop applies, in the order it applies them. */
  function Greedy(edits: seq<Edit>, floor: nat): seq<Edit> {
    if edits == [] then []
    else if edits[0].end > floor then Greedy(edits[1..], floor)
    else [edits[0]] + Greedy(edits[1..], edits[0].start)
  }

  function Kept(data: seq<Byte>, fixes: seq<Edit>): seq<Edit> {
    Greedy(LastFirst(fixes), |data| + 1)
  }

  function Reversed<T>(s: seq<T>): (r: seq<T>)
    ensures |r| == |s|
    ensures forall i :: 0 <= i < |s| ==> r[i] == s[|s| - 1 - i]
  {
    seq(|s|, i requires 0 <= i < |s| => s[|s| - 1 - i])
  }

  /** The edits applied one after the other, each to the result of the one before. */
  function InTurn(data: seq<Byte>, edits: seq<Edit>): seq<Byte>
    decreases |edits|
  {
    if edits == [] then data else InTurn(Replace(data, edits[0]), edits[1..])
  }

  /** Simultaneous substitution: copy `data` from `from` on, replacing each edit's range of the
      original by its text. `edits` run from left to right. */
  function Substitute(data: seq<Byte>, edits: seq<Edit>, from: nat): seq<Byte>
    decreases |edits|
  {
    if edits == [] then data[Clamp(data, from)..]
    else
      var a, b := Clamp(data, from), Clamp(data, edits[0].start);
      (if a <= b then data[a..b] else []) + edits[0].text + Substitute(data, edits[1..], edits[0].end)
  }

  ghost predicate Disjoint(a: Edit, b: Edit) {
    a.end <= b.start || b.end <= a.start
  }

  lemma {:induction false} GreedyStep(order: seq<Edit>, i: nat, floor: nat)
    requires i < |order|
    ensures if order[i].end > floor then Greedy(order[i..], floor) == Greedy(order[i + 1..], floor)
            else
              && Greedy(order[i..], floor) != []
              && Greedy(order[i..], floor)[0] == order[i]
              && Greedy(order[i..], floor)[1..] == Greedy(order[i + 1..], order[i].start)
  {
    assert order[i..][1..] == order[i + 1..];
  }

  method Apply(original: seq<Byte>, fixes: seq<Edit>) returns (data: seq<Byte>, applied: nat)
    ensures data == InTurn(original, Kept(original, fixes))
    ensures applied == |Kept(original, fixes)|
  {
    data, applied := original, 0;
    var floor: nat := |original| + 1;
    var order := LastFirst(fixes);
    assert order[0..] == order;
    for i := 0 to |order|
      invariant applied + |Greedy(order[i..], floor)| == |Kept(original, fixes)|
      invariant InTurn(data, Greedy(order[i..], floor)) == InTurn(original, Kept(original, fixes))
    {
      var fx := order[i];
      GreedyStep(order, i, floor);
      if fx.end > floor {
        continue;
      }
      data := Replace(data, fx);
      floor := fx.start;
      applied := applied + 1;
    }
  }

  // ---------------------------------------------------------------- which edits are kept

  ghost predicate ByStartDescending(edits: seq<Edit>) {
    forall i, j :: 0 <= i < j < |edits| ==> edits[i].start >= edits[j].start
  }

  lemma LastFirstSorts(fixes: seq<Edit>)
    ensures ByStartDescending(LastFirst(fixes))
    ensures forall e :: e in fixes <==> e in LastFirst(fixes)
  {
    var keys, r, s := Keys(fixes), Rank(Keys(fixes)), LastFirst(fixes);
    RankIsSort(keys);
    forall i, j | 0 <= i < j < |s|
      ensures s[i].start >= s[j].start
    {
      assert Before(keys, r[i], r[j]);
    }
    forall e | e in fixes
      ensures e in s
    {
      var i :| 0 <= i < |fixes| && fixes[i] == e;
      assert i in r;
      var k :| 0 <= k < |r| && r[k] == i;
      assert s[k] == e;
    }
  }

  /** Of edits that start together the one listed first comes first. */
  lemma {:induction false} LastFirstIsStable(fixes: seq<Edit>, i: nat, j: nat)
    requires i < j < |fixes|
    ensures var r := Rank(Keys(fixes));
            && LastFirst(fixes)[i] == fixes[r[i]] && LastFirst(fixes)[j] == fixes[r[j]]
            && (fixes[r[i]].start > fixes[r[j]].start || (fixes[r[i]].start == fixes[r[j]].start && r[i] < r[j]))
  {
    var keys := Keys(fixes);
    RankIsSort(keys);
    assert Before(keys, Rank(keys)[i], Rank(keys)[j]);
  }

  /** Each edit ends, and starts, no later than every edit before it starts. */
  ghost predicate Falling(edits: seq<Edit>) {
    forall i, j :: 0 <= i < j < |edits| ==> edits[j].end <= edits[i].start && edits[j].start <= edits[i].start
  }

  lemma {:induction false} TailDescends(edits: seq<Edit>)
    requires edits != [] && ByStartDescending(edits)
    ensures ByStartDescending(edits[1..])
    ensures forall e :: e in edits[1..] ==> e in edits && e.start <= edits[0].start
  {
  }

  lemma {:induction false} GreedyMembers(edits: seq<Edit>, floor: nat)
    ensures forall e :: e in Greedy(edits, floor) ==> e in edits
  {
    if edits != [] {
      var h, rest := edits[0], edits[1..];
      GreedyMembers(rest, floor);
      GreedyMembers(rest, h.start);
      assert edits == [h] + rest;
    }
  }

  lemma {:induction false} FallsBelow(h: Edit, t: seq<Edit>)
    requires Falling(t) && (t != [] ==> t[0].end <= h.start)
    requires forall e :: e in t ==> e.start <= h.start
    ensures Falling([h] + t)
  {
    forall j | 0 <= j < |t|
      ensures t[j].end <= h.start && t[j].start <= h.start
    {
      assert t[0] in t && t[j] in t;
    }
  }

  /** The first edit kept ends by the floor, and each later one by the start of those before it. */
  lemma {:induction false} GreedyChain(edits: seq<Edit>, floor: nat)
    requires ByStartDescending(edits)
    ensures var kept := Greedy(edits, floor); Falling(kept) && (kept != [] ==> kept[0].end <= floor)
  {
    if edits != [] {
      var h, rest := edits[0], edits[1..];
      TailDescends(edits);
      if h.end > floor {
        GreedyChain(rest, floor);
      } else {
        var t := Greedy(rest, h.start);
        GreedyChain(rest, h.start);
        GreedyMembers(rest, h.start);
        FallsBelow(h, t);
      }
    }
  }

  ghost predicate NonEmpty(edits: seq<Edit>) {
    forall i :: 0 <= i < |edits| ==> edits[i].start < edits[i].end
  }

  /** A nonempty edit that is skipped overlaps one that is kept (or reaches past `floor`). */
  lemma {:induction false} SkippedOverlaps(edits: seq<Edit>, floor: nat, e: Edit)
    requires ByStartDescending(edits)
    requires NonEmpty(edits)
    requires e in edits && e.end <= floor
    ensures e in Greedy(edits, floor) || exists k :: k in Greedy(edits, floor) && !Disjoint(e, k)
  {
    var h, rest := edits[0], edits[1..];
    assert edits == [h] + rest;
    assert forall x :: x in rest ==> x in edits;
    if h.end > floor {
      SkippedOverlaps(rest, floor, e);
    } else if e != h {
      var t := Greedy(rest, h.start);
      assert Greedy(edits, floor) == [h] + t;
      assert forall x :: x in t ==> x in Greedy(edits, floor);
      assert h in Greedy(edits, floor);
      if e.end <= h.start {
        SkippedOverlaps(rest, h.start, e);
      } else {
        var i :| 0 <= i < |edits| && edits[i] == e;
        assert e.start <= h.start;
        assert !Disjoint(e, h);
      }
    }
  }

  /** Positions `q` of `edits` name pairwise disjoint edits that all end by `floor`. */
  ghost predicate Compatible(edits: seq<Edit>, q: seq<nat>, floor: nat) {
    && Ascending(q, |edits|)
    && (forall i :: 0 <= i < |q| ==> edits[q[i]].end <= floor)
    && (forall i, j :: 0 <= i < j < |q| ==> Disjoint(edits[q[i]], edits[q[j]]))
  }

  ghost function Shifted(q: seq<nat>): (r: seq<nat>)
    requires forall i :: 0 <= i < |q| ==> q[i] > 0
    ensures |r| == |q|
    ensures forall i :: 0 <= i < |r| ==> r[i] == q[i] - 1
  {
    seq(|q|, i requires 0 <= i < |q| => q[i] - 1)
  }

  /** Later-starting disjoint edits end before the first chosen one starts. */
  lemma {:induction false} ChosenEndEarly(edits: seq<Edit>, q: seq<nat>, floor: nat, j: nat)
    requires ByStartDescending(edits)
    requires NonEmpty(edits)
    requires Compatible(edits, q, floor) && 0 < j < |q|
    ensures edits[q[j]].end <= edits[q[0]].start <= edits[0].start
  {
    assert Disjoint(edits[q[0]], edits[q[j]]);
    assert q[0] < q[j];
    assert edits[q[0]].start >= edits[q[j]].start;
    assert edits[q[0]] in edits && edits[q[j]] in edits;
  }

  lemma {:induction false} RestrictSkip(edits: seq<Edit>, q: seq<nat>, floor: nat)
    requires Compatible(edits, q, floor) && edits != [] && edits[0].end > floor
    ensures forall i :: 0 <= i < |q| ==> q[i] > 0
    ensures Compatible(edits[1..], Shifted(q), floor)
  {
    var rest, q' := edits[1..], Shifted(q);
    forall i, j | 0 <= i < j < |q'|
      ensures Disjoint(rest[q'[i]], rest[q'[j]])
    {
      assert Disjoint(edits[q[i]], edits[q[j]]);
    }
  }

  lemma {:induction false} Restrict(edits: seq<Edit>, q: seq<nat>, floor: nat)
    requires ByStartDescending(edits)
    requires NonEmpty(edits)
    requires Compatible(edits, q, floor) && q != []
    ensures |edits| > 0
    ensures forall i :: 0 <= i < |q[1..]| ==> q[1..][i] > 0
    ensures Compatible(edits[1..], Shifted(q[1..]), edits[0].start)
  {
    assert forall i :: 0 <= i < |q[1..]| ==> q[1..][i] == q[i + 1] > q[0];
    var rest, q' := edits[1..], Shifted(q[1..]);
    forall j | 0 <= j < |q'|
      ensures rest[q'[j]].end <= edits[0].start
    {
      ChosenEndEarly(edits, q, floor, j + 1);
    }
    forall i, j | 0 <= i < j < |q'|
      ensures Disjoint(rest[q'[i]], rest[q'[j]])
    {
      assert Disjoint(edits[q[i + 1]], edits[q[j + 1]]);
    }
  }

  /** Latest start first is optimal: no pairwise disjoint selection is larger. */
  lemma {:induction false} GreedyIsMaximal(edits: seq<Edit>, q: seq<nat>, floor: nat)
    requires ByStartDescending(edits)
    requires NonEmpty(edits)
    requires Compatible(edits, q, floor)
    ensures |q| <= |Greedy(edits, floor)|
  {
    if q != [] {
      assert q[0] < |edits|;
      if edits[0].end > floor {
        RestrictSkip(edits, q, floor);
        GreedyIsMaximal(edits[1..], Shifted(q), floor);
      } else {
        Restrict(edits, q, floor);
        GreedyIsMaximal(edits[1..], Shifted(q[1..]), edits[0].start);
      }
    }
  }

  ghost predicate InBounds(data: seq<Byte>, fixes: seq<Edit>) {
    forall i :: 0 <= i < |fixes| ==> fixes[i].start < fixes[i].end <= |data|
  }

  lemma {:induction false} KeptFalls(data: seq<Byte>, fixes: seq<Edit>)
    ensures var kept := Kept(data, fixes); Falling(kept) && (kept != [] ==> kept[0].end <= |data| + 1)
  {
    LastFirstSorts(fixes);
    GreedyChain(LastFirst(fixes), |data| + 1);
  }

  /** The kept edits are edits of the file with pairwise disjoint ranges. */
  lemma {:induction false} KeptDisjoint(data: seq<Byte>, fixes: seq<Edit>)
    ensures forall e :: e in Kept(data, fixes) ==> e in fixes
    ensures forall i, j :: 0 <= i < j < |Kept(data, fixes)| ==> Disjoint(Kept(data, fixes)[i], Kept(data, fixes)[j])
  {
    LastFirstSorts(fixes);
    GreedyMembers(LastFirst(fixes), |data| + 1);
    KeptFalls(data, fixes);
  }

  /** For nonempty ranges inside the file, every skipped edit overlaps a kept one. */
  lemma {:induction false} SkippedForAReason(data: seq<Byte>, fixes: seq<Edit>, e: Edit)
    requires InBounds(data, fixes) && e in fixes
    ensures e in Kept(data, fixes) || exists k :: k in Kept(data, fixes) && !Disjoint(e, k)
  {
    LastFirstSorts(fixes);
    SkippedOverlaps(LastFirst(fixes), |data| + 1, e);
  }

  lemma {:induction false} ChosenDisjoint(fixes: seq<Edit>, q: seq<nat>, x: nat, y: nat)
    requires Ascending(q, |fixes|) && x in q && y in q && x != y
    requires forall i, j :: 0 <= i < j < |q| ==> Disjoint(fixes[q[i]], fixes[q[j]])
    ensures Disjoint(fixes[x], fixes[y])
  {
    var i :| 0 <= i < |q| && q[i] == x;
    var j :| 0 <= j < |q| && q[j] == y;
    assert if i < j then Disjoint(fixes[q[i]], fixes[q[j]]) else Disjoint(fixes[q[j]], fixes[q[i]]);
  }

  /** For nonempty ranges inside the file, no pairwise disjoint choice of edits is larger than the
      kept one. */
  lemma {:induction false} KeptIsMaximal(data: seq<Byte>, fixes: seq<Edit>, q: seq<nat>)
    requires InBounds(data, fixes)
    requires Ascending(q, |fixes|)
    requires forall i, j :: 0 <= i < j < |q| ==> Disjoint(fixes[q[i]], fixes[q[j]])
    ensures |q| <= |Kept(data, fixes)|
  {
    var keys, edits := Keys(fixes), LastFirst(fixes);
    var order := Rank(keys);
    LastFirstSorts(fixes);
    RankIsSort(keys);
    var p := Choices.Relabel(keys, q, seq(|fixes|, _ => 1));
    forall i, j | 0 <= i < j < |p|
      ensures Disjoint(edits[p[i]], edits[p[j]])
    {
      ChosenDisjoint(fixes, q, order[p[i]], order[p[j]]);
    }
    GreedyIsMaximal(edits, p, |data| + 1);
  }

  // ---------------------------------------------------------------- in place is simultaneous

  /** The second edit applied reaches past the end of a file whose first edit started there. */
  ghost predicate Overrun(data: seq<Byte>, kept: seq<Edit>) {
    |kept| >= 2 && kept[0].start > |data| && (kept[1].start > |data| || kept[1].end > |data|)
  }

  /** `data` is the original with the edits `done` substituted, untouched below the last one's start. */
  ghost predicate Progress(original: seq<Byte>, data: seq<Byte>, done: seq<Edit>) {
    if done == [] then data == original
    else
      var floor := done[|done| - 1].start;
      data == original[..Clamp(original, floor)] + Substitute(original, Reversed(done), floor)
  }

  lemma {:induction false} InTurnAppend(data: seq<Byte>, edits: seq<Edit>, e: Edit)
    ensures InTurn(data, edits + [e]) == Replace(InTurn(data, edits), e)
    decreases |edits|
  {
    if edits != [] {
      InTurnAppend(Replace(data, edits[0]), edits[1..], e);
      assert (edits + [e])[1..] == edits[1..] + [e];
    }
  }

  lemma {:induction false} SubstituteFirst(original: seq<Byte>, e: Edit, rest: seq<Edit>)
    ensures Substitute(original, [e] + rest, e.start) == e.text + Substitute(original, rest, e.end)
  {
    assert ([e] + rest)[1..] == rest;
  }

  /** Nothing but a copy lies between `from` and the start of the first edit. */
  lemma {:induction false} SubstituteFrom(original: seq<Byte>, rest: seq<Edit>, from: nat, floor: nat)
    requires from <= Clamp(original, floor) && rest != [] && rest[0].start == floor
    ensures Substitute(original, rest, from)
         == original[from..Clamp(original, floor)] + Substitute(original, rest, floor)
  {
  }

  /** Applying the next edit in place extends the simultaneous substitution to the left. */
  lemma {:induction false} OneMore(original: seq<Byte>, data: seq<Byte>, done: seq<Edit>, e: Edit)
    requires done != [] && Progress(original, data, done)
    requires var f := Clamp(original, done[|done| - 1].start); e.start <= f && e.end <= f
    ensures Progress(original, Replace(data, e), done + [e])
  {
    var floor, rev := done[|done| - 1].start, Reversed(done);
    var f, tail := Clamp(original, floor), Substitute(original, rev, floor);
    assert Reversed(done + [e]) == [e] + rev && rev[0] == done[|done| - 1];
    SubstituteFirst(original, e, rev);
    SubstituteFrom(original, rev, e.end, floor);
    assert data[..e.start] == original[..e.start];
    assert data[e.end..] == original[e.end..f] + tail;
  }

  lemma {:induction false} FirstStep(original: seq<Byte>, e: Edit)
    ensures Progress(original, Replace(original, e), [e])
  {
    assert Reversed([e]) == [e] + [];
    SubstituteFirst(original, e, []);
  }

  lemma {:induction false} NoOverrunFits(data: seq<Byte>, kept: seq<Edit>, j: nat)
    requires Falling(kept) && !Overrun(data, kept) && 0 < j < |kept|
    ensures var f := Clamp(data, kept[j - 1].start); kept[j].start <= f && kept[j].end <= f
  {
    assert kept[1].start <= kept[0].start;
    assert j > 1 ==> kept[j - 1].start <= kept[1].start || j == 2;
  }

  lemma {:induction false} PrefixProgress(original: seq<Byte>, kept: seq<Edit>, m: nat)
    requires Falling(kept) && !Overrun(original, kept) && m <= |kept|
    ensures Progress(original, InTurn(original, kept[..m]), kept[..m])
  {
    if m > 0 {
      var e, done := kept[m - 1], kept[..m - 1];
      PrefixProgress(original, kept, m - 1);
      assert kept[..m] == done + [e];
      InTurnAppend(original, done, e);
      if m == 1 {
        FirstStep(original, e);
        assert done + [e] == [e];
      } else {
        NoOverrunFits(original, kept, m - 1);
        OneMore(original, InTurn(original, done), done, e);
      }
    }
  }

  lemma {:induction false} Unsplit(data: seq<Byte>, edits: seq<Edit>, floor: nat)
    requires edits != [] && floor == edits[0].start
    ensures data[..Clamp(data, floor)] + Substitute(data, edits, floor) == Substitute(data, edits, 0)
  {
    SubstituteFrom(data, edits, 0, floor);
  }

  ghost function InPlace(data: seq<Byte>, fixes: seq<Edit>): seq<Byte> {
    InTurn(data, Kept(data, fixes))
  }

  ghost function AtOnce(data: seq<Byte>, fixes: seq<Edit>): seq<Byte> {
    Substitute(data, Reversed(Kept(data, fixes)), 0)
  }

  /** Editing in place, last first, equals substituting all kept edits into the original at once,
      unless the second edit applied overruns the file's end. */
  lemma {:induction false} InPlaceIsSimultaneous(original: seq<Byte>, fixes: seq<Edit>)
    requires !Overrun(original, Kept(original, fixes))
    ensures InPlace(original, fixes) == AtOnce(original, fixes)
  {
    var kept := Kept(original, fixes);
    KeptFalls(original, fixes);
    PrefixProgress(original, kept, |kept|);
    assert kept[..|kept|] == kept;
    if kept != [] {
      Unsplit(original, Reversed(kept), kept[|kept| - 1].start);
    }
  }

  /** Ranges as a scanner reports them. */
  ghost predicate Forward(fixes: seq<Edit>) {
    forall i :: 0 <= i < |fixes| ==> fixes[i].start <= fixes[i].end
  }

  /** No overrun as long as no range starts one past the file's end. */
  lemma {:induction false} NoOverrun(data: seq<Byte>, fixes: seq<Edit>)
    requires Forward(fixes) && forall i :: 0 <= i < |fixes| ==> fixes[i].start != |data| + 1
    ensures !Overrun(data, Kept(data, fixes))
  {
    var kept := Kept(data, fixes);
    KeptFalls(data, fixes);
    KeptDisjoint(data, fixes);
    assert kept != [] ==> kept[0] in fixes;
  }

  // ---------------------------------------------------------------- an overrun does differ

  /** The same ranges, with any texts. */
  ghost predicate SameRanges(fixes: seq<Edit>, other: seq<Edit>) {
    && |fixes| == |other|
    && forall i :: 0 <= i < |fixes| ==> fixes[i].start == other[i].start && fixes[i].end == other[i].end
  }

  lemma {:induction false} SameOrder(fixes: seq<Edit>, other: seq<Edit>)
    requires SameRanges(fixes, other)
    ensures Keys(other) == Keys(fixes) && SameRanges(LastFirst(fixes), LastFirst(other))
  {
    assert Keys(other) == Keys(fixes);
  }

  lemma {:induction false} GreedySame(a: seq<Edit>, b: seq<Edit>, floor: nat)
    requires SameRanges(a, b)
    ensures SameRanges(Greedy(a, floor), Greedy(b, floor))
  {
    if a != [] {
      GreedySame(a[1..], b[1..], floor);
      GreedySame(a[1..], b[1..], a[0].start);
    }
  }

  /** Where the first kept edit stands. */
  lemma {:induction false} GreedyFirst(order: seq<Edit>, floor: nat) returns (j: nat)
    requires Greedy(order, floor) != []
    ensures j < |order| && order[j].end <= floor && forall i :: 0 <= i < j ==> order[i].end > floor
  {
    j := 0;
    while order[j].end > floor
      invariant j < |order| && forall i :: 0 <= i < j ==> order[i].end > floor
      invariant Greedy(order[j..], floor) != []
      decreases |order| - j
    {
      GreedyStep(order, j, floor);
      j := j + 1;
    }
  }

  lemma {:induction false} GreedyFrom(order: seq<Edit>, floor: nat, j: nat)
    requires j < |order| && order[j].end <= floor && forall i :: 0 <= i < j ==> order[i].end > floor
    ensures Greedy(order, floor) == [order[j]] + Greedy(order[j + 1..], order[j].start)
    decreases j
  {
    if j > 0 {
      GreedyFrom(order[1..], floor, j - 1);
      assert order[1..][j..] == order[j + 1..];
    }
  }

  /** The text 1 for one edit and 2 for all the others. */
  ghost function Marked(fixes: seq<Edit>, first: nat): (r: seq<Edit>)
    ensures SameRanges(fixes, r)
  {
    seq(|fixes|, i requires 0 <= i < |fixes| => fixes[i].(text := if i == first then [1] else [2]))
  }

  lemma {:induction false} OthersAreTwo(fixes: seq<Edit>, j: nat)
    requires j < |fixes|
    ensures var other := Marked(fixes, Rank(Keys(fixes))[j]);
            Keys(other) == Keys(fixes) && LastFirst(other)[j].text == [1]
            && forall e :: e in LastFirst(other)[j + 1..] ==> e.text == [2]
  {
    var order := Rank(Keys(fixes));
    var other := Marked(fixes, order[j]);
    SameOrder(fixes, other);
    RankIsSort(Keys(fixes));
    forall i | j < i < |fixes|
      ensures LastFirst(other)[i].text == [2]
    {
      assert order[i] != order[j];
    }
  }

  lemma {:induction false} MarkedKept(data: seq<Byte>, fixes: seq<Edit>) returns (other: seq<Edit>)
    requires Kept(data, fixes) != []
    ensures SameRanges(fixes, other) && SameRanges(Kept(data, fixes), Kept(data, other))
    ensures Kept(data, other)[0].text == [1]
    ensures forall i :: 0 < i < |Kept(data, other)| ==> Kept(data, other)[i].text == [2]
  {
    var order, floor := Rank(Keys(fixes)), |data| + 1;
    var j := GreedyFirst(LastFirst(fixes), floor);
    other := Marked(fixes, order[j]);
    SameOrder(fixes, other);
    GreedySame(LastFirst(fixes), LastFirst(other), floor);
    GreedyFrom(LastFirst(other), floor, j);
    OthersAreTwo(fixes, j);
    var h, rest := LastFirst(other)[j], LastFirst(other)[j + 1..];
    var t := Greedy(rest, h.start);
    GreedyMembers(rest, h.start);
    forall i | 0 < i < |Kept(data, other)|
      ensures Kept(data, other)[i].text == [2]
    {
      assert Kept(data, other) == [h] + t;
      assert t[i - 1] in t;
    }
  }

  ghost predicate EndsWith(data: seq<Byte>, b: Byte) {
    data != [] && data[|data| - 1] == b
  }

  /** Edits below the end keep the last byte. */
  lemma {:induction false} LastStays(data: seq<Byte>, edits: seq<Edit>, floor: nat, b: Byte)
    requires EndsWith(data, b) && floor < |data| && Falling(edits)
    requires edits != [] ==> edits[0].end <= floor && edits[0].start <= floor
    ensures EndsWith(InTurn(data, edits), b)
    decreases |edits|
  {
    if edits != [] {
      var e, rest := edits[0], edits[1..];
      assert rest != [] ==> rest[0] == edits[1];
      LastStays(Replace(data, e), rest, e.start, b);
    }
  }

  lemma {:induction false} SubstituteEnds(data: seq<Byte>, edits: seq<Edit>, from: nat, b: Byte)
    requires edits != [] && edits[|edits| - 1].end >= |data| && edits[|edits| - 1].text == [b]
    ensures EndsWith(Substitute(data, edits, from), b)
    decreases |edits|
  {
    if |edits| > 1 {
      SubstituteEnds(data, edits[1..], edits[0].end, b);
    } else {
      assert edits[1..] == [];
    }
  }

  lemma {:induction false} TwoSteps(data: seq<Byte>, a: Edit, b: Edit)
    requires a.start == a.end == |data| + 1 && a.text == [1]
    requires b.start <= b.end == |data| + 1 && b.text == [2]
    ensures var d := Replace(Replace(data, a), b); EndsWith(d, 2) && b.start < |d|
  {
    assert Replace(data, a) == data + [1];
  }

  lemma {:induction false} OverrunEnds(data: seq<Byte>, kept: seq<Edit>)
    requires Falling(kept) && |kept| >= 2 && kept[0].start == kept[0].end == |data| + 1 == kept[1].end
    requires kept[0].text == [1] && kept[1].text == [2]
    ensures EndsWith(InTurn(data, kept), 2) && EndsWith(Substitute(data, Reversed(kept), 0), 1)
  {
    var a, b, rest := kept[0], kept[1], kept[2..];
    var d := Replace(Replace(data, a), b);
    assert kept[1..][0] == b && kept[1..][1..] == rest;
    assert InTurn(data, kept) == InTurn(d, rest);
    TwoSteps(data, a, b);
    assert rest != [] ==> rest[0] == kept[2];
    LastStays(d, rest, b.start, 2);
    SubstituteEnds(data, Reversed(kept), 0, 1);
  }

  /** With some texts an overrun of forward ranges gives another file than substituting at once. */
  lemma {:induction false} OverrunDiffers(data: seq<Byte>, fixes: seq<Edit>) returns (other: seq<Edit>)
    requires Forward(fixes) && Overrun(data, Kept(data, fixes))
    ensures SameRanges(fixes, other) && InPlace(data, other) != AtOnce(data, other)
  {
    other := MarkedKept(data, fixes);
    var kept := Kept(data, fixes);
    KeptFalls(data, fixes);
    KeptFalls(data, other);
    KeptDisjoint(data, fixes);
    assert kept[0] in fixes && kept[1] in fixes;
    OverrunEnds(data, Kept(data, other));
  }

  /** For forward ranges, editing in place is simultaneous substitution whatever the texts if and
      only if there is no overrun. */
  lemma {:induction false} SimultaneousIff(data: seq<Byte>, fixes: seq<Edit>)
    requires Forward(fixes)
    ensures (forall other :: SameRanges(fixes, other) ==> InPlace(data, other) == AtOnce(data, other))
       <==> !Overrun(data, Kept(data, fixes))
  {
    if Overrun(data, Kept(data, fixes)) {
      var other := OverrunDiffers(data, fixes);
    } else {
      forall other | SameRanges(fixes, other)
        ensures InPlace(data, other) == AtOnce(data, other)
      {
        SameOrder(fixes, other);
        GreedySame(LastFirst(fixes), LastFirst(other), |data| + 1);
        InPlaceIsSimultaneous(data, other);
      }
    }
  }

  lemma {:induction false} TwoInOrder(a: Edit, b: Edit)
    requires a.start > b.start
    ensures LastFirst([a, b]) == [a, b]
  {
    var s := LastFirst([a, b]);
    LastFirstSorts([a, b]);
    assert a in [a, b] && b in [a, b];
    assert s[0] in s && s[1] in s;
  }

  lemma {:induction false} KeepsBoth(a: Edit, b: Edit, data: seq<Byte>)
    requires a.start > b.start && a.end <= |data| + 1 && b.end <= a.start
    ensures Kept(data, [a, b]) == [a, b]
  {
    TwoInOrder(a, b);
    GreedyFrom([a, b], |data| + 1, 0);
    assert [a, b][1..] == [b];
    GreedyFrom([b], a.start, 0);
    assert [b][1..] == [];
  }

  /** An overrun: an insertion past the end of the empty file, then an edit that reaches over it. */
  lemma {:induction false} OverrunExample()
    ensures var fixes := [Edit(1, 1, [97, 98]), Edit(0, 1, [99])];
            InPlace([], fixes) == [99, 98] && AtOnce([], fixes) == [99, 97, 98]
  {
    var a, b := Edit(1, 1, [97, 98]), Edit(0, 1, [99]);
    KeepsBoth(a, b, []);
    assert InTurn([], [a, b]) == [99, 98] by {
      assert [a, b][1..] == [b] && [b][1..] == [];
      assert Replace([], a) == [97, 98] && Replace([97, 98], b) == [99, 98];
      assert InTurn([97, 98], [b]) == InTurn([99, 98], []);
    }
    assert Substitute([], [b, a], 0) == [99] + Substitute([], [a], 1) by {
      assert [b, a][1..] == [a];
    }
    assert Substitute([], [a], 1) == [97, 98] by {
      assert [a][1..] == [];
    }
    assert Reversed([a, b]) == [b, a];
  }
}
