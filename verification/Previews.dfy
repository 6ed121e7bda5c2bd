/**
 Previews waiting for their confirm: one table in the open wallet, filled by previews, emptied by
 confirms, cleared when the server changes and dropped when the wallet is locked. `Step` is one call;
 a run is any sequence of calls.
 */
module Previews {
  import opened Bytes

  datatype Kind = YecSend | YedSend | RedeemVault | ReleaseIntent

  /** A planned transaction. A private YEC send (or shield) is proved at confirm, with parameters. */
  datatype Preview = Preview(kind: Kind, plan: seq<Byte>, needsParams: bool)

  /** What a preview call planned: its id is the txid, or a fresh number when the txid is not known yet. */
  datatype Planned =
    | Signed(preview: Preview, txid: Bytes32)
    | Private(plan: seq<Byte>)

  datatype Call =
    | Unlock
    | Lock
    | SetServer(parses: bool)
    | MakePreview(planned: Planned)
    | FailPreview
    | Confirm(kind: Kind, id: string, paramsPresent: bool, connects: bool)

  datatype Outcome =
    | NotOpen | AlreadyOpen | Failed | Done
    | Stored(id: string)
    | Expired | ParamsMissing | NoConnection
    | Attempted(preview: Preview)

  datatype State = State(open: bool, previews: map<string, Preview>, next: U64)

  const INITIAL: State := State(false, map[], 1)

  // ---------------------------------------------------------------- ids

  function Digit(n: nat): (c: char)
    requires n < 16
    ensures c != 'z'
    ensures forall m: nat :: m < 16 && m != n ==> "0123456789abcdef"[m] != c
  {
    "0123456789abcdef"[n]
  }

  function Decimal(n: nat): (s: string)
    ensures s != []
  {
    if n < 10 then [Digit(n)] else Decimal(n / 10) + [Digit(n % 10)]
  }

  function Hex(b: seq<Byte>): (s: string)
    ensures |s| == 2 * |b|
    ensures forall i :: 0 <= i < |s| ==> s[i] != 'z'
  {
    if b == [] then [] else [Digit(b[0] / 16), Digit(b[0] % 16)] + Hex(b[1..])
  }

  /** The display form of a txid: its bytes reversed, in hex. */
  function TxidHex(txid: Bytes32): (s: string)
    ensures |s| == 64 && s[0] != 'z'
  {
    Hex(seq(32, i requires 0 <= i < 32 && |txid| == 32 => txid[31 - i]))
  }

  function PrivateId(n: nat): string {
    "z" + Decimal(n)
  }

  lemma {:induction false} DecimalIsInjective(m: nat, n: nat)
    requires Decimal(m) == Decimal(n)
    ensures m == n
  {
    var s, t := Decimal(m), Decimal(n);
    assert s[|s| - 1] == Digit(m % 10) && t[|t| - 1] == Digit(n % 10);
    assert m % 10 == n % 10;
    if m >= 10 && n >= 10 {
      assert s[..|s| - 1] == Decimal(m / 10) && t[..|t| - 1] == Decimal(n / 10);
      DecimalIsInjective(m / 10, n / 10);
    }
  }

  // ---------------------------------------------------------------- one call

  function IdOf(s: State, p: Planned): string {
    match p
    case Signed(_, txid) => TxidHex(txid)
    case Private(_) => PrivateId(s.next)
  }

  function PreviewOf(p: Planned): Preview {
    match p
    case Signed(preview, _) => preview
    case Private(plan) => Preview(YecSend, plan, true)
  }

  function ConfirmStep(s: State, kind: Kind, id: string, paramsPresent: bool, connects: bool): (State, Outcome) {
    var rest := s.(previews := s.previews - {id});
    if id !in s.previews || s.previews[id].kind != kind then (rest, Expired)
    else if kind == YecSend && s.previews[id].needsParams && !paramsPresent then (s, ParamsMissing)
    else if !connects then (rest, NoConnection)
    else (rest, Attempted(s.previews[id]))
  }

  /** The id counter is a 64-bit integer and wraps. */
  function NextId(n: U64): U64 {
    (n as int + 1) % TWO_64
  }

  function StoreStep(s: State, p: Planned): (State, Outcome) {
    var next := if p.Private? then NextId(s.next) else s.next;
    (State(true, s.previews[IdOf(s, p) := PreviewOf(p)], next), Stored(IdOf(s, p)))
  }

  function Step(s: State, c: Call): (State, Outcome) {
    match c
    case Unlock => if s.open then (s, AlreadyOpen) else (State(true, map[], s.next), Done)
    case Lock => (State(false, map[], s.next), Done)
    case SetServer(parses) =>
      if !s.open then (s, NotOpen) else if parses then (s.(previews := map[]), Done) else (s, Failed)
    case FailPreview => if !s.open then (s, NotOpen) else (s, Failed)
    case MakePreview(p) => if !s.open then (s, NotOpen) else StoreStep(s, p)
    case Confirm(kind, id, paramsPresent, connects) =>
      if !s.open then (s, NotOpen) else ConfirmStep(s, kind, id, paramsPresent, connects)
  }

  /** The wallet handle as it runs. */
  class Wallet {
    var open: bool
    var previews: map<string, Preview>
    var next: U64

    ghost function Current(): State
      reads this
    {
      State(open, previews, next)
    }

    constructor ()
      ensures Current() == INITIAL
    {
      open, previews, next := false, map[], 1;
    }

    method UnlockWallet() returns (r: Outcome)
      modifies this
      ensures (Current(), r) == Step(old(Current()), Unlock)
    {
      if open {
        return AlreadyOpen;
      }
      open, previews := true, map[];
      r := Done;
    }

    method LockWallet() returns (r: Outcome)
      modifies this
      ensures (Current(), r) == Step(old(Current()), Lock)
    {
      open, previews := false, map[];
      r := Done;
    }

    method ChangeServer(parses: bool) returns (r: Outcome)
      modifies this
      ensures (Current(), r) == Step(old(Current()), SetServer(parses))
    {
      if !open {
        return NotOpen;
      }
      if !parses {
        return Failed;
      }
      previews := map[];
      r := Done;
    }

    method StorePreview(p: Planned) returns (r: Outcome)
      modifies this
      ensures (Current(), r) == Step(old(Current()), MakePreview(p))
    {
      if !open {
        return NotOpen;
      }
      var id: string;
      match p {
        case Signed(_, txid) =>
          id := TxidHex(txid);
        case Private(_) =>
          id := PrivateId(next);
          next := NextId(next);
      }
      previews := previews[id := PreviewOf(p)];
      r := Stored(id);
    }

    method ConfirmPreview(kind: Kind, id: string, paramsPresent: bool, connects: bool) returns (r: Outcome)
      modifies this
      ensures (Current(), r) == Step(old(Current()), Confirm(kind, id, paramsPresent, connects))
    {
      if !open {
        return NotOpen;
      }
      var known := id in previews;
      var found := if known then previews[id] else Preview(kind, [], false);
      previews := previews - {id};
      if !known || found.kind != kind {
        return Expired;
      }
      if kind == YecSend && found.needsParams && !paramsPresent {
        previews := previews[id := found];
        assert previews == old(previews);
        return ParamsMissing;
      }
      if !connects {
        return NoConnection;
      }
      r := Attempted(found);
    }
  }

  // ---------------------------------------------------------------- runs

  function After(calls: seq<Call>, n: nat): State
    requires n <= |calls|
  {
    if n == 0 then INITIAL else Step(After(calls, n - 1), calls[n - 1]).0
  }

  function OutcomeAt(calls: seq<Call>, n: nat): Outcome
    requires n < |calls|
  {
    Step(After(calls, n), calls[n]).1
  }

  predicate StoresAt(calls: seq<Call>, n: nat, id: string)
    requires n < |calls|
  {
    OutcomeAt(calls, n) == Stored(id)
  }

  /** A broadcast is attempted for the preview confirmed under `id`. */
  predicate AttemptsAt(calls: seq<Call>, n: nat, id: string)
    requires n < |calls|
  {
    calls[n].Confirm? && calls[n].id == id && OutcomeAt(calls, n).Attempted?
  }

  /** The call changed the server or locked the wallet. */
  predicate ResetsAt(calls: seq<Call>, n: nat)
    requires n < |calls|
  {
    calls[n].Lock? || (calls[n].SetServer? && OutcomeAt(calls, n) == Done)
  }

  function Stores(calls: seq<Call>, n: nat, id: string): nat
    requires n <= |calls|
  {
    if n == 0 then 0 else Stores(calls, n - 1, id) + if StoresAt(calls, n - 1, id) then 1 else 0
  }

  function Attempts(calls: seq<Call>, n: nat, id: string): nat
    requires n <= |calls|
  {
    if n == 0 then 0 else Attempts(calls, n - 1, id) + if AttemptsAt(calls, n - 1, id) then 1 else 0
  }

  /** In every run, no id is broadcast more often than it was previewed. */
  lemma {:induction false} AttemptsNeverExceedStores(calls: seq<Call>, n: nat, id: string)
    requires n <= |calls|
    ensures Attempts(calls, n, id) + (if id in After(calls, n).previews then 1 else 0) <= Stores(calls, n, id)
  {
    if n > 0 {
      AttemptsNeverExceedStores(calls, n - 1, id);
    }
  }

  /** Between calls `i` and `n` nothing was stored or broadcast under `id` and nothing was reset. */
  ghost predicate Quiet(calls: seq<Call>, i: nat, n: nat, id: string)
    requires i <= n <= |calls|
  {
    forall m :: i <= m < n ==> !StoresAt(calls, m, id) && !AttemptsAt(calls, m, id) && !ResetsAt(calls, m)
  }

  /** The preview under `id` before call `n` was stored by call `i`, and has been left alone since. */
  ghost predicate StoredBy(calls: seq<Call>, i: nat, n: nat, id: string, p: Preview) {
    && i < n <= |calls|
    && StoresAt(calls, i, id) && calls[i].MakePreview? && PreviewOf(calls[i].planned) == p
    && Quiet(calls, i + 1, n, id)
  }

  lemma {:induction false} QuietOneMore(calls: seq<Call>, i: nat, n: nat, id: string)
    requires i <= n < |calls| && Quiet(calls, i, n, id)
    requires !StoresAt(calls, n, id) && !AttemptsAt(calls, n, id) && !ResetsAt(calls, n)
    ensures Quiet(calls, i, n + 1, id)
  {
  }

  lemma {:induction false} StillStoredBy(calls: seq<Call>, i: nat, n: nat, id: string, p: Preview)
    requires n < |calls| && StoredBy(calls, i, n, id, p)
    requires !StoresAt(calls, n, id) && !AttemptsAt(calls, n, id) && !ResetsAt(calls, n)
    ensures StoredBy(calls, i, n + 1, id, p)
  {
    QuietOneMore(calls, i + 1, n, id);
  }

  lemma {:induction false} StoredNow(s: State, c: Call, id: string)
    requires Step(s, c).1 == Stored(id)
    ensures c.MakePreview? && id in Step(s, c).0.previews && Step(s, c).0.previews[id] == PreviewOf(c.planned)
  {
  }

  /** A preview found after a call that did not store it was there before, and the call neither
      broadcast it nor reset the table. */
  lemma {:induction false} KeptFromBefore(s: State, c: Call, id: string)
    requires id in Step(s, c).0.previews && Step(s, c).1 != Stored(id)
    ensures id in s.previews && s.previews[id] == Step(s, c).0.previews[id]
    ensures !(c.Lock? || (c.SetServer? && Step(s, c).1 == Done))
    ensures !(c.Confirm? && c.id == id && Step(s, c).1.Attempted?)
  {
  }

  lemma {:induction false} TableIsFresh(calls: seq<Call>, n: nat, id: string) returns (i: nat)
    requires n <= |calls| && id in After(calls, n).previews
    ensures StoredBy(calls, i, n, id, After(calls, n).previews[id])
  {
    assert n > 0;
    var s, c := After(calls, n - 1), calls[n - 1];
    assert After(calls, n) == Step(s, c).0 && OutcomeAt(calls, n - 1) == Step(s, c).1;
    if StoresAt(calls, n - 1, id) {
      StoredNow(s, c, id);
      i := n - 1;
    } else {
      KeptFromBefore(s, c, id);
      i := TableIsFresh(calls, n - 1, id);
      StillStoredBy(calls, i, n - 1, id, s.previews[id]);
    }
  }

  /** Every broadcast is of the latest preview stored under its id, of the confirm's own kind, not
      broadcast before, and stored since the last change of server or lock. */
  lemma {:induction false} BroadcastIsLatest(calls: seq<Call>, n: nat, id: string) returns (i: nat)
    requires n < |calls| && AttemptsAt(calls, n, id)
    ensures StoredBy(calls, i, n, id, OutcomeAt(calls, n).preview)
    ensures OutcomeAt(calls, n).preview.kind == calls[n].kind
  {
    i := TableIsFresh(calls, n, id);
  }

  /** Only a confirm that lacks the proving parameters leaves its preview in place; every other confirm
      of an open wallet consumes whatever is stored under the id, of whatever kind. */
  lemma {:induction false} ConfirmConsumes(s: State, kind: Kind, id: string, paramsPresent: bool, connects: bool)
    requires s.open
    ensures var (s', r) := Step(s, Confirm(kind, id, paramsPresent, connects));
            && (r == ParamsMissing ==> s' == s)
            && (r != ParamsMissing ==> s' == s.(previews := s.previews - {id}))
            && (r == ParamsMissing <==> id in s.previews && s.previews[id].kind == kind == YecSend
                                        && s.previews[id].needsParams && !paramsPresent)
  {
  }

  // ---------------------------------------------------------------- what a confirm answers

  /** The call confirmed `id` and took whatever was stored under it: all outcomes but missing parameters
      do, on an open wallet. */
  predicate TakesAt(calls: seq<Call>, n: nat, id: string)
    requires n < |calls|
  {
    calls[n].Confirm? && calls[n].id == id && OutcomeAt(calls, n) != ParamsMissing && OutcomeAt(calls, n) != NotOpen
  }

  ghost predicate LeftAlone(calls: seq<Call>, i: nat, n: nat, id: string)
    requires i <= n <= |calls|
  {
    forall m :: i <= m < n ==> !StoresAt(calls, m, id) && !TakesAt(calls, m, id) && !ResetsAt(calls, m)
  }

  /** Call `i` stored `p` under `id`, and no call from then to `n` stored, took or reset it. */
  ghost predicate Standing(calls: seq<Call>, i: nat, n: nat, id: string, p: Preview) {
    && i < n <= |calls|
    && StoresAt(calls, i, id) && calls[i].MakePreview? && PreviewOf(calls[i].planned) == p
    && LeftAlone(calls, i + 1, n, id)
  }

  ghost predicate Waits(s: State, id: string, p: Preview) {
    id in s.previews && s.previews[id] == p
  }

  lemma {:induction false} ClosedIsEmpty(calls: seq<Call>, n: nat)
    requires n <= |calls|
    ensures !After(calls, n).open ==> After(calls, n).previews == map[]
  {
    if n > 0 {
      ClosedIsEmpty(calls, n - 1);
    }
  }

  /** A call that neither stores, takes nor resets leaves the table's entry as it is, and only such a
      call or a store leaves one. */
  lemma {:induction false} StepKeeps(calls: seq<Call>, n: nat, id: string, p: Preview)
    requires n < |calls| && !StoresAt(calls, n, id)
    ensures Waits(After(calls, n + 1), id, p)
       <==> Waits(After(calls, n), id, p) && !TakesAt(calls, n, id) && !ResetsAt(calls, n)
  {
    var s, c := After(calls, n), calls[n];
    ClosedIsEmpty(calls, n);
    assert After(calls, n + 1) == Step(s, c).0 && OutcomeAt(calls, n) == Step(s, c).1;
  }

  lemma {:induction false} StandingWaits(calls: seq<Call>, i: nat, n: nat, id: string, p: Preview)
    requires Standing(calls, i, n, id, p)
    ensures Waits(After(calls, n), id, p)
    decreases n
  {
    if n == i + 1 {
      StoredNow(After(calls, i), calls[i], id);
    } else {
      assert LeftAlone(calls, i + 1, n - 1, id);
      StandingWaits(calls, i, n - 1, id, p);
      StepKeeps(calls, n - 1, id, p);
    }
  }

  lemma {:induction false} LeftAloneOneMore(calls: seq<Call>, i: nat, n: nat, id: string)
    requires i <= n < |calls| && LeftAlone(calls, i, n, id)
    requires !StoresAt(calls, n, id) && !TakesAt(calls, n, id) && !ResetsAt(calls, n)
    ensures LeftAlone(calls, i, n + 1, id)
  {
  }

  lemma {:induction false} WaitsStanding(calls: seq<Call>, n: nat, id: string, p: Preview) returns (i: nat)
    requires n <= |calls| && Waits(After(calls, n), id, p)
    ensures Standing(calls, i, n, id, p)
    decreases n
  {
    assert n > 0;
    if StoresAt(calls, n - 1, id) {
      StoredNow(After(calls, n - 1), calls[n - 1], id);
      i := n - 1;
    } else {
      StepKeeps(calls, n - 1, id, p);
      i := WaitsStanding(calls, n - 1, id, p);
      LeftAloneOneMore(calls, i + 1, n - 1, id);
    }
  }

  /** A preview waits under an id exactly when some call stored it and it was left alone since. */
  lemma {:induction false} WaitsIff(calls: seq<Call>, n: nat, id: string, p: Preview)
    requires n <= |calls|
    ensures Waits(After(calls, n), id, p) <==> exists i :: Standing(calls, i, n, id, p)
  {
    if Waits(After(calls, n), id, p) {
      var i := WaitsStanding(calls, n, id, p);
    }
    if i :| Standing(calls, i, n, id, p) {
      StandingWaits(calls, i, n, id, p);
    }
  }

  /** The confirm has what it takes to prove this preview. */
  predicate Provable(p: Preview, paramsPresent: bool) {
    p.kind == YecSend && p.needsParams ==> paramsPresent
  }

  /** What every confirm of an open wallet answers, over every run: it broadcasts the preview standing
      under its id if that is of its kind, can be proved and the server is reached. */
  lemma {:induction false} ConfirmAnswers(calls: seq<Call>, n: nat, p: Preview)
    requires n < |calls| && calls[n].Confirm? && After(calls, n).open
    ensures var c, r := calls[n], OutcomeAt(calls, n);
            var stands := p.kind == c.kind && exists i :: Standing(calls, i, n, c.id, p);
            && (r == Attempted(p) <==> stands && Provable(p, c.paramsPresent) && c.connects)
            && (stands && !Provable(p, c.paramsPresent) ==> r == ParamsMissing)
            && (stands && Provable(p, c.paramsPresent) && !c.connects ==> r == NoConnection)
            && (stands ==> r != Expired)
  {
    WaitsIff(calls, n, calls[n].id, p);
  }

  /** And it answers that the preview expired exactly when none of its kind stands under its id. */
  lemma {:induction false} ExpiredIff(calls: seq<Call>, n: nat)
    requires n < |calls| && calls[n].Confirm? && After(calls, n).open
    ensures OutcomeAt(calls, n) == Expired
       <==> forall i, p :: Standing(calls, i, n, calls[n].id, p) ==> p.kind != calls[n].kind
  {
    var s, c := After(calls, n), calls[n];
    forall i, p | Standing(calls, i, n, c.id, p)
      ensures Waits(s, c.id, p)
    {
      StandingWaits(calls, i, n, c.id, p);
    }
    if c.id in s.previews {
      var i := WaitsStanding(calls, n, c.id, s.previews[c.id]);
    }
  }

  /** The wallet was unlocked and not locked since. */
  ghost predicate Unlocked(calls: seq<Call>, i: nat, n: nat) {
    i < n <= |calls| && calls[i].Unlock? && forall m :: i < m < n ==> !calls[m].Lock?
  }

  lemma {:induction false} OpenStep(s: State, c: Call)
    ensures Step(s, c).0.open <==> c.Unlock? || (s.open && !c.Lock?)
  {
  }

  lemma {:induction false} OpenIff(calls: seq<Call>, n: nat)
    requires n <= |calls|
    ensures After(calls, n).open <==> exists i :: Unlocked(calls, i, n)
  {
    if n > 0 {
      var s, c := After(calls, n - 1), calls[n - 1];
      OpenIff(calls, n - 1);
      OpenStep(s, c);
      if s.open && !c.Lock? {
        var i :| Unlocked(calls, i, n - 1);
        assert Unlocked(calls, i, n);
      }
      if c.Unlock? {
        assert Unlocked(calls, n - 1, n);
      }
      if i: nat :| Unlocked(calls, i, n) {
        assert i < n - 1 ==> Unlocked(calls, i, n - 1);
      }
    }
  }

  /** A preview is stored exactly when the wallet is open: a signed one as it is under its txid, a private
      send as one that needs parameters under a private number. */
  lemma {:induction false} PreviewStores(calls: seq<Call>, n: nat)
    requires n < |calls| && calls[n].MakePreview?
    ensures !After(calls, n).open ==> OutcomeAt(calls, n) == NotOpen
    ensures After(calls, n).open ==>
              match calls[n].planned
              case Signed(preview, txid) =>
                && OutcomeAt(calls, n) == Stored(TxidHex(txid))
                && Waits(After(calls, n + 1), TxidHex(txid), preview)
              case Private(plan) =>
                var id := "z" + Decimal(After(calls, n).next);
                OutcomeAt(calls, n) == Stored(id) && Waits(After(calls, n + 1), id, Preview(YecSend, plan, true))
  {
  }

  lemma {:induction false} HexAt(b: seq<Byte>, i: nat)
    requires i < |b|
    ensures Hex(b)[2 * i] == Digit(b[i] / 16) && Hex(b)[2 * i + 1] == Digit(b[i] % 16)
  {
    if i > 0 {
      HexAt(b[1..], i - 1);
    }
  }

  /** A txid is shown from its last byte on, two hex digits a byte, the high one first. */
  lemma {:induction false} TxidHexAt(txid: Bytes32, i: nat)
    requires i < 32
    ensures var s, b, digits := TxidHex(txid), txid[31 - i] as int, "0123456789abcdef";
            s[2 * i] == digits[b / 16] && s[2 * i + 1] == digits[b % 16]
  {
    HexAt(seq(32, j requires 0 <= j < 32 && |txid| == 32 => txid[31 - j]), i);
  }

  /** The number a string of decimal digits spells. */
  ghost function Spelled(s: string): int {
    if s == [] then 0 else 10 * Spelled(s[..|s| - 1]) + (s[|s| - 1] as int - '0' as int)
  }

  lemma {:induction false} DecimalSpells(n: nat)
    ensures Spelled(Decimal(n)) == n
  {
    var s := Decimal(n);
    if n < 10 {
      assert s[..0] == [];
    } else {
      DecimalSpells(n / 10);
      assert s[..|s| - 1] == Decimal(n / 10);
    }
  }

  // ---------------------------------------------------------------- when private ids recur

  /** The call stored a private send. */
  predicate StoresPrivate(calls: seq<Call>, n: nat)
    requires n < |calls|
  {
    calls[n].MakePreview? && calls[n].planned.Private? && OutcomeAt(calls, n).Stored?
  }

  /** How many private sends were stored before call `n`. */
  function PrivateStores(calls: seq<Call>, n: nat): nat
    requires n <= |calls|
  {
    if n == 0 then 0 else PrivateStores(calls, n - 1) + if StoresPrivate(calls, n - 1) then 1 else 0
  }

  /** What the counter shows after `p` private sends. */
  function Number(p: nat): (r: U64) {
    (1 + p) % TWO_64
  }

  lemma {:induction false} NumberStep(p: nat)
    ensures NextId(Number(p)) == Number(p + 1)
  {
  }

  lemma {:induction false} CounterStep(calls: seq<Call>, n: nat)
    requires n < |calls|
    ensures var s := After(calls, n);
            After(calls, n + 1).next == if StoresPrivate(calls, n) then NextId(s.next) else s.next
  {
  }

  lemma {:induction false} CountsOneMore(calls: seq<Call>, n: nat)
    requires n < |calls| && After(calls, n).next == Number(PrivateStores(calls, n))
    ensures After(calls, n + 1).next == Number(PrivateStores(calls, n + 1))
  {
    CounterStep(calls, n);
    NumberStep(PrivateStores(calls, n));
  }

  /** The counter counts the private sends, modulo 2^64. */
  lemma {:induction false} CounterCounts(calls: seq<Call>, n: nat)
    requires n <= |calls|
    ensures After(calls, n).next == Number(PrivateStores(calls, n))
    decreases n
  {
    if n == 0 {
    } else {
      CounterCounts(calls, n - 1);
      CountsOneMore(calls, n - 1);
    }
  }

  lemma {:induction false} PrivateIdsDiffer(a: nat, b: nat)
    ensures PrivateId(a) == PrivateId(b) <==> a == b
  {
    if PrivateId(a) == PrivateId(b) {
      assert PrivateId(a)[1..] == Decimal(a) && PrivateId(b)[1..] == Decimal(b);
      DecimalIsInjective(a, b);
    }
  }

  /** What a call stores under a private id is a private send with that number. */
  lemma {:induction false} StoresNumber(calls: seq<Call>, n: nat, a: nat)
    requires n < |calls|
    ensures StoresAt(calls, n, PrivateId(a)) <==> StoresPrivate(calls, n) && After(calls, n).next == a
  {
    var s, c := After(calls, n), calls[n];
    PrivateIdsDiffer(a, s.next);
    if c.MakePreview? && c.planned.Signed? {
      assert TxidHex(c.planned.txid)[0] != PrivateId(a)[0];
    }
  }

  lemma {:induction false} SameNumber(p: nat, q: nat)
    ensures Number(p) == Number(q) <==> (q - p) % TWO_64 == 0
  {
  }

  /** A private send shares its id with another preview of the run exactly when that one is a private
      send too and a multiple of 2^64 private sends apart. */
  lemma {:induction false} PrivateIdRecursIff(calls: seq<Call>, m: nat, n: nat, id: string)
    requires m < |calls| && n < |calls|
    requires StoresPrivate(calls, m) && StoresAt(calls, m, id)
    ensures StoresAt(calls, n, id)
       <==> StoresPrivate(calls, n) && (PrivateStores(calls, n) - PrivateStores(calls, m)) % TWO_64 == 0
  {
    assert id == PrivateId(After(calls, m).next);
    StoresNumber(calls, n, After(calls, m).next);
    CounterCounts(calls, m);
    CounterCounts(calls, n);
    SameNumber(PrivateStores(calls, m), PrivateStores(calls, n));
  }

  /** How many of the first `p` numbers are `r` modulo 2^64. */
  function Hits(p: int, r: int): int {
    (p + TWO_64 - 1 - r) / TWO_64
  }

  lemma {:induction false} HitsStep(p: int, q: int)
    ensures var r := q % TWO_64; Hits(p + 1, r) == Hits(p, r) + if (p - q) % TWO_64 == 0 then 1 else 0
  {
  }

  lemma {:induction false} NoHits(q: int)
    ensures Hits(0, q % TWO_64) == 0
  {
  }

  /** How many of the private sends before call `n` have the number of the one stored by call `m`. */
  function Expected(calls: seq<Call>, m: nat, n: nat): int
    requires m <= |calls| && n <= |calls|
  {
    Hits(PrivateStores(calls, n), PrivateStores(calls, m) % TWO_64)
  }

  lemma {:induction false} ExpectedStep(calls: seq<Call>, m: nat, n: nat)
    requires m <= |calls| && n < |calls|
    ensures var p, q := PrivateStores(calls, n), PrivateStores(calls, m);
            var hit := StoresPrivate(calls, n) && (p - q) % TWO_64 == 0;
            Expected(calls, m, n + 1) == Expected(calls, m, n) + if hit then 1 else 0
  {
    HitsStep(PrivateStores(calls, n), PrivateStores(calls, m));
  }

  lemma {:induction false} StoresStep(calls: seq<Call>, m: nat, n: nat, id: string)
    requires m < |calls| && n < |calls|
    requires StoresPrivate(calls, m) && StoresAt(calls, m, id)
    requires Stores(calls, n, id) == Expected(calls, m, n)
    ensures Stores(calls, n + 1, id) == Expected(calls, m, n + 1)
  {
    PrivateIdRecursIff(calls, m, n, id);
    ExpectedStep(calls, m, n);
  }

  /** How often a private id is stored: once for every 2^64 private sends. */
  lemma {:induction false} StoresCount(calls: seq<Call>, m: nat, n: nat, id: string)
    requires m < |calls| && n <= |calls|
    requires StoresPrivate(calls, m) && StoresAt(calls, m, id)
    ensures Stores(calls, n, id) == Expected(calls, m, n)
    decreases n
  {
    if n == 0 {
      NoHits(PrivateStores(calls, m));
    } else {
      StoresCount(calls, m, n - 1, id);
      StoresStep(calls, m, n - 1, id);
    }
  }

  /** In a run of at most 2^64 private sends each is broadcast at most once, whatever is confirmed; in a
      longer one at most once for every 2^64. */
  lemma {:induction false} PrivateSendOnce(calls: seq<Call>, m: nat, n: nat, id: string)
    requires m < |calls| && n <= |calls|
    requires StoresPrivate(calls, m) && StoresAt(calls, m, id)
    ensures Attempts(calls, n, id) <= (PrivateStores(calls, n) + TWO_64 - 1) / TWO_64
    ensures PrivateStores(calls, n) <= TWO_64 ==> Attempts(calls, n, id) <= 1
  {
    AttemptsNeverExceedStores(calls, n, id);
    StoresCount(calls, m, n, id);
  }
}
