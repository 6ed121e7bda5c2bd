# YEW wallet core: a verified model

YEW is a wallet for YEC and for YED, a dollar token carried by small transparent outputs. A wrong
coin selection, a wrong class or a wrong payload burns dollars. This project models the parts of the
wallet core where that is decided and proves what they guarantee for every input and every run.

- **Coin selector** (`WalkSpec`, `WalkTheorems`, `CoinSelect`, `Choices`, `SelectTheorems`,
  `StageTheorems`, `NearestTheorems`, `OrderIndependence`). A budgeted depth-first walk with five
  goals, the staged selector EXACT, SINGLE, GREEDY, SEARCH, BURN built on it, and the two amounts
  named by a refusal. The walk is a class whose mutable fields follow the source; `WalkSpec.Enter` and `WalkSpec.Loop` are
  its specification. The theorems about acceptance hold even when every walk exhausts its 200,000
  calls. They rest on the first greedy descent and on a lock step between the EXACT walk and the two
  later ones.
- **Classes, fee reserve, YEC selection, broadcast gate** (`Coins`, `FeeReserves`, `Gate`,
  `GatePaths`, `Pipeline`). The end-to-end result is that YED is never spent as YEC.
- **Wire codecs** (`Bytes`, `Script`, `Payload`, `PayloadCodec`, `PqPushes`, `Hkdf`). Byte-level
  parsers and printers that undo each other in both directions.
- **Fee and collateral arithmetic** (`Fees`), **attestor payee** (`AttestPayee`), **preview table**
  (`Previews`), and **overlapping edits** (`ApplyFixes`).

`Sequences`, `Ranking` and `Wrappers` are shared helpers. `Ranking.Rank` is a stable sort of positions
by lexicographic integer keys and stands for every library sort in the source. `dafny verify
dfyconfig.toml` checks the whole project.

Amounts are unbounded integers. In the selector, with positive coins, every sum the source forms lies
between 0 and the wallet total, so 64-bit arithmetic is exact whenever the total plus the floor and the
target plus the floor fit 64 bits. `Fees` models saturation, 64-bit overflow and 128-bit wrap-around.

## Model

| member | source | states |
|---|---|---|
| CoinSelect.Walk.constructor | core/src/coinselect.rs:149-176 | A fresh walk has the suffix sums of its coins in rank order and no result. |
| CoinSelect.Walk.RecordPick | core/src/coinselect.rs:192-199 | The recorded pick replaces the best one exactly when the goal prefers it. |
| CoinSelect.Walk.Judge | core/src/coinselect.rs:224-262 | Pushing a coin records it when the goal is met, and goes deeper only below the cap and where the goal does not stop. |
| CoinSelect.Walk.Descend | core/src/coinselect.rs:209-268 | The in-place recursive search leaves exactly the budget, best sum and best pick of the specification, and restores the pick stack. |
| WalkSpec.RunSound | core/src/coinselect.rs:209-268 | Whatever a walk returns is an allowed choice of coins, weighs what it says and meets the goal. |
| WalkTheorems.RunOptimal | core/src/coinselect.rs:178-268 | With budget left a walk finds a result if and only if some allowed choice meets its goal, none is better, and of those as good it returns the one visited first. |
| WalkTheorems.RunEndsAtOnce | core/src/coinselect.rs:199-217 | A walk whose first coin is worth exactly the target ends after one call. |
| WalkTheorems.RunGivesUp | core/src/coinselect.rs:209-225 | A walk whose coins cannot reach the target gives up after one call. |
| WalkTheorems.RunCalls | core/src/coinselect.rs:209-217 | A walk over n coins makes at most 2^n calls, so 17 coins never exhaust the budget. |
| WalkTheorems.RunFirstDescent | core/src/coinselect.rs:209-268 | Whatever the budget left later, an upward walk finds a result no worse than the m largest coins when those meet its goal. |
| WalkTheorems.ExactCovers | core/src/coinselect.rs:226-262 | If the ValidChange or Overshoot walk lands on the target within the budget, the Exact walk found a result within the same budget. |
| WalkTheorems.SolutionIsReachable | core/src/coinselect.rs:220-223 | The reachability cut never removes a solution. |
| SelectTheorems.SearchIsOptimal | core/src/coinselect.rs:115-128 | The optimality statement over choices of the caller's own coins, for all five goals. |
| Choices.ReachIsLargest | core/src/coinselect.rs:299-302 | The reachable sum is the maximum over all choices of at most the cap, and is attained. |
| CoinSelect.OneCoin | core/src/coinselect.rs:352-358 | The SINGLE loop returns the first coin in ascending rank that clears the floor. |
| SelectTheorems.SingleIsSmallest | core/src/coinselect.rs:352-358 | SINGLE takes the smallest coin clearing the floor and fails only when there is none. |
| CoinSelect.SmallestFirst | core/src/coinselect.rs:360-384 | The GREEDY loop is smallest-first accumulation extended over the forbidden band. |
| SelectTheorems.GreedyPrefix | core/src/coinselect.rs:360-384 | GREEDY returns the shortest smallest-first prefix within the cap with change 0 or at least the floor, and fails only when there is none. |
| CoinSelect.SelectFloorAware | core/src/coinselect.rs:308-423 | The staged method computes the selection function, for every coin list, target, floor, cap and burn flag. |
| SelectTheorems.RefusalFlags | core/src/coinselect.rs:315-333 | A refusal is flagged insufficient exactly when all coins fall short, too-many-inputs exactly when only the cap stands in the way, and unflagged only below the reachable sum. |
| StageTheorems.RankAscendingIs | core/src/coinselect.rs:108-113 | Ascending rank lists every coin once, by cents and then by index. |
| StageTheorems.RankDescendingIs | core/src/coinselect.rs:102-106 | Descending rank lists every coin once, by cents downwards and then by index. |
| StageTheorems.ExactIff | core/src/coinselect.rs:335-350 | EXACT answers if and only if its walk found something. |
| StageTheorems.SingleAnswers | core/src/coinselect.rs:352-358 | If EXACT did not answer and some coin clears the target by the floor, SINGLE answers with the smallest of them, the first listed of equals. |
| StageTheorems.GreedyAnswers | core/src/coinselect.rs:360-384 | If no coin does, GREEDY answers if and only if some number of the smallest coins within the cap leaves change 0 or the floor, and takes the least such number. |
| StageTheorems.LastAnswers | core/src/coinselect.rs:386-423 | After all of these SEARCH answers if and only if its walk found something, and otherwise BURN if and only if it is allowed and would burn less than the floor. |
| StageTheorems.GreedySkips | core/src/coinselect.rs:365-372 | Coins worth nothing neither count against GREEDY's cap nor stop it. |
| StageTheorems.TotalBounds | core/src/coinselect.rs:324-328 | No choice of coins is worth more than the total compared with the target, whatever the coins. |
| StageTheorems.TotalAttained | core/src/coinselect.rs:324-328 | Some choice of coins is worth that total. |
| SelectTheorems.SelectBalanced | core/src/coinselect.rs:519-575 | Every selection has ascending indexes within the cap, is worth target + change + burn, has change 0 or at least the floor and a burn below the floor only in BURN; a refusal names no coin. |
| SelectTheorems.NoFalseRefusal | core/src/coinselect.rs:360-401 | Every target at least the floor below the reachable sum is accepted without a burn, whatever the budget. |
| SelectTheorems.NeverStranded | core/src/coinselect.rs:403-422 | With the burn allowed a target is accepted if and only if the largest coins within the cap reach it, whatever the budget, and BURN appears only below the floor's margin. |
| SelectTheorems.BurnIffNothingElse | core/src/coinselect.rs:306-307 | BURN is taken when and only when the coins reach the target and no selection exists without a burn. |
| SelectTheorems.SearchOnlyAboveCap | core/src/coinselect.rs:386-401 | SEARCH is returned only by a wallet of more coins than the cap, and always with change. |
| SelectTheorems.TransferAccepted | core/src/coinselect.rs:304-401 | An accepted TRANSFER is payable exactly or leaves the floor; the converse holds whenever the EXACT walk ends with budget left. |
| SelectTheorems.SmallTransferAccepted | core/src/coinselect.rs:304-401 | For at most 17 coins acceptance is exactly payability. |
| SelectTheorems.ExactIsShortest | core/src/coinselect.rs:335-350 | EXACT uses the fewest coins of all choices that pay the target. |
| SelectTheorems.SearchIsCheapest | core/src/coinselect.rs:386-401 | SEARCH leaves the least change of all choices that leave at least the floor. |
| SelectTheorems.BurnIsCheapest | core/src/coinselect.rs:403-421 | BURN burns the least of all choices that reach the target. |
| CoinSelect.NearestWorkable | core/src/coinselect.rs:427-482 | The method computes the two alternatives from the Above and Below walks. |
| NearestTheorems.AboveExists | core/src/coinselect.rs:439-459 | An amount above is offered if and only if the reachable sum exceeds the target, whatever the budget. |
| NearestTheorems.ReachIsPaid | core/src/coinselect.rs:335-350 | The sum of the largest coins within the cap is always paid exactly, whatever the budget. |
| NearestTheorems.BandFacts | core/src/coinselect.rs:386-423 | A target refused without a flag lies strictly below the reach and less than the floor away from it, whatever the budget. |
| NearestTheorems.NearestIsTight | core/src/coinselect.rs:425-482 | For every wallet and every target refused in the change band, an amount above exists and every amount named is workable, accepted once its EXACT walk has budget left; nothing between the two is accepted when the two walks that look for them have budget left. |
| NearestTheorems.SmallNearestIsTight | core/src/coinselect.rs:425-482 | For at most 17 coins both named amounts are accepted and nothing between them is, unconditionally. |
| OrderIndependence.SelectOrderIndependent | core/src/coinselect.rs:100-113 | Permuting the coin list changes neither flags, stage, amounts nor the multiset of chosen values. |
| ApplyFixes.Apply | contrib/semgrep/triage.py:330-340 | The loop applies the greedily kept edits in turn and counts them. |
| ApplyFixes.InPlaceIsSimultaneous | contrib/semgrep/triage.py:334-340 | Editing in place, last first, equals substituting all kept edits into the original at once, unless the second edit applied overruns the end of a file whose first edit started past it. |
| ApplyFixes.SimultaneousIff | contrib/semgrep/triage.py:334-340 | For ranges that end no earlier than they start, the two agree for all texts if and only if there is no such overrun. |
| ApplyFixes.NoOverrun | contrib/semgrep/triage.py:334-337 | There is no overrun as long as no range starts one past the end of the file. |
| ApplyFixes.OverrunExample | contrib/semgrep/triage.py:334-340 | Two edits of the empty file for which the two differ. |
| ApplyFixes.KeptDisjoint | contrib/semgrep/triage.py:335-339 | The kept edits are edits of the file and pairwise disjoint. |
| ApplyFixes.LastFirstIsStable | contrib/semgrep/triage.py:335-335 | Edits are taken by start, last first, and of those that start together the one listed first. |
| ApplyFixes.SkippedForAReason | contrib/semgrep/triage.py:335-337 | For nonempty ranges in the file every skipped edit overlaps a kept one. |
| ApplyFixes.KeptIsMaximal | contrib/semgrep/triage.py:335-340 | For nonempty ranges in the file no pairwise disjoint choice of edits is larger than the kept one. |
| Script.ReadOps | core/src/script.rs:169-206 | The op iterator computes the op list, and fails exactly on a truncated push. |
| Script.PushReads | core/src/script.rs:108-124 | A pushed element of up to 65,535 bytes reads back as one op in front of anything. |
| Script.PushHeaderIs | core/src/script.rs:108-124 | The bytes in front of a push of any length. |
| Script.AnnouncedReads | core/src/script.rs:169-206 | A push in any of its four forms reads back as one op. |
| Script.OnePushIs | core/src/script.rs:169-206 | A script that reads as one push is one of those forms and its data. |
| Script.P2pkhIff | core/src/script.rs:243-254 | The hash of a pay-to-key-hash script, for exactly the scripts of that shape. |
| Script.P2shIff | core/src/script.rs:262-272 | The hash of a pay-to-script-hash script, for exactly the scripts of that shape. |
| PayloadCodec.Reader.U8 | core/src/payload.rs:240-244 | One byte is read and the cursor moves, or nothing happens at the end. |
| PayloadCodec.Reader.Take | core/src/payload.rs:253-258 | The next n bytes are read and the cursor moves, or nothing happens when they are not there. |
| PayloadCodec.CheckAssignments | core/src/payload.rs:270-278 | True if and only if there are at most max assignments, none of zero cents and none for a repeated output. |
| PayloadCodec.WriteAssignments | core/src/payload.rs:291-297 | Appends the count and the assignments to the buffer. |
| PayloadCodec.ReadAssignments | core/src/payload.rs:280-289 | Reads the assignments at the cursor, or fails when the data is short. |
| PayloadCodec.EncodePayload | core/src/payload.rs:301-381 | The buffer-writing encoder produces the wire layout of all seven types and refuses exactly the payloads that are not encodable. |
| PayloadCodec.ReadBody | core/src/payload.rs:384-471 | The cursor-moving body decoder reads every field at its layout offset and ends at the end of the data. |
| PayloadCodec.DecodePayload | core/src/payload.rs:476-499 | The cursor-moving decoder equals the offset-based one on every byte string. |
| Payload.DecodeEncode | core/src/payload.rs:301-381 | Decoding an encoding gives the payload back; encodings are 4 to 80 bytes; encoding fails exactly on too many, zero-cent or repeated assignments. |
| Payload.EncodeDecode | core/src/payload.rs:473-499 | Re-encoding a decoded byte string gives the same bytes, so every payload has one encoding. |
| Payload.HeaderBytes | core/src/payload.rs:301-305 | The magic, version and type bytes of all seven payloads. |
| Payload.EncodeRefusesIff | core/src/payload.rs:270-278 | The encoder refuses more than 15 or 13 assignments, zero cents and a repeated output, and nothing else. |
| Payload.MintLayout | core/src/payload.rs:307-323 | Every field of a MINT at its offset, integers lowest byte first. |
| Payload.TransferLayout | core/src/payload.rs:324-329 | The count and the assignments of a TRANSFER at their offsets. |
| Payload.RedeemLayout | core/src/payload.rs:330-343 | The height, the two fee outputs in their order, the count and the assignments of a REDEEM at their offsets. |
| Payload.RegisterLayout | core/src/payload.rs:344-354 | Every field of a REGISTER at its offset. |
| Payload.NoticeLayout | core/src/payload.rs:355-363 | Every field of a NOTICE at its offset. |
| Payload.ReviveLayout | core/src/payload.rs:365-375 | Every field of a REVIVE at its offset. |
| PayloadCodec.ExtractPayloadScript | core/src/payload.rs:502-529 | The data of a payload script of 4 to 80 bytes is extracted unchanged. |
| PayloadCodec.ExtractIff | core/src/payload.rs:502-529 | Data is extracted from exactly the scripts that are OP_RETURN and one push of 4 to 80 bytes. |
| PayloadCodec.FindOpReturn | core/src/payload.rs:533-544 | The index of the only OP_RETURN output, absent exactly when there is none or more than one. |
| PayloadCodec.FindPayload | core/src/payload.rs:558-571 | The payload of the only OP_RETURN, present exactly when it decodes and its assigned outputs exist and exclude that OP_RETURN. |
| PayloadCodec.WrittenIsFound | core/src/payload.rs:555-571 | A payload encoded into a transaction's only OP_RETURN is found there if and only if the outputs it assigns exist and are not that OP_RETURN. |
| PayloadCodec.OneOpReturnOnly | core/src/payload.rs:533-544 | A transaction with no OP_RETURN, or with two, carries no payload. |
| PqPushes.ChunksFacts | core/src/pq.rs:284-288 | Chunks are full but for the last, join back to the data, and number the rounded-up quotient. |
| PqPushes.PushChunked | core/src/pq.rs:291-301 | Appends chunks and count, and fails exactly outside 1 to 8,320 bytes. |
| PqPushes.PqSigPushes | core/src/pq.rs:307-312 | Both elements are pushed, and the first one that does not fit is reported. |
| PqPushes.ReadChunked | core/src/pq.rs:345-364 | The loop returns the element ending at the count op and its first chunk, or fails when a chunk rule is broken. |
| PqPushes.ParsePqSigOps | core/src/pq.rs:368-372 | The parser computes signature and key from the two elements that fill the op list. |
| PqPushes.IsPqScriptSig | core/src/pq.rs:377-387 | True if and only if the script reads as a bare spend or a spend followed by one selector. |
| PqPushes.ParseSigPushes | core/src/pq.rs:366-372 | Parsing the pushed bytes returns the same signature and key for all elements of 1 to 8,320 bytes. |
| PqPushes.SigPushesLayout | core/src/pq.rs:284-312 | The script pushes the signature's 520-byte chunks and their count, then the key's. |
| PqPushes.ParsedIsCanonical | core/src/pq.rs:342-372 | An op list that parses is, op for op, what re-encoding its signature and key pushes. |
| PqPushes.SelectorIsUnambiguous | core/src/pq.rs:374-387 | No op list is both a bare spend and a spend followed by a selector. |
| PqPushes.BuiltIsSpend | core/src/pq.rs:374-387 | A built spend is recognised bare and with any one selector behind it. |
| PqPushes.SpendIsBuilt | core/src/pq.rs:374-387 | Whatever is recognised is a signature and key in their forced chunks with at most one selector behind them. |
| PqPushes.SizeIsExact | core/src/pq.rs:325-339 | The closed-form size equals the built size for every pair of lengths that fit. |
| PqPushes.SchemeSizeIsExact | core/src/pq.rs:319-340 | The size quoted per scheme is the size of the script: 7,938 and 1,577 bytes. |
| Hkdf.Expand | core/src/pq.rs:428-444 | The in-place loop fills the buffer with the output keying material of section 2.3 of RFC 5869. |
| Hkdf.OkmStarts | core/src/pq.rs:428-444 | The first 64 bytes, spelled out. |
| Coins.YecBalances | core/src/coins.rs:388-399 | The two sums of the YEC and of the reserved rows. |
| Coins.SelectYec | core/src/coins.rs:337-367 | The loop returns the shortest prefix of the pool order that covers the need, or the shortfall. |
| Coins.SelectionFailsIff | core/src/coins.rs:337-367 | For non-negative values selection fails if and only if the need exceeds what the balances report, with that amount in the error. |
| Coins.SelectionIsTight | core/src/coins.rs:354-362 | A selection covers the need and its last row cannot be spared. |
| Coins.SelectionUsable | core/src/coins.rs:341-344 | A selection holds only rows of the table of class YEC, or of the reserve when allowed. |
| Coins.SelectionReserveFirst | core/src/coins.rs:345-353 | A YEC row is selected only once the whole reserve is in. |
| Coins.SelectionSmallest | core/src/coins.rs:345-353 | No selected row is worth more than an unselected one of its class. |
| Coins.PoolOrderValues | core/src/coins.rs:345-353 | The pool runs reserve first, then smallest value first within a class. |
| Coins.PoolOrderIs | core/src/coins.rs:345-353 | The pool lists each usable row once, reserve first, then by value, txid and output number. |
| Coins.SelectionOrdered | core/src/coins.rs:337-362 | A selection is in that order, and empty when nothing is needed. |
| FeeReserves.ApplyFeeReserve | core/src/coins.rs:311-330 | The in-place update of the table is the reserve function of the old table. |
| FeeReserves.ReservedRows | core/src/coins.rs:311-330 | Rows change only their class, and only between YEC and reserve. |
| FeeReserves.ReservedIsIdempotent | core/src/coins.rs:301-330 | Re-evaluating the reserve changes nothing the second time. |
| FeeReserves.ReservedConserves | core/src/coins.rs:311-330 | Available plus reserved is unchanged. |
| FeeReserves.ReservedIsBounded | core/src/coins.rs:322-329 | The reserve stays below twice its target. |
| FeeReserves.ReservedIsNeeded | core/src/coins.rs:322-329 | A nonempty reserve has a row without which it would fall short. |
| FeeReserves.ReservedAreSmallest | core/src/coins.rs:318-329 | No reserved row is worth more than a row left as YEC, nor more than the target. |
| FeeReserves.ShortOnlyWithoutSmall | core/src/coins.rs:306-310 | The reserve is short only if every row left as YEC exceeds it. |
| Pipeline.NoTokenSelected | core/src/coins.rs:178-203 | In every run of reserve re-evaluations from a table whose YEC rows are classified, no selected row is a listed token or of exactly the token value. |
| Pipeline.SelectionPassesGate | core/src/gate.rs:211-261 | Every nonempty selection, spent transparently without OP_RETURN, passes the YEC path. |
| Pipeline.YedIsNeverSpentAsYec | core/src/gate.rs:10-12 | The pipeline end to end: at every table of such a run the spend passes the gate and touches no listed token. |
| Gate.ScanInputs | core/src/gate.rs:209-243 | The input loop reports the first offending input, and otherwise counts tokens and lists carriers. |
| Gate.Check | core/src/gate.rs:192-327 | The local layer returns the first rule broken, for all twelve paths. |
| Gate.AcceptedIffLawful | core/src/gate.rs:168-382 | On all twelve paths a transaction is accepted exactly when it meets the path's rules, stated without their order; redeem's carrier rule follows from the classes it may spend. |
| GatePaths.YecPathIff | core/src/gate.rs:168-261 | The YEC path accepts exactly the transparent transactions without OP_RETURN over known YEC and reserve rows. |
| GatePaths.TransferPathIff | core/src/gate.rs:169-284 | The transfer path accepts exactly the transparent TRANSFERs over token, YEC and reserve rows with at least one token. |
| GatePaths.CarrierPathIff | core/src/gate.rs:168-275 | The carrier path accepts exactly YEC and reserve rows, no OP_RETURN, and a P2SH output of 10,000 zat first. |
| GatePaths.MintPathIff | core/src/gate.rs:170-291 | The mint path accepts exactly a MINT over YEC and reserve rows with one carrier, last. |
| GatePaths.RedeemPathIff | core/src/gate.rs:172-303 | The redeem path accepts exactly a REDEEM of one vault, first, and tokens. |
| GatePaths.ReleasePathIff | core/src/gate.rs:173-316 | The release path accepts exactly one vault and no OP_RETURN. |
| GatePaths.ClaimPathIff | core/src/gate.rs:174-307 | The claim path accepts exactly a REDEEM of the named vault, then token, YEC and reserve rows, and one carrier, last. |
| GatePaths.SweepPathIff | core/src/gate.rs:175-317 | The sweep path accepts exactly carriers and no OP_RETURN. |
| GatePaths.IntentReleasePathIff | core/src/gate.rs:176-317 | The intent release accepts exactly the named intent, then YEC and reserve rows, and no OP_RETURN. |
| GatePaths.PqSweepPathIff | core/src/gate.rs:177-323 | The post-quantum move accepts exactly the named coin alone and no OP_RETURN. |
| GatePaths.ShieldPathIff | core/src/gate.rs:179-353 | The shield path accepts exactly YEC rows into Sapling outputs, without a note, a JoinSplit, an OP_RETURN or an output of the token value. |
| GatePaths.ShieldedPathIff | core/src/gate.rs:356-382 | The shielded path accepts exactly note spends without a transparent input, a JoinSplit, an OP_RETURN or an output of the token value. |
| GatePaths.FirstBadInput | core/src/gate.rs:211-243 | A refusal over an input is about the first one that breaks a rule, and says which rule. |
| GatePaths.RefusalOrder | core/src/gate.rs:192-327 | The shielded part is judged first, then the inputs, then the shape. |
| Gate.AcceptedInput | core/src/gate.rs:168-243 | Every accepted input is the one named by the path or a known row of a class the path may spend; a vault is only vin[0]. |
| Gate.AcceptedCarrier | core/src/gate.rs:254-307 | An accepted mint or claim spends exactly one carrier, last. |
| Gate.AcceptedToken | core/src/gate.rs:276-307 | A token input implies one OP_RETURN with a TRANSFER or REDEEM whose assigned outputs exist and exclude it, on a path the node must validate. |
| Gate.ConfirmBurning | core/src/gate.rs:384-469 | A transaction is let out if and only if the local layer accepts it and the node's dry run is valid, ok, not to be rejected and burns what was planned, or no node was asked and only YEC leaves. |
| Fees.ProtocolFeeUnits | core/src/params.rs:515-535 | The band loop equals the cent-by-cent charge, at least the floor, saturated at 64 bits, for every 64-bit debt. |
| Fees.FeeUnitsAre | core/src/params.rs:497-535 | The fee at every debt, from the one-dollar minimum to saturation. |
| Fees.FeeIsMonotone | core/src/params.rs:513-535 | The fee never falls with the debt. |
| Fees.FeeIsSubadditive | core/src/params.rs:513-535 | Splitting a mint never lowers the fee. |
| Fees.FeeCentsOverflow | core/src/params.rs:537-540 | The rounding addition leaves 64 bits exactly from a debt of 922,337,203,680,976,581 cents. |
| Fees.FeeCentsIsLeast | core/src/params.rs:537-540 | The fee in cents is the least number of cents worth the fee. |
| Fees.FeeCentsSplit | core/src/params.rs:537-540 | Below that the fee in cents is monotone and not lowered by splitting. |
| Fees.FeeZatLaws | core/src/params.rs:542-550 | The fee in zat is monotone, not lowered by splitting and never rises with the price. |
| Fees.FeeZatIsLeast | core/src/params.rs:542-550 | The fee in zat is the least amount worth the fee at the mint price, or the largest 64-bit integer when none is. |
| Fees.RequiredIsLeast | core/src/params.rs:668-679 | The required collateral is the least amount that meets the ratio, refused only above 64 bits, for every ratio whose product fits 128 bits. |
| Fees.RequiredCoversIff | core/src/params.rs:671-679 | What is required meets the ratio if and only if the product fits 128 bits. |
| Fees.RequiredWrapExample | core/src/params.rs:671-679 | A product that wraps can ask for no collateral at all. |
| Fees.NoWrap | core/src/params.rs:671-679 | The product fits 128 bits for every 64-bit amount and every ratio up to 50,000 basis points, those of the term classes. |
| Fees.RequiredKeepsAfloat | core/src/params.rs:575-580 | A vault with it passes the 125 % test at every price down to 12,500 / ratio of the mint price. |
| Fees.ResidualIs | core/src/params.rs:641-666 | The residual is everything above the claimant's cap, or nothing below the minimum. |
| Fees.ClaimantMaxIsLeast | core/src/params.rs:641-657 | The claimant's cap is the least amount worth the debt, with a quarter on top under clause (a). |
| Fees.ResidualIsFair | core/src/params.rs:634-666 | It lies within the collateral, leaves the claimant less than cap plus minimum, and is zero for a vault underwater under clause (a). |
| Fees.ResidualRisesWithPrice | core/src/params.rs:641-666 | It never shrinks when the price rises. |
| AttestPayee.LittleMod | core/src/bundle.rs:240-245 | The byte fold equals the little-endian integer modulo n without leaving 64 bits. |
| AttestPayee.LittleBytes | core/src/bundle.rs:240-245 | The digest counts from its first byte up. |
| AttestPayee.DefaultAttestPayee | core/src/bundle.rs:228-247 | The method computes the payee function. |
| AttestPayee.CanonicalFacts | core/src/bundle.rs:229-234 | Sorting and deduplicating keeps exactly the listed seqs, ascending, each once. |
| AttestPayee.CanonicalCount | core/src/bundle.rs:240-241 | The modulus is the number of distinct seqs. |
| AttestPayee.PayeeIsMember | core/src/bundle.rs:222-247 | Someone is paid if and only if the list is not empty, and the payee is listed. |
| AttestPayee.PayeeIsRanked | core/src/bundle.rs:228-247 | As many listed seqs are smaller than the payee as the digest leaves modulo the number of distinct seqs. |
| AttestPayee.PayeeIgnoresOrder | core/src/bundle.rs:222-247 | The choice depends only on the set of seqs. |
| Previews.Wallet.UnlockWallet | core/src/api.rs:1646-1680 | Opening starts with an empty table and never resets the id counter. |
| Previews.Wallet.LockWallet | core/src/api.rs:1682-1688 | Locking drops every preview. |
| Previews.Wallet.ChangeServer | core/src/api.rs:1696-1706 | A change of server clears the table; an address that does not parse changes nothing. |
| Previews.Wallet.StorePreview | core/src/api.rs:2026-2118 | A preview is stored under its txid, or under a fresh number for a private send. |
| Previews.Wallet.ConfirmPreview | core/src/api.rs:2177-2223 | A confirm removes the preview and broadcasts it, or reports why not. |
| Previews.AttemptsNeverExceedStores | core/src/api.rs:2177-2223 | In every run broadcasts under an id never exceed previews stored under it. |
| Previews.BroadcastIsLatest | core/src/api.rs:2391-2413 | Every broadcast is of the latest preview under its id, of the confirm's kind, not broadcast before, stored since the last change of server or lock. |
| Previews.ConfirmAnswers | core/src/api.rs:2177-2223 | In every run a confirm broadcasts a preview if and only if it stands under its id, is of its kind, can be proved and the server is reached; otherwise it says why not. |
| Previews.ExpiredIff | core/src/api.rs:2180-2186 | A confirm finds its preview expired if and only if none of its kind stands under its id. |
| Previews.WaitsIff | core/src/api.rs:2177-2223 | A preview waits if and only if some call stored it and none since stored, took or reset it. |
| Previews.OpenIff | core/src/api.rs:1646-1688 | The wallet is open if and only if it was unlocked and not locked since. |
| Previews.PreviewStores | core/src/api.rs:2026-2118 | What a preview call stores, and under which id. |
| Previews.TxidHexAt | core/src/tx.rs:88-92 | A txid is shown from its last byte on, in hex. |
| Previews.DecimalSpells | core/src/api.rs:2092-2109 | A private number is written in decimal. |
| Previews.PrivateIdRecursIff | core/src/api.rs:2090-2109 | A private send shares its id with another preview of the run if and only if that one is a private send a multiple of 2^64 private sends away. |
| Previews.StoresCount | core/src/api.rs:1214-1215 | How often a private id is stored in a run: once for every 2^64 private sends. |
| Previews.PrivateSendOnce | core/src/api.rs:2177-2223 | In a run of at most 2^64 private sends each is broadcast at most once; in a longer one at most once for every 2^64. |

## Left out

- Cryptography: SHA-256 and HMAC are arbitrary functions; signatures, key derivation and addresses are not modelled.
- Transaction parsing and serialization (`core/src/tx.rs`): the gate and the payload search work on parsed transactions.
- The network half of the gate: the node's dry run is an arbitrary answer, and detecting the service is not modelled.
- The transaction builders, the store, sync and shielded code: only the interfaces the modelled files use.
- `pre_lock_scripts`, the post-quantum classifiers and the YED balances in `core/src/coins.rs`: they would add easy members only.
- The early-redeem and attestor fees, `near_threshold` and the branch-id choice in `core/src/params.rs`: single expressions of the same shape as the ones modelled.
- Grouping findings by file, file access and the commit in `contrib/semgrep/triage.py`: one file's bytes and edits are modelled.
- Error texts: gate errors carry outpoints, classes and paths instead of formatted strings, and a truncated push does not carry its offset.
- ApplyFixes.SimultaneousIff: the half that an overrun differs is for ranges that end no earlier than they start; with backward ranges a later edit can undo an overrun. Offsets are not negative.
- WalkTheorems.RunFirstDescent: needs a budget above the number of coins taken, which 200,000 calls give for every cap below that; the wallet's cap is 250.
- Fees.FeeCentsOverflow: an overflowing addition is an absent result; the source panics or wraps depending on the build.
- Fees.RequiredCoversIff: a product past 128 bits wraps; the source panics or wraps depending on the build.
