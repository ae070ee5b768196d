# Verified model of the gotron-mcp signing server

The server lets an agent sign and broadcast TRON transactions under per-wallet
spending policies. This project models the parts of it on which money depends
and proves what they keep. `dafny verify dfyconfig.toml` checks everything.

## What is modelled

**Spend reservation and signing** (`Policy`, `Store`, `Engine`, `Promotion`,
`Signing`, `Accounts`, `Cap`, `CapExact`, `Runs`, `Clearance`, `Handlers`,
`Refinement`, `EndToEnd`). The policy engine, its persistent counters and the
three signing handlers. `Engine` and `Store` hold the code as classes. `Signing`
is a transition system: any number of sessions of `sign_and_broadcast`,
`sign_and_confirm` and `request_limit_override` interleave, one atomic step at a
time, while the clock moves to any day. `Handlers` is the sequential code of the
handlers with arbitrary steps of everyone else between its own. `Refinement`
puts the byte bucket and the engine's `Check` under the protocol's ledger.
`EndToEnd` runs the protocol beside the approval rendezvous. Main results:

* every counter is, in every reachable state, the sum of what unfinished
  sessions hold, what was broadcast, what overrides recorded and what failed
  rollback writes left (`Accounts.Conservation`);
* once all sessions have ended nothing uncommitted is left, if and only if no
  refused rollback write owed anything (`Cap.CleanIff`);
* ordinary spend held or broadcast on one day stays within the daily limit,
  whatever overrides add to the same counter, as long as amounts are not negative
  and no addition to a counter exceeds an `int64` (`Cap.DailyCap`); over runs of
  ordinary sessions the second condition is exact (`CapExact.CapIff`), and a run
  of two sessions breaks the cap without it (`Runs.WrappingSumBreaksCap`);
* a check and its rollback leave no trace, whatever was written in between and
  on whatever later day (`Engine.PolicyEngine.CheckThenRelease`);
* every broadcast follows a complete way of clearing it, within whitelist, unit
  limit and, at the prices quoted to its check, USD limit, with a human's approval
  above either threshold; and a rebuilt transaction still has the checked intent
  (`Clearance.NoBroadcastWithoutClearance`);
* whatever was sent after a human had to be asked was approved by exactly one
  press of that request's button, in the configured chat, by an authorized user
  (`EndToEnd.BroadcastWasPressed`);
* every session ends after at most 32 of its own steps
  (`Clearance.SessionsAreBounded`);
* the promotion of the legacy TRX limits preserves `Check` exactly when the
  legacy approval threshold is idle (`Promotion.PromotionPreservesIff`), or, for
  a policy with a TRX entry, when it fills in no limit that matters
  (`Promotion.FillingPreservesIff`).

**Amounts as text** (`Digits`, `Amounts`, `AmountLaws`, `Display`). Two parsers
and four printers over strings and unbounded integers: the parsers agree, the
printers agree, and all round trips are stated for every input, signs included.

**Wallet names** (`Wallets`, `WalletManager`). Names and addresses over the ECDSA
and post-quantum families, with entries that exist and cannot be read. The
wallet whose policy is checked is the wallet that signs.

**Intents** (`Intents`, `Bytes`). From decoded fields and ABI calldata to the
intent that the policy sees, following the Solidity Contract ABI Specification,
section "Argument Encoding".

**Prices** (`Prices`), **approval** (`Approval`, `Approver`), **nodes and
retries** (`Nodes`) and **transfer cost** (`Cost`): eviction and bounded
staleness of the price cache, exactly-once hand-over of a Telegram decision,
alternation of failover and recovery with the retry bound, and the overflow
guards of the cost arithmetic.

`Int64`, `Sorting` and `Wrappers` are shared helpers. Steps of other goroutines
inside a method appear as an argument (`meanwhile`, `sending`, ...) or as a call
to a method `Others`; answers of the outside world appear as arguments.

## Where the code differs from its documentation

* `promoteLegacyTRXLimits` is meant to be backwards compatible, but a promoted
  policy loses `approval_required_above_trx`: the engine ignores the legacy
  threshold once `token_limits` has a TRX entry, and promotion does not copy it.
* `float64(math.MaxInt64)` is 2^63, so the guard before the daily limit lets the
  amount 2^63 through, which the conversion to `int64` cannot represent.
* The guard before the daily limit bounds the single amount only, and
  `CheckAndReserve` compares an unguarded `int64` sum. With a token of eighteen
  decimals and a daily limit of one unit, 9 units are admitted after 0.5: the sum
  wraps below zero (`Runs.WrappingSumBreaksCap`). The amount 2^63 alone passes any
  limit, because it is counted as the smallest `int64`. The cap is therefore
  stated for runs in which no sum wraps (`Cap.Fits`).
* A negative amount is reserved like any other and makes room beyond the limit
  until it is rolled back (`Runs.NegativeAmountBreaksCap`); the node rejects such
  a transfer only after the reservation.
* A rollback write that fails is ignored: its amount stays on the counter
  (`Runs.RefusedRollbackLeaks`).
* After an approval or override only plain TRX transfers can be sent; approval
  of any other transaction always fails at the rebuild.
* "-0.5" is read as plus half a TRX and "0.-5" as a negative amount: the sign of
  the whole part is examined only on its value, and the sign of the fraction
  not at all.
* `IntentFromContractData` promises an error when the intent cannot be
  extracted. A malformed `amount` is refused only when `frozen_balance` and
  `balance` are present and malformed too; otherwise it can count as zero. The
  alternative fields are not consulted when `amount` is missing.
* TRX sent along with a token transfer or approval is not seen by any TRX limit:
  the call value is read only for other calls.
* The two display formatters are right for negative amounts only in part, and
  differ from each other there.
* `ListWallets` does not flag a name whose twin cannot be read, although such a
  name is ambiguous.
* A pressed approval can be answered "approved" to the user while the waiting
  request leaves by its timeout.
* `CheckHealth` is said to return to a recovered primary, but on a fallback that
  is itself unhealthy it stays there.

## Model

| member | source | states |
|---|---|---|
| Accounts.Conservation | internal/tools/sign.go:221-323 | every counter equals held plus broadcast plus override plus leaked amounts (modulo 2^64), in every reachable state |
| Accounts.ReachableConserved | internal/tools/sign.go:400-503 | session well-formedness and conservation are invariants of all runs |
| Accounts.AdvanceBalances | internal/tools/sign.go:219-315 | one step of one session: its stake stays, is taken up with the write that counts it, or is dropped with the write that takes it back |
| Accounts.ReserveBalances | internal/policy/engine.go:381-436 | a reservation is written exactly when the session becomes liable for it |
| Accounts.ReleaseBalances | internal/policy/engine.go:440-468 | a rollback takes back exactly the session's stake, or leaves it marked as leaked when the write fails |
| Accounts.RecordBalances | internal/policy/engine.go:484-515 | an override's record is exactly its stake on the day of recording |
| Accounts.RebuildKeepsIntent | internal/tools/sign.go:601-622 | a rebuilt transaction has the same intent and the original permission id |
| Accounts.CountersAreCongruent | internal/policy/store.go:96-99 | a counter and the exact sum of the amounts on it differ by a multiple of 2^64 |
| Cap.DailyCap | internal/policy/store.go:103-129 | over all runs with non-negative amounts and no sum beyond `int64`, overrides included: held plus broadcast ordinary spend of a day is within the daily limit, and the counter is exact |
| CapExact.CapIff | internal/policy/store.go:106-129 | over runs of ordinary sessions with non-negative amounts: the true ordinary spend is within every limit after every step, if and only if no counter plus amount exceeds an `int64` at an addition |
| CapExact.AdmissionKeepsCapIff | internal/policy/engine.go:370-401 | at a counter without override spend an admitted reservation, counted at its true amount, keeps the ordinary spend within the limit if and only if counter plus amount fits an `int64` |
| CapExact.TrueTotalIsCounted | internal/policy/engine.go:390-391 | while no amount was changed by its conversion, counted and true ordinary spend are the same |
| CapExact.WrappingStepBreaksCap | internal/policy/store.go:117-123 | from any state of a run that kept the cap, the first addition that does not fit breaks it |
| Runs.WrappingSumBreaksCap | internal/policy/engine.go:370-391 | two ordinary sessions, a limit of one unit of eighteen decimals: any second amount that wraps the counter is admitted, and both are broadcast |
| Runs.NegativeAmountBreaksCap | internal/policy/store.go:106-129 | two ordinary sessions, a limit of one TRX: a negative reservation lets the second exceed the limit, is rolled back, and the finished counter is over the limit |
| Cap.ReachableWithin | internal/policy/engine.go:381-424 | the invariant behind the cap, for every prefix of such a run |
| Cap.AdmittedUnderLimitIff | internal/policy/store.go:106-129 | an admitted reservation, at its true amount, leaves its counter under the limit of its slot if and only if the exact sum fits an `int64` |
| Cap.OrdinaryGrowth | internal/tools/sign.go:400-503 | only an admitted reservation adds to the ordinary spend of a slot |
| Cap.WriteIsTrue | internal/policy/engine.go:370-401 | what is newly counted is the transaction's true amount if and only if an `int64` can hold it |
| Cap.NothingUncommittedIff | internal/tools/sign.go:221-323 | when all sessions ended, a counter holds broadcast and override spend only, if and only if what leaked onto it is zero (modulo 2^64) |
| Cap.CleanIff | internal/policy/engine.go:440-468 | in runs as for the cap: if and only if no refused rollback owed anything to the counter |
| Cap.NothingUncommittedRemains | internal/tools/sign.go:221-323 | so it does when the store refused no rollback write |
| Runs.RefusedRollbackLeaks | internal/policy/engine.go:456-467 | a run of one session whose rollback is refused and whose amount stays for good |
| Cap.LostIff | internal/policy/engine.go:456-467 | a session ends as leaked exactly when it owed an amount and its rollback write was refused |
| Cap.MoveKeepsIntent | internal/tools/sign.go:248-263 | no step changes a session's wallet, kind, submitted transaction or intent |
| Clearance.NoBroadcastWithoutClearance | internal/tools/sign.go:188-315 | a broadcast is the last event of its session and follows preflight, one of four ways of clearing, and the signature; the whitelist and, outside overrides, unit limit and USD limit at the quoted price hold, and above the unit threshold or the USD threshold at its quoted price a human approved; the sent transaction matches the checked one |
| Clearance.ReachableTraced | internal/tools/sign.go:839-893 | in every run the phase of each session tells what it has been through |
| Clearance.ScreeningAdmits | internal/policy/engine.go:276-368 | passing the stateless checks means whitelist, unit limit and USD limit admit the transfer, and passing without approval that it is below both thresholds |
| Clearance.SessionsProgress | internal/tools/sign.go:353-551 | a session can be moved on by some answer exactly when it has not ended |
| Clearance.MovesLowerRank | internal/tools/sign.go:512-549 | every step brings a session closer to its end |
| Clearance.SessionsAreBounded | internal/tools/sign.go:353-551 | no session takes more than 32 steps in any run |
| EndToEnd.BroadcastWasPressed | internal/tools/sign.go:233-263 | in every joint run of sessions and approval requests: what was broadcast after its check asked for a human, or by an override, was approved by one press, and no other, of that request's approve button, in the configured chat, by an authorized user |
| EndToEnd.GrantedWasPressed | internal/approval/telegram.go:361-416 | so was every approval that a session received |
| EndToEnd.PressesAreDistinct | internal/approval/telegram.go:385-390 | no press clears two sessions |
| EndToEnd.ReachableTied | internal/approval/telegram.go:86-121 | no request answers two sessions, and a session's approval is the returned decision of its own request |
| EndToEnd.Projections | internal/tools/sign.go:233-263 | each half of a joint run is a run of its own, so that the results about either hold of both together |
| Handlers.Server.SignAndBroadcast | internal/tools/sign.go:172-350 | the sequential handler, among others' steps: success means committed spend, an early return leaves nothing or a leak |
| Handlers.Server.SignAndConfirm | internal/tools/sign.go:353-551 | the same for the confirming handler; the polling loop never undoes the commitment |
| Handlers.Server.RequestLimitOverride | internal/tools/sign.go:800-918 | the override handler always ends, and reports success exactly when the broadcast was accepted |
| Handlers.Server.Submit | internal/tools/sign.go:218-323 | the `reserved` flag with its deferred rollback: afterwards the session is sent, dropped, released or leaked |
| Handlers.Server.Check | internal/tools/sign.go:218-230 | the noted verdict tells whether a reservation is held and where the session stands |
| Handlers.Server.PassPolicy | internal/tools/sign.go:218-276 | the flag computed from the verdict is exactly whether a rollback is due |
| Refinement.BucketRefinesLedger | internal/policy/store.go:67-129 | in every run over proper wallet names the bytes in the bucket stand for the ledger |
| Refinement.CheckRefines | internal/policy/engine.go:266-436 | `Check` on the bucket gives the verdict and the write of the protocol's two steps on the ledger |
| Refinement.ReleaseRefines | internal/policy/engine.go:440-468 | the engine's rollback on the bucket is the protocol's rollback step on the ledger |
| Refinement.RecordRefines | internal/policy/engine.go:482-515 | the engine's override record on the bucket is the protocol's recording step on the ledger |
| Refinement.EngineReleases | internal/policy/engine.go:440-468 | `ReleaseReserve` does just that to the bucket |
| Refinement.EngineRecords | internal/policy/engine.go:482-515 | `RecordOverrideSpend` does just that to the bucket |
| Refinement.SameIntent | internal/tools/sign.go:200-222 | the protocol sees the intent that is extracted from the transaction's fields |
| Refinement.PersistedSimulates | internal/policy/store.go:85-101 | one write on bytes simulates one write on the ledger |
| Store.KeyInjective | internal/policy/store.go:66-69 | keys of two counters are equal exactly when wallet, token and day are, for wallet names without a slash |
| Store.SlashMergesCounters | internal/policy/engine.go:390 | with a slash in the wallet name two different counters share a key |
| Store.CreditSimulates | internal/policy/store.go:85-129 | crediting the bytes under a key credits one triple and no other |
| Store.AdmissionIsExact | internal/policy/store.go:117 | an admitted total obeys the limit if and only if the sum did not wrap |
| Store.AdmissionCanWrap | internal/policy/store.go:117-123 | a full counter admits two transfers of ten against a limit of ten |
| Store.SpendStore.GetDailySpend | internal/policy/store.go:71-83 | returns the counter that the stored bytes stand for; anything but eight bytes is zero |
| Store.SpendStore.AddDailySpend | internal/policy/store.go:85-101 | credits the counter, or changes nothing when the update fails |
| Store.SpendStore.CheckAndReserve | internal/policy/store.go:103-129 | admits by the wrapped sum, credits exactly when admitted and committed |
| Bytes.CounterRoundTrip | internal/policy/store.go:96-99 | eight big-endian bytes return every `int64` |
| Bytes.CounterBytesRoundTrip | internal/policy/store.go:92-94 | every eight bytes are the encoding of the value they are read as |
| Bytes.ValueOfBigEndian | internal/policy/intent.go:133 | the byte fold inverts the fixed-width encoding |
| Bytes.BigEndianOfValue | internal/policy/intent.go:133 | the fixed-width encoding inverts the byte fold |
| Int64.GuardedConversion | internal/policy/engine.go:370-379 | of the amounts the guard lets through, the conversion to `int64` keeps exactly those within the largest `int64` |
| Engine.PolicyEngine.CheckThenRelease | internal/policy/engine.go:266-468 | a check on one day, any writes by others, and the release on any later day leave every counter of the bucket as the others alone would; a denied or failed check has written nothing |
| Engine.PolicyEngine.CheckAndClaim | internal/policy/engine.go:266-436 | what a check has written when it returns is what the release finds: same slot, stamped day, same amount |
| Engine.BytesRollBack | internal/policy/store.go:85-129 | on bytes: a credit, any credits by others, and the negated credit equal the others' credits |
| Engine.RollbackIsExact | internal/policy/engine.go:457-467 | the same on counters: a wrapped credit and its negation cancel through any other credits |
| Engine.ReservationShows | internal/policy/engine.go:381-424 | a reservation shows through later writes on its own counter and nowhere else |
| Engine.VerdictTellsReservation | internal/policy/engine.go:266-436 | a reservation is held exactly under an allowed or approval-required verdict with a daily limit, of the amount a rollback takes back |
| Engine.ReservationCountsAmount | internal/policy/engine.go:370-391 | a reservation counts the true amount if and only if it is within the largest `int64` |
| Engine.PolicyEngine.Check | internal/policy/engine.go:266-436 | verdict, stamped day and store effect of the whole check, with at most one reservation |
| Engine.PolicyEngine.ReserveDaily | internal/policy/engine.go:370-424 | the stateful checks stop with the right denial or reserve once |
| Engine.PolicyEngine.ReserveOn | internal/policy/engine.go:390-400 | one reservation: stops with the right verdict, or credits the counter once |
| Engine.PolicyEngine.ScreenIntent | internal/policy/engine.go:276-368 | the branching of the stateless checks computes the screening |
| Engine.PolicyEngine.OnWhitelist | internal/policy/engine.go:278-293 | the loop finds the destination exactly when it is listed |
| Engine.USDValueIff | internal/policy/engine.go:152-178 | an intent has a USD value exactly when there is a price and the token is TRX or configured; scaled back to on-chain units it is amount times price |
| Engine.PolicyEngine.ReleaseReserve | internal/policy/engine.go:440-468 | subtracts the tracked amount on the stamped day and touches no other key |
| Engine.PolicyEngine.RecordOverrideSpend | internal/policy/engine.go:482-515 | adds the tracked amount to today's counter without consulting a limit |
| Promotion.PromotionPreservesIff | internal/policy/config.go:228-250 | promotion keeps verdict, store effect and rollback for every intent and store, if and only if no limit moves or the legacy approval threshold catches nothing |
| Promotion.UncaughtAgree | internal/policy/engine.go:295-332 | a transfer outside the legacy threshold is judged the same before and after promotion |
| Promotion.CaughtDisagrees | internal/policy/engine.go:314-332 | the smallest transfer the threshold catches needs approval before and is allowed after promotion |
| Promotion.FillingPreservesIff | internal/policy/config.go:240-249 | a policy that already has a TRX entry keeps its meaning if and only if promotion fills in no daily limit and no per-transaction limit that an `int64` can exceed |
| Promotion.PromotionCommutes | internal/policy/config.go:39-56 | promoting and resolving the TRX decimals can be done in either order |
| Policy.PromotionIdempotent | internal/policy/config.go:228-250 | a promoted policy is valid and promoting it again changes nothing |
| Policy.RekeyingDetermined | internal/policy/config.go:207-220 | re-keying has one outcome when no two entries meet under one address |
| Policy.WalletPolicy.NormalizeTokenLimitKeys | internal/policy/config.go:207-220 | every entry of the new table stems from an entry with that address, and none is lost |
| Policy.WalletPolicy.PromoteLegacyTRXLimits | internal/policy/config.go:228-250 | the update in place computes the promoted policy |
| AmountLaws.FormatParseRoundTrip | internal/util/amount.go:68-134 | printing then parsing returns every amount from zero up; a negative one is refused, or loses its sign when its whole part is zero |
| AmountLaws.SunRoundTrip | internal/util/amount.go:12-66 | the TRX round trip over all of `int64` |
| AmountLaws.ParseUnsigned | internal/util/amount.go:97-134 | an unsigned amount has its exact scaled value, and the two ways it is refused |
| AmountLaws.TRXToSunUnsigned | internal/util/amount.go:12-52 | an unsigned TRX amount has its exact value when it fits `int64` and overflows otherwise |
| AmountLaws.ParseSigned | internal/util/amount.go:108-115 | a leading minus is dropped before a whole part of zero and refused before any other |
| AmountLaws.ParsedNegativeIff | internal/util/amount.go:28-45 | a parser returns a negative amount exactly when a zero whole part is followed by a fraction with a minus sign |
| AmountLaws.NegativeAmount | internal/util/amount.go:34-45 | "0.-5" is read as minus 50000 SUN |
| AmountLaws.ParseFracUnsigned | internal/util/amount.go:120-131 | the outcome of every unsigned fraction |
| Amounts.ParsersAgree | internal/util/amount.go:12-134 | on every string the TRX parser is the token parser at six decimals, cut off at `int64` |
| Amounts.PrintersAgree | internal/util/amount.go:54-66 | on every `int64` the TRX printer is the token printer at six decimals, the special-cased minimum included |
| Amounts.SplitOneDot | internal/util/amount.go:18 | two dot-free texts are split where a dot joined them |
| Amounts.WholeAndFrac | internal/util/amount.go:85-87 | digit by digit division agrees with the division by the power of ten |
| Digits.ValueOfDecimal | internal/util/amount.go:89 | decimal notation denotes the number |
| Digits.DecimalSplits | internal/tools/sign.go:639-640 | cutting digits off the right divides by a power of ten |
| Digits.ParseIntString | internal/util/amount.go:108-111 | parsing a printed integer returns it |
| Display.FormatTokenAmount | internal/tools/sign.go:624-646 | pad, split and trim give the fixed-point form without trailing zeros and bare dot, if and only if the amount is not negative or has a whole part |
| Display.FormatBigIntWithDecimals | internal/tools/approval.go:172-189 | division, padding and trimming give the same form, if and only if the amount is not negative or a whole multiple |
| Display.ShortParses | internal/util/amount.go:97-134 | parsing the shortened form returns the amount |
| Display.PaddedSplits | internal/tools/sign.go:635-640 | the padded digits are the quotient's followed by the remainder's |
| Display.TrimValue | internal/tools/approval.go:184-187 | trimming zeros keeps the value and empties exactly the zero fraction |
| Wallets.PolicyKeyIsSigner | internal/wallet/manager.go:471-498 | a name resolved from any input is looked up to a wallet of that very name |
| Wallets.PolicyKeyNeedsTronAddresses | internal/wallet/manager.go:476-480 | with an address of another shape the two can differ |
| Wallets.SharedNeverResolves | internal/wallet/manager.go:268-292 | a name in both families is refused by lookup and resolution, nothing else leads to it, even with an unreadable entry |
| Wallets.SharedAddressRefused | internal/wallet/manager.go:242-264 | an address held, in either family, only under shared names is refused and resolves to itself |
| Wallets.LookupSound | internal/wallet/manager.go:229-266 | a lookup returns a usable, unshared wallet named or addressed by the input |
| Wallets.LookupByNameIff | internal/wallet/manager.go:268-292 | by name a lookup succeeds for exactly the usable wallets of unshared names |
| WalletManager.Manager.SignForWallet | internal/wallet/manager.go:371-432 | the key that signs is the one stored under the policy's wallet name at the preflight, whatever is created before the signature |
| WalletManager.SignerSurvivesCreations | internal/tools/sign.go:176-190 | the wallet looked up under a policy's name stays the same over any run of creations |
| WalletManager.Manager.SignTransaction | internal/wallet/manager.go:371-432 | signs exactly when lookup, unlocking or decryption, and signing succeed and the decrypted key matches |
| WalletManager.Manager.GetSigner | internal/wallet/manager.go:330-352 | gives an ECDSA signer of the wallet looked up, or of an address that no wallet has |
| WalletManager.Manager.CreateWalletWithKeyType | internal/wallet/manager.go:117-178 | creates exactly when name, key type, uniqueness and scheme allow it; the wallet is then found |
| WalletManager.CreationsKeepNamesUnique | internal/wallet/manager.go:121-159 | over any run of creations names stay unique and every wallet is found as before |
| WalletManager.CreatedKeeps | internal/wallet/manager.go:130-178 | one creation touches no other name |
| WalletManager.CreatedNamesAreProper | internal/wallet/manager.go:500-511 | a created wallet's name has no slash, so its counters share no key |
| WalletManager.Manager.ListWallets | internal/wallet/manager.go:180-227 | lists each usable wallet once, strictly sorted by name then key type, flagged exactly when its name is listed in both families |
| WalletManager.DuplicateIsAmbiguous | internal/wallet/manager.go:42-44 | a flagged entry is refused by lookup; any other listed entry is found as listed unless its name is shared |
| WalletManager.AmbiguousUnflagged | internal/wallet/manager.go:212-218 | an unflagged entry is ambiguous exactly when its twin cannot be listed |
| Intents.IntentFromContractData | internal/policy/intent.go:32-92 | filling the draft field by field computes the intent |
| Intents.Draft.ExtractAmount | internal/policy/intent.go:156-181 | fails exactly on a present and malformed field; a missing one leaves the amount alone |
| Intents.Draft.ExtractTRC20Intent | internal/policy/intent.go:94-121 | succeeds exactly on a decodable transfer or approval, and changes nothing otherwise |
| Intents.MalformedRefusedIff | internal/policy/intent.go:81-88 | a malformed amount is refused if and only if both alternative fields are present and malformed |
| Intents.MalformedCountsAsZero | internal/policy/intent.go:81-91 | an unreadable amount alone is an intent to move zero |
| Intents.AlternativesDecideIff | internal/policy/intent.go:158-162 | the frozen balance decides the amount exactly when the amount field is malformed |
| Intents.TransferIsSeen | internal/policy/intent.go:53-60 | encoded token calls are seen with their recipient, amount and contract |
| Intents.CallValueCountsIff | internal/policy/intent.go:54-71 | a contract call's intent carries the TRX sent along if and only if it is not a token call or sends none |
| Intents.IntentsAreCoherent | internal/policy/intent.go:65-91 | a TRX intent's token amount is its SUN amount |
| Intents.DecodeIff | internal/policy/intent.go:123-135 | decoding returns exactly what the two argument words hold |
| Intents.CalldataRoundTrip | internal/policy/intent.go:123-135 | decoding an encoded call returns address body and amount, whatever follows |
| Intents.TokenCallRoundTrip | internal/policy/intent.go:94-135 | the same through the hexadecimal data field and the selector |
| Intents.HexRoundTrip | internal/policy/intent.go:101 | hexadecimal text decodes to the bytes it encodes |
| Prices.Service.SetCache | internal/price/service.go:226-258 | size within the limit, survivors keep their prices and are no older than what was evicted, eviction no larger than needed, and when the new entry survives |
| Prices.Service.Evict | internal/price/service.go:230-256 | the two passes together keep the newest |
| Prices.Service.DropOldest | internal/price/service.go:239-256 | the second pass reaches the size limit and keeps the newest, for any order of equal ages |
| Prices.Service.DropStale | internal/price/service.go:231-238 | the first pass keeps exactly the entries within the stale age |
| Prices.OldestDropped | internal/price/service.go:249-255 | removing a prefix of the entries by age keeps the newest |
| Prices.NewestSurvives | internal/price/service.go:226-258 | a strictly newest entry is kept whenever anything is |
| Prices.Service.GetPriceByID | internal/price/service.go:77-115 | answers with the fetched price, or one stored for that key less than ten TTLs ago, or less than one when nothing was fetched |
| Prices.Service.GetPriceByContract | internal/price/service.go:117-154 | the same for contracts, with keys compared without case |
| Prices.Service.BatchGetPrices | internal/price/service.go:165-188 | returns and stores every fetched price, or only requested ones within the stale age |
| Prices.Service.BatchStale | internal/price/service.go:190-204 | collects exactly the requested prices within the stale age |
| Prices.Service.Serve | internal/price/service.go:77-204 | over a whole run of single and batch requests, with idle time, other callers, any fetch outcomes and evictions, no answer is older than its bound |
| Approval.ReachableInv | internal/approval/telegram.go:86-121 | in every interleaving a consumed press is on its way or handed over, never both, never lost |
| Approval.NothingIsDropped | internal/approval/telegram.go:406-409 | a send never finds its channel full |
| Approval.ApprovalWasPressed | internal/approval/telegram.go:361-416 | a received approval was pressed once, for that id, in the configured chat, by an authorized user |
| Approval.OncePerID | internal/approval/telegram.go:385-390 | with unique ids one press at most consumes an id, and none is pending after its call returned |
| Approval.SharedIDStaysPending | internal/approval/telegram.go:90-98 | without unique ids a returned call's id can be pending |
| Approval.ConsumedDecides | internal/approval/telegram.go:112-121 | a delivered press decides its call exactly when its slot is empty again; otherwise the decision still lies in the slot |
| Approval.ReturnedIsFinal | internal/approval/telegram.go:112-121 | a returned call keeps its outcome and what lies in its slot |
| Approval.ApprovedAfterTimeout | internal/approval/telegram.go:406-415 | a press can be consumed, delivered and answered while its call has returned by timeout |
| Approval.ParseCallbackIff | internal/approval/telegram.go:418-425 | callback data parses to an action and id exactly when it is their join at the first colon |
| Approval.ButtonsParse | internal/approval/telegram.go:236-241 | both buttons parse back to their action and id, whatever the id contains |
| Approver.TelegramApprover.RequestApproval | internal/approval/telegram.go:86-121 | among others' steps: what wakes the call decides its result, the id is not pending afterwards, an approval was pressed |
| Approver.TelegramApprover.HandleCallbackQuery | internal/approval/telegram.go:361-416 | every check in order; a press is consumed once and delivered, or changes nothing |
| Approver.TelegramApprover.IsAuthorized | internal/approval/telegram.go:458-465 | the loop finds exactly the configured users |
| Approver.TelegramApprover.Send | internal/approval/telegram.go:406-409 | the non-blocking send always succeeds |
| Nodes.SwitchesAlternate | internal/nodepool/pool.go:98-130 | successful switches alternate, a failover first; failovers outnumber recoveries by one exactly on the fallback |
| Nodes.Pool.Switch | internal/nodepool/pool.go:98-130 | each locked call switches exactly when it may |
| Nodes.Pool.CheckHealth | internal/nodepool/pool.go:132-150 | which switch a check attempts, among others' switches |
| Nodes.DoCtx | internal/retry/retry.go:26-59 | stops at the first deciding attempt, three at most, with that attempt's verdict |
| Nodes.DoWithFailover | internal/retry/retry.go:66-85 | six calls and one failover at most; a second round exactly after an exhausted first one and an own switch |
| Nodes.ExhaustedIff | internal/retry/retry.go:74-82 | a round returns a retryable error exactly when all its attempts failed that way |
| Nodes.ContextErrorIsFinal | internal/retry/retry.go:87-98 | the errors of a cancelled or expired context are not retryable |
| Cost.GetAccountCreationCost | internal/tools/cost.go:303-340 | returns a cost exactly when parameters are valid and neither the product nor the sum overflows |
| Cost.DivisionGuard | internal/tools/cost.go:331-334 | the guard by division refuses exactly the products that overflow |
| Cost.BuildCostResult | internal/tools/cost.go:152-263 | the breakdown line by line, and a total that is its sum |
| Cost.CreationTotal | internal/tools/cost.go:206-254 | with an account creation the total is the exact sum, within the two fees, and independent of free bandwidth |
| Cost.TransferCost | internal/tools/cost.go:130-146 | both together on any chain parameters |

## Left out

- Floating point: amounts, limits, thresholds and prices that the program keeps in `float64` are exact reals or integers here; an out-of-range conversion to `int64` is taken to give the smallest `int64`, as on amd64.
- Cap.DailyCap: assumes that amounts are not negative and that no addition to a counter exceeds an `int64`, because the program checks neither; `CapExact.CapIff` has the exact condition, `Runs` the failing inputs. With overrides on the same counter it goes one way only: a sum that wraps because of override spend need not exceed the limit on ordinary spend.
- Cap.ReachableWithin: the same assumptions, prefix by prefix.
- CapExact.CapIff: for limits other than exactly 2^63 on-chain units, which the guard admits and the conversion turns into the smallest `int64`; amounts are not negative.
- Cap.NothingUncommittedRemains: assumes that rollback writes commit; `Cap.CleanIff` has the exact condition.
- Engine.PolicyEngine.CheckThenRelease: the rollback write is accepted and the engine has a store; others' writes are fixed in advance, so that a check of theirs which the held amount denies is not re-decided.
- Engine.USDValueIff: for TRX intents whose token amount is the SUN amount, as every extracted intent is.
- Display.FormatBigIntWithDecimals: takes the zero flag of `Sprintf` on a string to pad with zeros.
- Wallets.PolicyKeyIsSigner: the key store is read as two maps with listing orders; of the changes made to it between resolution and signature only creations are modelled, not deletions or renames.
- WalletManager.Manager.CreateWalletWithKeyType: a new name is appended to its listing, and creation by other processes at the same time is not modelled.
- Approval.OncePerID: ids are assumed unique, as generated UUIDs are.
- Prices.Service.SetCache: the age of an entry counts from its storing, as in the program, not from the arrival of the response.
- Cost.GetAccountCreationCost: says nothing exact about a negative bandwidth, which no caller passes.
- Process crashes between reservation and rollback, panics, and the audit log.
- A failed or refused broadcast is taken as not sent, as the program takes it.
- The node is assumed to rebuild the requested sender, recipient and amount; address checks and the post-quantum owner check after a rebuild are its failure case.
- EndToEnd.BroadcastWasPressed: for servers with policies; without them a broadcast needs the caller's confirmation only.
- Policies do not change during a run; `daily_limit_usd` is read from the configuration but no check of the program uses it.
- Filling in token decimals from the chain, and the whitelist's address normalization.
- An entry with an empty body in `token_limits` is removed by the normalization, so the engine's policies hold none.
- Cryptography, key derivation, base58 and address normalization are uninterpreted functions or outcomes; the SDK's key store is not part of this model.
- Letter case is folded for ASCII only; text has one character per byte.
- Transport (gRPC, HTTP, Telegram, CoinGecko), JSON, protobuf, YAML and database internals: outcomes are arguments.
- Backoff delays, tickers and timeouts are choices, not durations; the price cache alone has a clock.
- Run conditions speak of finite runs; fairness of the scheduler is not modelled.
- Read-only tools, prompts, resources, authentication, rate limiting and pagination: no money moves through them.
