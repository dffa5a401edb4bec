# dtrade-subgraph store logic in Dafny

This project models the event-handler core of the dtrade subgraph, which indexes the DET token,
its synths, the exchange-rate oracle and the fee pool into queryable entities. The model has
five modules.

- `GraphValues` (graph_values.dfy) holds the values every handler shares:
  - optional fields and reverted reads;
  - bytes;
  - the decimal and hex renderings graph-ts uses to build entity ids (`toString()`, `toHexString()`, `txHash-logIndex`).
- `Common` (common.dfy) models `strToBytes` as a loop over a zeroed byte array, plus the `dUSD32` / `dUSD4` keys.
- `RatesMapping` (rates_mapping.dfy) models the oracle handler. Class `RateStore` owns:
  - the daily and quarter-hour DET price buckets, each an incremental mean;
  - the `LatestRate` table;
  - the `RateUpdate` and `RatesUpdated` records;
  - ghost maps of the rates folded into each bucket, so that each stored average can be related to the rates behind it.
- `ActiveStakers` (active_stakers.dfy) models `trackActiveStakers` as a transition `Step`, and proves properties of any sequence of calls.
- `DtradeMapping` (dtrade_mapping.dfy) models the DET and synth handlers. Class `Store` keeps one map per entity type. Its methods follow the handlers statement by statement.
- `PrepareAbis` (prepare_abis.dfy) models the ABI clean-up script. It covers:
  - the multidimensional-array test;
  - find-the-first-offender;
  - filter-by-name.

Contract reads are method parameters. An ordinary call is a plain value. A `try_` call is an
`Option`, and `None` means the call reverted. The graph-node store is a set of Dafny maps, and a
`save` replaces the whole record under its id.

### Behaviour worth knowing

- **Bucket averages.** A bucket average is the recurrence `(avg * (n - 1) + rate) / n`, truncated at every step. It is not the truncated mean of all the rates. Rates 1, 0, 2 leave the average at 0, while their sum over their count is 1 (`RatesMapping.MeanIsNotTruncatedSum`). What does hold is that the average stays between the smallest and largest rate observed.
- **Unknown selectors.** An `Issued` event whose call selector is unknown is still recorded. A `Burned` event with an unknown selector is dropped before any write.
- **Holder snapshot ids.** `trackDETHolder` saves a `DETHolder` snapshot under `timestamp-account` but looks it up under the plain account. As a result:
  - the zero/non-zero transition test sees "no previous holder" for every account without a `-` in it;
  - `mints` and `claims` are never counted on a saved snapshot.

  `DtradeMapping.Store.Valid` records that every snapshot id contains `-`. `DtradeMapping.PlainLookupMisses` states the consequences.

## Model

| member | source | states |
|---|---|---|
| GraphValues.NatToString | src/rates-mapping.ts:59 | the decimal id of a number: at least one digit, only digits, no leading zero |
| GraphValues.ParseNatToString | src/rates-mapping.ts:59 | the decimal rendering is injective: reading it back gives the number, so distinct log indexes give distinct event ids |
| GraphValues.EventId | src/rates-mapping.ts:59 | the `txHash-logIndex` id of every event record; its meaning is carried by `EventIdInjective` |
| GraphValues.EventIdInjective | src/rates-mapping.ts:59 | two events of one transaction get distinct ids whenever their log indexes differ |
| GraphValues.HexString | src/dtrade-mapping.ts:447-450 | `toHexString()` of bytes is `0x` followed by two characters per byte |
| GraphValues.HexDigitsAt | src/dtrade-mapping.ts:447-450 | byte `i` becomes characters `2i` and `2i + 1`: its high and then its low nibble as lower-case hex digits |
| GraphValues.HexStringAt | src/dtrade-mapping.ts:447-450 | after `0x`, each byte renders as its two lower-case hex digits, high nibble first |
| GraphValues.HexStringInjective | src/dtrade-mapping.ts:447-450 | the rendering loses nothing: equal hex strings come from equal bytes |
| Common.StrToBytes | src/common.ts:15-23 | the result has exactly `length` bytes; its first bytes are the string's UTF-8 bytes; every later byte is zero; the string must fit |
| Common.UntilZero | src/rates-mapping.ts:73 | the bytes before the first zero: a prefix, holding no zero, followed by a zero or the end |
| Common.UntilZeroOfPadded | src/common.ts:15-26 | padding loses nothing: for a string without zero bytes, reading up to the first zero gives the string back |
| Common.DollarKeyConstants | src/common.ts:25-26 | `dUSD4` is the four bytes of "dUSD"; `dUSD32` is those bytes followed by 28 zero bytes |
| RatesMapping.CalculateAveragePrice | src/rates-mapping.ts:19-24 | the new average lies between the old average and the new rate (either order); on the first observation it equals the rate |
| RatesMapping.Observe | src/rates-mapping.ts:41-49 | folding a rate into a bucket raises its count by one and moves the average toward the rate without passing it (either order); into an empty bucket the rate becomes the average |
| RatesMapping.MeanOf | src/rates-mapping.ts:5-17 | a bucket fed `n` rates from the empty bucket has count `n` |
| RatesMapping.LoadBucket | src/rates-mapping.ts:30-39 | the stored bucket, or the empty bucket from `loadDailyDETPrice` / `loadFifteenMinuteDETPrice` (lines 5-17) when none is stored; see `RateStore.HandleDETPrices` |
| RatesMapping.MeanWithinBounds | src/rates-mapping.ts:19-24 | the average of a bucket stays between the smallest and largest rate fed to it, so equal rates keep the average at that rate |
| RatesMapping.MeanOfSnoc | src/rates-mapping.ts:41-49 | the bucket after one more rate is the previous bucket with that rate observed |
| RatesMapping.MeanIsNotTruncatedSum | src/rates-mapping.ts:19-24 | rates 1, 0, 2 leave count 3 and average 0, while their sum over their count, truncated, is 1 |
| RatesMapping.MeanOfThree | src/rates-mapping.ts:41-49 | the bucket fed three rates is the empty bucket with each observed in order |
| RatesMapping.ObserveExample | src/rates-mapping.ts:19-24 | a bucket with count 2 and average 100 moves to count 3 and average 110 on rate 130 |
| RatesMapping.BucketAverageBounded | src/rates-mapping.ts:26-53 | in a store whose buckets track their observations, every stored average lies within the observed rates and every count is the number of observations |
| RatesMapping.ExtendTwice | src/rates-mapping.ts:72-86 | appending observations twice is appending their concatenation |
| RatesMapping.ObserveTracks | src/rates-mapping.ts:30-52 | writing the observed bucket back keeps every bucket equal to the mean of its observations |
| RatesMapping.UpsertLastWins | src/rates-mapping.ts:72-86 | after the writes, the entry of a non-empty key holds the value of the last index carrying that key |
| RatesMapping.UpsertUntouched | src/rates-mapping.ts:72-86 | an id written by no non-empty key keeps its prior entry or stays absent |
| RatesMapping.DetRatesFromDetKeys | src/rates-mapping.ts:81-83 | every rate fed to the buckets came from an index whose key is `DET` |
| RatesMapping.NoDetKeyNoRates | src/rates-mapping.ts:81-83 | an event without a `DET` key feeds no bucket |
| RatesMapping.RateStore.HandleDETPrices | src/rates-mapping.ts:26-53 | exactly buckets `ts/86400` and `ts/900` change, each one observation further from its stored or empty value; buckets keep tracking their observations |
| RatesMapping.RateStore.AddLatestRate | src/rates-mapping.ts:89-96 | the latest rate of the symbol becomes the new rate, others unchanged |
| RatesMapping.RateStore.AddDollar | src/rates-mapping.ts:98-106 | 10^18 is stored under the id only when it is absent; a present rate is never overwritten |
| RatesMapping.RateStore.RecordRate | src/rates-mapping.ts:73-85 | an empty key changes nothing; otherwise the `txHash-key` update and the latest rate are written, and only a `DET` key feeds the buckets |
| RatesMapping.RateStore.RecordRates | src/rates-mapping.ts:69-86 | after the loop, the latest rates and rate updates are the in-order writes of the non-empty keys, and the buckets have observed exactly the `DET` rates in order |
| RatesMapping.RateStore.HandleRatesUpdated | src/rates-mapping.ts:55-87 | `dUSD` and `nUSD` are seeded, then the event is recorded under `txHash-logIndex`, then the loop runs |
| RatesMapping.LatestRateIsLastOccurrence | src/rates-mapping.ts:84 | after the handler, a key carried by the event holds the rate at its last index, even `dUSD` after seeding |
| RatesMapping.LatestRateOfAbsentKey | src/rates-mapping.ts:89-96 | a symbol the event does not carry keeps its rate after seeding |
| ActiveStakers.Step | src/dtrade-mapping.ts:622-678 | a burn with zero debt removes a member; a mint adds a non-member; nothing else changes membership; the counter is saved only on a transition, moving with the set; the day snapshot is written only when absent, with the new count |
| ActiveStakers.ReplayKeepsCount | src/dtrade-mapping.ts:655-671 | over any call sequence, the counter minus the member count never changes, so a consistent store stays consistent |
| ActiveStakers.SnapshotWrittenOnce | src/dtrade-mapping.ts:674-677 | once a day has a snapshot, no later call changes it |
| ActiveStakers.ReachableIsConsistent | src/dtrade-mapping.ts:680-690 | from the empty store, `TotalActiveStaker.count` always equals the number of `ActiveStaker` entities |
| ActiveStakers.TotalCount | src/dtrade-mapping.ts:680-684 | the counter as the handler sees it: the stored count, or the fresh 0 of `loadTotalActiveStaker` when none is stored; see `Step` and `ReachableIsConsistent` |
| DtradeMapping.ShortInputIsNoBurn | src/dtrade-mapping.ts:524-534 | call data shorter than four bytes never matches a burn selector |
| DtradeMapping.Selector | src/dtrade-mapping.ts:524 | `input.subarray(0, 4).toHexString()`, `0x` and two characters per byte of at most four bytes; its meaning for the burn test is carried by `SelectorIsBurn` |
| DtradeMapping.BurnSynthsRendered | src/dtrade-mapping.ts:509 | call data starting 29 5d a8 7d renders to `0x295da87d` |
| DtradeMapping.BurnSynthsOnBehalfRendered | src/dtrade-mapping.ts:510 | call data starting c2 bf 38 80 renders to `0xc2bf3880` |
| DtradeMapping.BurnSynthsToTargetRendered | src/dtrade-mapping.ts:511 | call data starting 97 41 fb 22 renders to `0x9741fb22` |
| DtradeMapping.BurnSynthsToTargetOnBehalfRendered | src/dtrade-mapping.ts:512 | call data starting 2c 95 5f a7 renders to `0x2c955fa7` |
| DtradeMapping.RenderedAmong | src/dtrade-mapping.ts:524-527 | when each call renders to the selector at its position, a rendering is among the selectors exactly when its bytes are among the calls |
| DtradeMapping.SelectorIsBurn | src/dtrade-mapping.ts:507-534 | the call data is treated as a burn exactly when it has at least four bytes and they are those of `burnSynths`, `burnSynthsOnBehalf`, `burnSynthsToTarget` or `burnSynthsToTargetOnBehalf` |
| DtradeMapping.HolderKey | src/dtrade-mapping.ts:128 | a snapshot id always contains `-` and never equals the account |
| DtradeMapping.HolderCountChange | src/dtrade-mapping.ts:281-294 | +1 exactly when there is no prior snapshot (or it had balance 0) and the balance is positive; -1 exactly when a prior positive balance drops to 0; otherwise 0 |
| DtradeMapping.PlainLookupMisses | src/dtrade-mapping.ts:127-129 | with timestamp-qualified ids, a lookup by plain account finds nothing, mints and claims are never counted, and the counter change is +1 exactly when the balance is positive |
| DtradeMapping.Store.GetMetadata | src/dtrade-mapping.ts:65-76 | returns the stored singleton, or creates and saves one with both counters at zero |
| DtradeMapping.Store.IncrementMetadata | src/dtrade-mapping.ts:78-86 | the named counter goes up by one and the other stays; an unknown name changes no counter but the singleton exists afterwards |
| DtradeMapping.Store.DecrementMetadata | src/dtrade-mapping.ts:88-96 | the named counter goes down by one and the other stays; an unknown name changes no counter |
| DtradeMapping.Store.TrackIssuer | src/dtrade-mapping.ts:98-105 | the account joins the issuers; the counter goes up only if it was new, so a second call changes nothing; the counter equals the number of issuers |
| DtradeMapping.Store.TrackDETHolder | src/dtrade-mapping.ts:107-299 | escrow accounts and a reverted resolver write nothing; otherwise the snapshot is saved under `timestamp-account` with reverted fields unset, and the counter moves by the transition rule |
| DtradeMapping.Store.TrackDebtSnapshot | src/dtrade-mapping.ts:301-346 | escrow senders write nothing; otherwise one snapshot of the sender's balances is saved per event |
| DtradeMapping.Store.HandleTransferDET | src/dtrade-mapping.ts:348-362 | records a `DET` transfer, then tracks the sender and then the recipient as holders |
| DtradeMapping.Store.TrackSynthHolder | src/dtrade-mapping.ts:364-373 | the holding `account-source` is created or overwritten with the balance |
| DtradeMapping.Store.HandleTransferSynth | src/dtrade-mapping.ts:375-395 | records a `dUSD` transfer and the holdings of the sender and then the recipient |
| DtradeMapping.Store.HandleRewardVestEvent | src/dtrade-mapping.ts:426-434 | stores the beneficiary's escrowed balance and tracks the beneficiary as holder |
| DtradeMapping.Store.RecordIssued | src/dtrade-mapping.ts:461-478 | the `Issued` record is written under `txHash-logIndex`, with the currency key as source, or `dUSD` when that read reverted |
| DtradeMapping.Store.CountMint | src/dtrade-mapping.ts:490-498 | a snapshot found under the plain account gets one more mint (from 0 when unset), and no id is added; for an account without `-` nothing changes |
| DtradeMapping.Store.HandleIssuedSynths | src/dtrade-mapping.ts:436-502 | whatever the selector, records the issue, with source `dUSD` when the currency key read reverted; tracks issuer and holder; counts a mint on a snapshot found under the plain account (never, for an account without `-`); takes a debt snapshot |
| DtradeMapping.Store.HandleBurnedSynths | src/dtrade-mapping.ts:504-563 | an unknown selector changes nothing; a burn selector records the burn, tracks the holder and takes a debt snapshot |
| DtradeMapping.Store.HandleFeesClaimed | src/dtrade-mapping.ts:565-620 | records the claim and counts it on a snapshot found under the plain account (never, for an account without `-`) |
| DtradeMapping.Store.TrackActiveStakers | src/dtrade-mapping.ts:622-690 | the staker entities change exactly as `Step` says, and the counter keeps equal to the number of active stakers |
| PrepareAbis.DigitRun | prepare-abis.js:9 | the maximal run of digits starting at a position |
| PrepareAbis.BracketAt | prepare-abis.js:9 | a matched bracket pair ends after its start and within the text |
| PrepareAbis.BracketAtIsPair | prepare-abis.js:9 | the bracket matcher succeeds at `i` with `]` at `j` exactly when `[` digits* `]` spans `i..j` |
| PrepareAbis.ScanFromComplete | prepare-abis.js:9 | a match at `p` is found by a scan from any earlier position |
| PrepareAbis.ScanFromSound | prepare-abis.js:9 | a successful scan names a position at or after its start where the pattern matches |
| PrepareAbis.ScanFromFinds | prepare-abis.js:9 | the scan from `i` succeeds exactly when the pattern matches at some position from `i` on |
| PrepareAbis.MatchesAtIsPattern | prepare-abis.js:9 | the matcher succeeds at `p` exactly when two adjacent bracket pairs start at `p` |
| PrepareAbis.HasMultidimensionalArray | prepare-abis.js:9 | `doesEntryHaveMultidimensionalArrays`; see `HasMultidimensionalArrayIsPattern` |
| PrepareAbis.HasMultidimensionalArrayIsPattern | prepare-abis.js:9 | the test holds exactly when the type contains `[` digits* `]` `[` digits* `]` |
| PrepareAbis.FindParam | prepare-abis.js:31-32 | a found parameter is in the list and has a multidimensional type; none found means no parameter has one |
| PrepareAbis.FindOffender | prepare-abis.js:29-33 | the index of the first entry whose inputs or outputs (missing lists count as empty) contain such a type, or the length when there is none |
| PrepareAbis.OffenderName | prepare-abis.js:29-33 | the name of the first offending entry, if any; see `StripByName` |
| PrepareAbis.KeepEntries | prepare-abis.js:40 | the filtered list is no longer, and holds only entries of the ABI with another name |
| PrepareAbis.KeepEntriesSpec | prepare-abis.js:40 | the filter keeps every entry of another name as often as before and in order (a subsequence), and drops every entry of that name |
| PrepareAbis.NoOffenderUnchanged | prepare-abis.js:29-34 | with no offending entry the ABI is unchanged |
| PrepareAbis.StripMultidimensional | prepare-abis.js:29-40 | the find-then-filter step; see `StripByName` and `NoOffenderUnchanged` |
| PrepareAbis.StripByName | prepare-abis.js:29-43 | a nameless or empty-named first offender strips nothing; otherwise every entry of its name goes and every other entry stays, in order |
| PrepareAbis.LaterOffenderSurvives | prepare-abis.js:29-40 | a later offending entry under another name survives, so the output can still contain a multidimensional array |

## Left out

- Contract reads (`balanceOf`, `collateral`, `debtBalanceOf`, `issuanceData`, `resolver.getAddress`, `RewardEscrow.balanceOf`, `currencyKey`, `transferabledTrade`, `debtLedger`) are foreign calls. Their results are parameters. A non-`try_` read is assumed to succeed, because a failing one aborts the whole handler in graph-node.
- The persistence engine (`load`, `save`, `store.remove`) is modelled as map fields. `save` replaces the whole record. graph-node's merge of changed fields into a stored entity is not modelled. The handlers set every field they save, except the `try_` fields left unset when the read reverts and the `mints` and `claims` fields, which `trackDETHolder` leaves unset on every snapshot it saves.
- `log.debug` calls are logging only.
- Addresses and transaction hashes are held as their lower-case hex strings. Currency keys (`bytes32`) are held as decoded text: `RatesUpdated.currencyKeys` is a list of strings, and the raw `RateUpdate.currencyKey` bytes (src/rates-mapping.ts:77) are not modelled.
- Common.UntilZero: the `toString()` of a zero-padded key is not modelled; the rates handler receives its keys decoded. `UntilZero` stops at the first zero byte, which agrees with a decoding that trims only trailing zero bytes exactly on keys with no interior zero byte.
- `BigInt.toI32()` on timestamps is not modelled: bucket and day ids are `timestamp / width` on unbounded naturals, and timestamps outside the 32-bit range are not modelled.
- RatesMapping.RateStore.RecordRates: requires `newRates` to be at least as long as `currencyKeys`. An event with fewer rates than keys is not modelled.
- Common.StrToBytes: requires the string to fit in `length`. A longer string is not modelled.
- `trackActiveStakers` has no caller in the source, because its call sites are commented out. It is modelled on its own (`DtradeMapping.Store.TrackActiveStakers`, `ActiveStakers.Step`).
- Commented-out, version-dependent branches of the handlers are dead code and are not modelled. This covers the older ABIs, the `v2…UpgradeBlock` checks and the XDR conversion of fee claims.
- `contractUpdate` / `handleProxyTargetUpdated` only copy event fields into a `ContractUpdated` record. `src/perp-amm-mapping.ts` and `src/perp-mapping.ts` only copy event parameters into records keyed `txHash-logIndex`. None of these is part of this model.
- `toDecimal` in `src/common.ts` is BigDecimal division and is not modelled.
- prepare-abis.js file handling is I/O: reading the `abis` directory, JSON parsing and printing, console output and writing the file back. A parameter without a `type` field, which the source's regex test would read as `undefined`, is not modelled: every parameter here has a type string.
