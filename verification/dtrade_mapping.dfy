/** The DET, synth, reward-escrow and fee-pool handlers (src/dtrade-mapping.ts) over an entity
    store with one map per entity type. Contract reads are parameters: plain values for
    ordinary calls, `Option` for `try_` calls (None when the call reverted). */
module DtradeMapping {
  import opened GraphValues
  import opened ActiveStakers

  /** The two escrow contracts whose holdings are not tracked. */
  const EscrowAddress: string := "0x971e78e0c92392a4e39099835cf7e6ab535b2227"
  const RewardEscrowAddress: string := "0xb671f2210b1f6621a2607ea63e6b2dc3e2464d1f"

  predicate IsEscrow(account: string)
  {
    account == EscrowAddress || account == RewardEscrowAddress
  }

  /** Selectors of the burning calls (`burnSynths(uint256)`, `burnSynthsOnBehalf(address,uint256)`,
      `burnSynthsToTarget()`, `burnSynthsToTargetOnBehalf(address)`). */
  const BurnSelectors: set<string> := {"0x295da87d", "0xc2bf3880", "0x9741fb22", "0x2c955fa7"}

  /** `input.subarray(0, 4).toHexString()`: the first four bytes of the call data (fewer when
      the input is shorter), in hex. */
  function Selector(input: seq<byte>): (s: string)
    ensures |s| == 2 + 2 * (if |input| < 4 then |input| else 4)
  {
    HexString(if |input| < 4 then input else input[..4])
  }

  /** Call data shorter than four bytes never matches a burn selector. */
  lemma ShortInputIsNoBurn(input: seq<byte>)
    requires |input| < 4
    ensures Selector(input) !in BurnSelectors
  {
    assert forall s :: s in BurnSelectors ==> |s| == 10;
  }

  /** The first four bytes of the burning calls, in the order of `BurnSelectors`. */
  const BurnSynthsCall: seq<byte> := [0x29, 0x5d, 0xa8, 0x7d]
  const BurnSynthsOnBehalfCall: seq<byte> := [0xc2, 0xbf, 0x38, 0x80]
  const BurnSynthsToTargetCall: seq<byte> := [0x97, 0x41, 0xfb, 0x22]
  const BurnSynthsToTargetOnBehalfCall: seq<byte> := [0x2c, 0x95, 0x5f, 0xa7]

  const BurnCalls: set<seq<byte>> :=
    {BurnSynthsCall, BurnSynthsOnBehalfCall, BurnSynthsToTargetCall, BurnSynthsToTargetOnBehalfCall}

  /** Each burning call renders to its selector. */
  lemma BurnSynthsRendered()
    ensures HexString(BurnSynthsCall) == "0x295da87d"
  {
    assert HexDigits(BurnSynthsCall[3..]) == "7d";
    assert HexDigits(BurnSynthsCall[2..]) == "a87d";
    assert HexDigits(BurnSynthsCall[1..]) == "5da87d";
  }

  lemma BurnSynthsOnBehalfRendered()
    ensures HexString(BurnSynthsOnBehalfCall) == "0xc2bf3880"
  {
    assert HexDigits(BurnSynthsOnBehalfCall[3..]) == "80";
    assert HexDigits(BurnSynthsOnBehalfCall[2..]) == "3880";
    assert HexDigits(BurnSynthsOnBehalfCall[1..]) == "bf3880";
  }

  lemma BurnSynthsToTargetRendered()
    ensures HexString(BurnSynthsToTargetCall) == "0x9741fb22"
  {
    assert HexDigits(BurnSynthsToTargetCall[3..]) == "22";
    assert HexDigits(BurnSynthsToTargetCall[2..]) == "fb22";
    assert HexDigits(BurnSynthsToTargetCall[1..]) == "41fb22";
  }

  lemma BurnSynthsToTargetOnBehalfRendered()
    ensures HexString(BurnSynthsToTargetOnBehalfCall) == "0x2c955fa7"
  {
    assert HexDigits(BurnSynthsToTargetOnBehalfCall[3..]) == "a7";
    assert HexDigits(BurnSynthsToTargetOnBehalfCall[2..]) == "5fa7";
    assert HexDigits(BurnSynthsToTargetOnBehalfCall[1..]) == "955fa7";
  }

  /** The burn selectors, listed in the order of the calls. */
  const BurnSelectorList: seq<string> := ["0x295da87d", "0xc2bf3880", "0x9741fb22", "0x2c955fa7"]

  const BurnCallList: seq<seq<byte>> :=
    [BurnSynthsCall, BurnSynthsOnBehalfCall, BurnSynthsToTargetCall, BurnSynthsToTargetOnBehalfCall]

  lemma BurnCallListRendered()
    ensures |BurnCallList| == |BurnSelectorList|
    ensures forall k :: 0 <= k < |BurnCallList| ==> HexString(BurnCallList[k]) == BurnSelectorList[k]
  {
    BurnSynthsRendered();
    BurnSynthsOnBehalfRendered();
    BurnSynthsToTargetRendered();
    BurnSynthsToTargetOnBehalfRendered();
  }

  lemma BurnListsMatchSets(t: string, c: seq<byte>)
    ensures t in BurnSelectors <==> t in BurnSelectorList
    ensures c in BurnCalls <==> c in BurnCallList
  {
  }

  /** When each call renders to the selector at the same position, a rendering is among the
      selectors exactly when its bytes are among the calls. */
  lemma RenderedAmong(head: seq<byte>, calls: seq<seq<byte>>, selectors: seq<string>)
    requires |calls| == |selectors|
    requires forall k :: 0 <= k < |calls| ==> HexString(calls[k]) == selectors[k]
    ensures HexString(head) in selectors <==> head in calls
  {
    if HexString(head) in selectors {
      var k :| 0 <= k < |selectors| && selectors[k] == HexString(head);
      HexStringInjective(head, calls[k]);
    }
  }

  /** The burn classification of `handleBurnedSynths`: the call data's selector is a burn
      selector exactly when it starts with the four bytes of one of the burning calls. */
  lemma SelectorIsBurn(input: seq<byte>)
    ensures Selector(input) in BurnSelectors <==> |input| >= 4 && input[..4] in BurnCalls
  {
    if |input| < 4 {
      ShortInputIsNoBurn(input);
    } else {
      BurnCallListRendered();
      assert Selector(input) == HexString(input[..4]);
      RenderedAmong(input[..4], BurnCallList, BurnSelectorList);
      BurnListsMatchSets(Selector(input), input[..4]);
    }
  }

  /** The transaction of an event: hash, log index, block, sender, recipient, gas price, call data. */
  datatype Envelope = Envelope(
    txHash: string, logIndex: nat, blockNumber: nat, timestamp: nat,
    from: string, to: string, gasPrice: nat, input: seq<byte>)

  /** The `Dtrade('1')` singleton. */
  datatype Metadata = Metadata(issuers: int, detHolders: int)

  /** `getMetadata`: the stored singleton, or a fresh one with both counters at zero. */
  function MetadataOrZero(m: Option<Metadata>): Metadata
  {
    if m.Some? then m.value else Metadata(0, 0)
  }

  /** The singleton after adding `delta` to the counter named `field`; an unknown name adds nothing. */
  function Bumped(m: Option<Metadata>, field: string, delta: int): Metadata
  {
    var meta := MetadataOrZero(m);
    if field == "issuers" then meta.(issuers := meta.issuers + delta)
    else if field == "detHolders" then meta.(detHolders := meta.detHolders + delta)
    else meta
  }

  /** What the holder snapshot reads after the resolver: `issuanceData(account).value0` and the
      `try_debtLedger` entry. */
  datatype StateReads = StateReads(initialDebtOwnership: nat, debtEntryAtIndex: Option<nat>)

  /** The contract reads of `trackDETHolder`: `balanceOf`, `collateral`, `try_transferabledTrade`,
      then, when `try_resolver` did not revert, the state read. */
  datatype HolderReads = HolderReads(balanceOf: nat, collateral: nat, transferable: Option<nat>, state: Option<StateReads>)

  /** A `DETHolder` snapshot; unset optional fields are None. */
  datatype DETHolder = DETHolder(
    block: nat, timestamp: nat, account: string, balanceOf: nat, collateral: nat,
    transferable: Option<nat>, initialDebtOwnership: nat, debtEntryAtIndex: Option<nat>,
    mints: Option<nat>, claims: Option<nat>)

  /** The contract reads of `trackDebtSnapshot`. */
  datatype DebtReads = DebtReads(balanceOf: nat, collateral: nat, debtBalanceOf: nat)

  datatype DebtSnapshot = DebtSnapshot(block: nat, timestamp: nat, account: string, balanceOf: nat, collateral: nat, debtBalanceOf: nat)

  datatype SynthHolder = SynthHolder(synth: string, balanceOf: nat)

  datatype Transfer = Transfer(source: string, from: string, to: string, value: nat, timestamp: nat, block: nat)

  /** An `Issued` or `Burned` entity. */
  datatype SynthIssuance = SynthIssuance(account: string, value: nat, source: string, timestamp: nat, block: nat, gasPrice: nat)

  datatype FeesClaimed = FeesClaimed(account: string, rewards: nat, value: nat, block: nat, timestamp: nat)

  function Lookup<V>(m: map<string, V>, k: string): Option<V>
  {
    if k in m then Some(m[k]) else None
  }

  /** The id a holder snapshot is saved under: `timestamp + '-' + account`. It is looked up by
      the plain account, so the two never meet. */
  function HolderKey(timestamp: nat, account: string): (k: string)
    ensures '-' in k && k != account
  {
    var digits := NatToString(timestamp);
    assert (digits + "-" + account)[|digits|] == '-';
    digits + "-" + account
  }

  /** Every holder snapshot id is timestamp-qualified. */
  ghost predicate HolderKeysQualified(holders: map<string, DETHolder>)
  {
    forall k :: k in holders ==> '-' in k
  }

  /** `trackDETHolder` saves a snapshot unless the account is an escrow or the resolver read reverted. */
  predicate SavesHolder(account: string, read: HolderReads)
  {
    !IsEscrow(account) && read.state.Some?
  }

  /** The snapshot `trackDETHolder` saves; fields whose `try_` read reverted stay unset. */
  function NewHolder(account: string, blockNumber: nat, timestamp: nat, read: HolderReads): (h: DETHolder)
    requires read.state.Some?
    ensures h.transferable == read.transferable && h.debtEntryAtIndex == read.state.value.debtEntryAtIndex
    ensures h.balanceOf == read.balanceOf && h.mints.None? && h.claims.None?
  {
    DETHolder(blockNumber, timestamp, account, read.balanceOf, read.collateral, read.transferable,
      read.state.value.initialDebtOwnership, read.state.value.debtEntryAtIndex, None, None)
  }

  /** The change to the `detHolders` counter for a holder whose loaded snapshot is `prior` and
      whose balance is now `balance`: up on a move from none or zero to positive, down on a move
      from positive to zero. */
  function HolderCountChange(prior: Option<DETHolder>, balance: nat): (d: int)
    ensures d == 1 <==> (prior.None? || prior.value.balanceOf == 0) && balance > 0
    ensures d == -1 <==> prior.Some? && prior.value.balanceOf > 0 && balance == 0
    ensures -1 <= d <= 1
  {
    if (prior.None? && balance > 0) || (prior.Some? && prior.value.balanceOf == 0 && balance > 0) then 1
    else if prior.Some? && prior.value.balanceOf > 0 && balance == 0 then -1
    else 0
  }

  /** The holder snapshots after `trackDETHolder`. */
  function HoldersAfterTrack(holders: map<string, DETHolder>, account: string, blockNumber: nat, timestamp: nat, read: HolderReads): map<string, DETHolder>
  {
    if SavesHolder(account, read) then holders[HolderKey(timestamp, account) := NewHolder(account, blockNumber, timestamp, read)]
    else holders
  }

  /** The singleton after `trackDETHolder`; it is created only when a counter moves. */
  function MetadataAfterTrack(meta: Option<Metadata>, holders: map<string, DETHolder>, account: string, read: HolderReads): Option<Metadata>
  {
    if !SavesHolder(account, read) then meta
    else
      var d := HolderCountChange(Lookup(holders, account), read.balanceOf);
      if d == 0 then meta else Some(Bumped(meta, "detHolders", d))
  }

  /** The singleton after `trackIssuer`. */
  function MetadataAfterIssuer(meta: Option<Metadata>, issuers: set<string>, account: string): Option<Metadata>
  {
    if account in issuers then meta else Some(Bumped(meta, "issuers", 1))
  }

  /** The snapshots after a loaded holder's `mints` is counted up (from 0 when unset). */
  function CountedMint(holders: map<string, DETHolder>, account: string): map<string, DETHolder>
  {
    if account in holders then holders[account := holders[account].(mints := Some(OrZero(holders[account].mints) + 1))]
    else holders
  }

  /** The snapshots after a loaded holder's `claims` is counted up (from 0 when unset). */
  function CountedClaim(holders: map<string, DETHolder>, account: string): map<string, DETHolder>
  {
    if account in holders then holders[account := holders[account].(claims := Some(OrZero(holders[account].claims) + 1))]
    else holders
  }

  /** The debt snapshots after `trackDebtSnapshot`: one per event, for the sender, unless it is an escrow. */
  function SnapshotsAfter(snapshots: map<string, DebtSnapshot>, ev: Envelope, read: DebtReads): map<string, DebtSnapshot>
  {
    if IsEscrow(ev.from) then snapshots
    else snapshots[EventId(ev.txHash, ev.logIndex) :=
      DebtSnapshot(ev.blockNumber, ev.timestamp, ev.from, read.balanceOf, read.collateral, read.debtBalanceOf)]
  }

  /** The `source` of an `Issued` or `Burned` entity: the synth's currency key, or `dUSD` when
      `try_currencyKey` reverted. */
  function CurrencySource(currencyKey: Option<string>): string
  {
    if currencyKey.Some? then currencyKey.value else "dUSD"
  }

  /** With timestamp-qualified snapshot ids, an account without `-` is never found: the
      transition test always sees "no prior holder", and `mints` / `claims` are never counted. */
  lemma PlainLookupMisses(holders: map<string, DETHolder>, account: string, read: HolderReads)
    requires HolderKeysQualified(holders) && '-' !in account
    ensures Lookup(holders, account).None?
    ensures CountedMint(holders, account) == holders && CountedClaim(holders, account) == holders
    ensures HolderCountChange(Lookup(holders, account), read.balanceOf) == if read.balanceOf > 0 then 1 else 0
  {
  }

  lemma TrackKeepsKeysQualified(holders: map<string, DETHolder>, account: string, blockNumber: nat, timestamp: nat, read: HolderReads)
    requires HolderKeysQualified(holders)
    ensures HolderKeysQualified(HoldersAfterTrack(holders, account, blockNumber, timestamp, read))
  {
  }

  /** The entity store of the DET and synth handlers. */
  class Store {
    var metadata: Option<Metadata>
    var issuers: set<string>
    var detHolders: map<string, DETHolder>
    var debtSnapshots: map<string, DebtSnapshot>
    var synthHolders: map<string, SynthHolder>
    var rewardEscrowHolders: map<string, nat>
    var transfers: map<string, Transfer>
    var issued: map<string, SynthIssuance>
    var burned: map<string, SynthIssuance>
    var feesClaimed: map<string, FeesClaimed>
    var activeStakers: set<string>
    var totalActiveStaker: Option<int>
    var totalDailyActiveStakers: map<nat, int>

    function StakerState(): Stakers
      reads this
    {
      Stakers(activeStakers, totalActiveStaker, totalDailyActiveStakers)
    }

    /** The issuer counter equals the number of issuers, the active-staker counter the number
        of active stakers, and every holder snapshot id is timestamp-qualified. */
    ghost predicate Valid()
      reads this
    {
      MetadataOrZero(metadata).issuers == |issuers| &&
      Consistent(StakerState()) &&
      HolderKeysQualified(detHolders)
    }

    constructor ()
      ensures Valid()
      ensures metadata == None && issuers == {} && detHolders == map[] && debtSnapshots == map[]
      ensures synthHolders == map[] && rewardEscrowHolders == map[] && transfers == map[]
      ensures issued == map[] && burned == map[] && feesClaimed == map[]
      ensures activeStakers == {} && totalActiveStaker == None && totalDailyActiveStakers == map[]
    {
      metadata, issuers, detHolders, debtSnapshots := None, {}, map[], map[];
      synthHolders, rewardEscrowHolders, transfers := map[], map[], map[];
      issued, burned, feesClaimed := map[], map[], map[];
      activeStakers, totalActiveStaker, totalDailyActiveStakers := {}, None, map[];
    }

    /** `getMetadata`: load the singleton, creating and saving it with zero counters if absent. */
    method GetMetadata() returns (m: Metadata)
      modifies this`metadata
      ensures m == MetadataOrZero(old(metadata)) && metadata == Some(m)
    {
      if metadata.None? {
        metadata := Some(Metadata(0, 0));
      }
      m := metadata.value;
    }

    /** `incrementMetadata(field)`: the named counter goes up by one, the other stays; an unknown
        name changes no counter, though the singleton is still created. */
    method IncrementMetadata(field: string)
      modifies this`metadata
      ensures metadata.Some?
      ensures metadata.value.issuers == MetadataOrZero(old(metadata)).issuers + (if field == "issuers" then 1 else 0)
      ensures metadata.value.detHolders == MetadataOrZero(old(metadata)).detHolders + (if field == "detHolders" then 1 else 0)
    {
      var m := GetMetadata();
      if field == "issuers" {
        m := m.(issuers := m.issuers + 1);
      } else if field == "detHolders" {
        m := m.(detHolders := m.detHolders + 1);
      }
      metadata := Some(m);
    }

    /** `decrementMetadata(field)`: the named counter goes down by one, the other stays. */
    method DecrementMetadata(field: string)
      modifies this`metadata
      ensures metadata.Some?
      ensures metadata.value.issuers == MetadataOrZero(old(metadata)).issuers - (if field == "issuers" then 1 else 0)
      ensures metadata.value.detHolders == MetadataOrZero(old(metadata)).detHolders - (if field == "detHolders" then 1 else 0)
    {
      var m := GetMetadata();
      if field == "issuers" {
        m := m.(issuers := m.issuers - 1);
      } else if field == "detHolders" {
        m := m.(detHolders := m.detHolders - 1);
      }
      metadata := Some(m);
    }

    /** `trackIssuer`: an account becomes an issuer once; only then is the counter raised.
        A second call for the same account changes nothing. */
    method TrackIssuer(account: string)
      requires Valid()
      modifies this`metadata, this`issuers
      ensures Valid()
      ensures issuers == old(issuers) + {account}
      ensures account in old(issuers) ==> metadata == old(metadata)
      ensures account !in old(issuers) ==>
        metadata == Some(MetadataOrZero(old(metadata)).(issuers := MetadataOrZero(old(metadata)).issuers + 1))
      ensures metadata == MetadataAfterIssuer(old(metadata), old(issuers), account)
    {
      if account !in issuers {
        IncrementMetadata("issuers");
        issuers := issuers + {account};
      }
    }

    /** `trackDETHolder`: for a non-escrow account whose resolver read did not revert, save a
        snapshot under `timestamp-account` and move the holder counter on a balance change
        between zero and non-zero, judged against the snapshot stored under the plain account.
        Escrow accounts and a reverted resolver write nothing. */
    method TrackDETHolder(account: string, blockNumber: nat, timestamp: nat, read: HolderReads)
      requires Valid()
      modifies this`metadata, this`detHolders
      ensures Valid()
      ensures detHolders == HoldersAfterTrack(old(detHolders), account, blockNumber, timestamp, read)
      ensures metadata == MetadataAfterTrack(old(metadata), old(detHolders), account, read)
      ensures !SavesHolder(account, read) ==> detHolders == old(detHolders) && metadata == old(metadata)
      ensures SavesHolder(account, read) ==>
        HolderKey(timestamp, account) in detHolders &&
        detHolders[HolderKey(timestamp, account)].transferable == read.transferable &&
        detHolders[HolderKey(timestamp, account)].debtEntryAtIndex == read.state.value.debtEntryAtIndex
      ensures SavesHolder(account, read) && '-' !in account ==>
        metadata == if read.balanceOf > 0 then Some(Bumped(old(metadata), "detHolders", 1)) else old(metadata)
    {
      var holder := account;
      if holder == EscrowAddress || holder == RewardEscrowAddress {
        return;
      }
      var existing := Lookup(detHolders, holder);
      var key := HolderKey(timestamp, holder);
      var balanceOf := read.balanceOf;
      if read.state.None? {
        return;
      }
      var snapshot := NewHolder(holder, blockNumber, timestamp, read);
      if (existing.None? && balanceOf > 0) || (existing.Some? && existing.value.balanceOf == 0 && balanceOf > 0) {
        IncrementMetadata("detHolders");
      } else if existing.Some? && existing.value.balanceOf > 0 && balanceOf == 0 {
        DecrementMetadata("detHolders");
      }
      detHolders := detHolders[key := snapshot];
      if '-' !in account {
        PlainLookupMisses(old(detHolders), account, read);
      }
    }

    /** `trackDebtSnapshot`: record the sender's balances for this event unless it is an escrow. */
    method TrackDebtSnapshot(ev: Envelope, read: DebtReads)
      modifies this`debtSnapshots
      ensures debtSnapshots == SnapshotsAfter(old(debtSnapshots), ev, read)
      ensures IsEscrow(ev.from) ==> debtSnapshots == old(debtSnapshots)
    {
      var account := ev.from;
      if account == EscrowAddress || account == RewardEscrowAddress {
        return;
      }
      var entity := DebtSnapshot(ev.blockNumber, ev.timestamp, account, read.balanceOf, read.collateral, read.debtBalanceOf);
      debtSnapshots := debtSnapshots[EventId(ev.txHash, ev.logIndex) := entity];
    }

    /** `handleTransferDET`: record the transfer, then track the sender and the recipient. */
    method HandleTransferDET(ev: Envelope, from: string, to: string, value: nat, fromReads: HolderReads, toReads: HolderReads)
      requires Valid()
      modifies this`transfers, this`metadata, this`detHolders
      ensures Valid()
      ensures transfers == old(transfers)[EventId(ev.txHash, ev.logIndex) := Transfer("DET", from, to, value, ev.timestamp, ev.blockNumber)]
      ensures detHolders == HoldersAfterTrack(
        HoldersAfterTrack(old(detHolders), from, ev.blockNumber, ev.timestamp, fromReads), to, ev.blockNumber, ev.timestamp, toReads)
      ensures metadata == MetadataAfterTrack(
        MetadataAfterTrack(old(metadata), old(detHolders), from, fromReads),
        HoldersAfterTrack(old(detHolders), from, ev.blockNumber, ev.timestamp, fromReads), to, toReads)
    {
      transfers := transfers[EventId(ev.txHash, ev.logIndex) := Transfer("DET", from, to, value, ev.timestamp, ev.blockNumber)];
      TrackDETHolder(from, ev.blockNumber, ev.timestamp, fromReads);
      TrackDETHolder(to, ev.blockNumber, ev.timestamp, toReads);
    }

    /** `trackSynthHolder`: create or overwrite the holding of `account` in `source`. */
    method TrackSynthHolder(source: string, account: string, balanceOf: nat)
      modifies this`synthHolders
      ensures synthHolders == old(synthHolders)[account + "-" + source := SynthHolder(source, balanceOf)]
    {
      var entityId := account + "-" + source;
      synthHolders := synthHolders[entityId := SynthHolder(source, balanceOf)];
    }

    /** `handleTransferSynth`: record the transfer with source `dUSD`, then the holdings of the
        sender and of the recipient (the recipient's is written last). */
    method HandleTransferSynth(ev: Envelope, from: string, to: string, value: nat, fromBalance: nat, toBalance: nat)
      modifies this`transfers, this`synthHolders
      ensures transfers == old(transfers)[EventId(ev.txHash, ev.logIndex) := Transfer("dUSD", from, to, value, ev.timestamp, ev.blockNumber)]
      ensures synthHolders == old(synthHolders)[from + "-dUSD" := SynthHolder("dUSD", fromBalance)][to + "-dUSD" := SynthHolder("dUSD", toBalance)]
    {
      var entity := Transfer("dUSD", from, to, value, ev.timestamp, ev.blockNumber);
      transfers := transfers[EventId(ev.txHash, ev.logIndex) := entity];
      TrackSynthHolder(entity.source, from, fromBalance);
      TrackSynthHolder(entity.source, to, toBalance);
      assert from + "-" + "dUSD" == from + "-dUSD" && to + "-" + "dUSD" == to + "-dUSD";
    }

    /** `handleRewardVestEvent`: store the beneficiary's escrowed balance, then track it as a holder. */
    method HandleRewardVestEvent(ev: Envelope, beneficiary: string, escrowBalance: nat, read: HolderReads)
      requires Valid()
      modifies this`rewardEscrowHolders, this`metadata, this`detHolders
      ensures Valid()
      ensures rewardEscrowHolders == old(rewardEscrowHolders)[beneficiary := escrowBalance]
      ensures detHolders == HoldersAfterTrack(old(detHolders), beneficiary, ev.blockNumber, ev.timestamp, read)
      ensures metadata == MetadataAfterTrack(old(metadata), old(detHolders), beneficiary, read)
    {
      rewardEscrowHolders := rewardEscrowHolders[beneficiary := escrowBalance];
      TrackDETHolder(beneficiary, ev.blockNumber, ev.timestamp, read);
    }

    /** The `Issued` record of `handleIssuedSynths`, keyed by the event, with the synth's
        currency key as source (`dUSD` when that read reverted). */
    method RecordIssued(ev: Envelope, value: nat, currencyKey: Option<string>)
      modifies this`issued
      ensures issued == old(issued)[EventId(ev.txHash, ev.logIndex) :=
        SynthIssuance(ev.from, value, CurrencySource(currencyKey), ev.timestamp, ev.blockNumber, ev.gasPrice)]
    {
      var source := "dUSD";
      if currencyKey.Some? {
        source := currencyKey.value;
      }
      issued := issued[EventId(ev.txHash, ev.logIndex) :=
        SynthIssuance(ev.from, value, source, ev.timestamp, ev.blockNumber, ev.gasPrice)];
    }

    /** Count a mint on the snapshot stored under `account`, if there is one: `mints` goes up
        by one, from 0 when unset. No snapshot id is added or removed. */
    method CountMint(account: string)
      requires Valid()
      modifies this`detHolders
      ensures Valid()
      ensures detHolders == CountedMint(old(detHolders), account)
      ensures account in old(detHolders) ==> OrZero(detHolders[account].mints) == OrZero(old(detHolders)[account].mints) + 1
      ensures '-' !in account ==> detHolders == old(detHolders)
    {
      if account in detHolders {
        var holder := detHolders[account];
        var mints := OrZero(holder.mints);
        holder := holder.(mints := Some(mints + 1));
        detHolders := detHolders[account := holder];
      }
    }

    /** `handleIssuedSynths`: the table of issuing selectors only feeds a log line, which the
        model leaves out, so an unknown selector is still recorded. Record the issue, track the sender as issuer and as holder, count a mint
        on the snapshot stored under the plain sender (if any), and take a debt snapshot. */
    method HandleIssuedSynths(ev: Envelope, value: nat, currencyKey: Option<string>, holderReads: HolderReads, debtReads: DebtReads)
      requires Valid()
      modifies this`issued, this`metadata, this`issuers, this`detHolders, this`debtSnapshots
      ensures Valid()
      ensures issued == old(issued)[EventId(ev.txHash, ev.logIndex) :=
        SynthIssuance(ev.from, value, CurrencySource(currencyKey), ev.timestamp, ev.blockNumber, ev.gasPrice)]
      ensures issuers == old(issuers) + {ev.from}
      ensures metadata == MetadataAfterTrack(MetadataAfterIssuer(old(metadata), old(issuers), ev.from), old(detHolders), ev.from, holderReads)
      ensures detHolders == CountedMint(HoldersAfterTrack(old(detHolders), ev.from, ev.blockNumber, ev.timestamp, holderReads), ev.from)
      ensures '-' !in ev.from ==> detHolders == HoldersAfterTrack(old(detHolders), ev.from, ev.blockNumber, ev.timestamp, holderReads)
      ensures debtSnapshots == SnapshotsAfter(old(debtSnapshots), ev, debtReads)
    {
      RecordIssued(ev, value, currencyKey);
      TrackIssuer(ev.from);
      TrackDETHolder(ev.from, ev.blockNumber, ev.timestamp, holderReads);
      CountMint(ev.from);
      TrackDebtSnapshot(ev, debtReads);
    }

    /** `handleBurnedSynths`: a call whose selector is not a known burn is ignored before any
        write; otherwise record the burn, track the sender as holder and take a debt snapshot. */
    method HandleBurnedSynths(ev: Envelope, value: nat, currencyKey: Option<string>, holderReads: HolderReads, debtReads: DebtReads)
      requires Valid()
      modifies this`burned, this`metadata, this`detHolders, this`debtSnapshots
      ensures Valid()
      ensures Selector(ev.input) !in BurnSelectors ==>
        burned == old(burned) && metadata == old(metadata) && detHolders == old(detHolders) && debtSnapshots == old(debtSnapshots)
      ensures Selector(ev.input) in BurnSelectors ==>
        burned == old(burned)[EventId(ev.txHash, ev.logIndex) :=
          SynthIssuance(ev.from, value, CurrencySource(currencyKey), ev.timestamp, ev.blockNumber, ev.gasPrice)] &&
        detHolders == HoldersAfterTrack(old(detHolders), ev.from, ev.blockNumber, ev.timestamp, holderReads) &&
        metadata == MetadataAfterTrack(old(metadata), old(detHolders), ev.from, holderReads) &&
        debtSnapshots == SnapshotsAfter(old(debtSnapshots), ev, debtReads)
    {
      var input := Selector(ev.input);
      if input !in BurnSelectors {
        return;
      }
      var source := "dUSD";
      if currencyKey.Some? {
        source := currencyKey.value;
      }
      burned := burned[EventId(ev.txHash, ev.logIndex) :=
        SynthIssuance(ev.from, value, source, ev.timestamp, ev.blockNumber, ev.gasPrice)];
      TrackDETHolder(ev.from, ev.blockNumber, ev.timestamp, holderReads);
      TrackDebtSnapshot(ev, debtReads);
    }

    /** `handleFeesClaimed`: record the claim and count it on the snapshot stored under the
        plain account (if any). */
    method HandleFeesClaimed(ev: Envelope, account: string, detRewards: nat, dUSDAmount: nat)
      requires Valid()
      modifies this`feesClaimed, this`detHolders
      ensures Valid()
      ensures feesClaimed == old(feesClaimed)[EventId(ev.txHash, ev.logIndex) :=
        FeesClaimed(account, detRewards, dUSDAmount, ev.blockNumber, ev.timestamp)]
      ensures detHolders == CountedClaim(old(detHolders), account)
      ensures '-' !in account ==> detHolders == old(detHolders)
    {
      feesClaimed := feesClaimed[EventId(ev.txHash, ev.logIndex) :=
        FeesClaimed(account, detRewards, dUSDAmount, ev.blockNumber, ev.timestamp)];
      if account in detHolders {
        var holder := detHolders[account];
        var claims := OrZero(holder.claims);
        holder := holder.(claims := Some(claims + 1));
        detHolders := detHolders[account := holder];
      }
    }

    /** `trackActiveStakers(event, isBurn)` for the sender with its debt balance already read;
        see `Step` for the transition. The counter stays equal to the number of active stakers. */
    method TrackActiveStakers(account: string, timestamp: nat, accountDebtBalance: int, isBurn: bool)
      requires Valid()
      modifies this`activeStakers, this`totalActiveStaker, this`totalDailyActiveStakers
      ensures Valid()
      ensures StakerState() == Step(old(StakerState()), account, timestamp, accountDebtBalance, isBurn)
    {
      var dayId := timestamp / SecondsPerDay;
      var count := 0;
      if totalActiveStaker.Some? {
        count := totalActiveStaker.value;
      }
      var isActive := account in activeStakers;
      if isBurn && isActive && accountDebtBalance == 0 {
        count := count - 1;
        totalActiveStaker := Some(count);
        activeStakers := activeStakers - {account};
      } else if !isBurn && !isActive {
        activeStakers := activeStakers + {account};
        count := count + 1;
        totalActiveStaker := Some(count);
      }
      if dayId !in totalDailyActiveStakers {
        totalDailyActiveStakers := totalDailyActiveStakers[dayId := count];
      }
    }
  }
}
