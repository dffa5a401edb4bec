/** The exchange-rate handler (src/rates-mapping.ts): incremental-mean DET price buckets
    per day and per quarter hour, the per-symbol latest rate, and the seeded dollar rates. */
module RatesMapping {
  import opened GraphValues

  /** Width of the quarter-hour bucket, in seconds. */
  const SecondsPerFifteenMinutes: nat := 900

  /** `10^18`: one dollar in 18-decimal fixed point. */
  const OneDollar: nat := 1_000_000_000_000_000_000

  /** `BigInt.div`: the quotient truncated toward zero. */
  function TruncDiv(a: int, b: int): int
    requires b > 0
  {
    if a >= 0 then a / b else -((-a) / b)
  }

  /** Euclidean division by a positive number keeps bounds that hold after multiplying back. */
  lemma DivWithin(x: int, n: int, lo: int, hi: int)
    requires n > 0 && lo * n <= x <= hi * n
    ensures lo <= x / n <= hi
  {
    var q := x / n;
    assert x == n * q + x % n && 0 <= x % n < n;
    if q < lo {
      assert n * q <= n * (lo - 1) by { MulLeftMono(n, q, lo - 1); }
      assert false;
    }
    if q > hi {
      assert n * (hi + 1) <= n * q by { MulLeftMono(n, hi + 1, q); }
      assert false;
    }
  }

  lemma MulLeftMono(n: int, a: int, b: int)
    requires n >= 0 && a <= b
    ensures n * a <= n * b
  {
    assert n * b - n * a == n * (b - a);
  }

  lemma TruncDivWithin(x: int, n: int, lo: int, hi: int)
    requires n > 0 && lo * n <= x <= hi * n
    ensures lo <= TruncDiv(x, n) <= hi
  {
    if x >= 0 {
      DivWithin(x, n, lo, hi);
    } else {
      assert (-hi) * n <= -x <= (-lo) * n;
      DivWithin(-x, n, -hi, -lo);
    }
  }

  /** `calculateAveragePrice`: the incremental-mean step `(old * (n - 1) + rate) / n`. The new
      average lies between the old average and the new rate; the first observation of a bucket
      is its average, and a rate equal to the average leaves it unchanged. */
  function CalculateAveragePrice(oldAveragePrice: int, newRate: int, newCount: int): (r: int)
    requires newCount >= 1
    ensures oldAveragePrice <= newRate ==> oldAveragePrice <= r <= newRate
    ensures newRate <= oldAveragePrice ==> newRate <= r <= oldAveragePrice
    ensures newCount == 1 ==> r == newRate
  {
    var x := oldAveragePrice * (newCount - 1) + newRate;
    var lo := if oldAveragePrice <= newRate then oldAveragePrice else newRate;
    var hi := if oldAveragePrice <= newRate then newRate else oldAveragePrice;
    assert lo * newCount <= x <= hi * newCount by {
      MulLeftMono(newCount - 1, lo, oldAveragePrice);
      MulLeftMono(newCount - 1, oldAveragePrice, hi);
      assert lo * newCount == lo * (newCount - 1) + lo;
      assert hi * newCount == hi * (newCount - 1) + hi;
      assert oldAveragePrice * (newCount - 1) == (newCount - 1) * oldAveragePrice;
      assert lo * (newCount - 1) == (newCount - 1) * lo;
      assert hi * (newCount - 1) == (newCount - 1) * hi;
    }
    TruncDivWithin(x, newCount, lo, hi);
    TruncDiv(x, newCount)
  }

  /** A `DailyDETPrice` or `FifteenMinuteDETPrice` entity. */
  datatype Bucket = Bucket(count: nat, averagePrice: int)

  /** `loadDailyDETPrice` / `loadFifteenMinuteDETPrice`: a bucket not yet stored starts empty. */
  const EmptyBucket: Bucket := Bucket(0, 0)

  function LoadBucket(buckets: map<nat, Bucket>, id: nat): Bucket
  {
    if id in buckets then buckets[id] else EmptyBucket
  }

  /** One rate folded into a bucket: the count goes up by one and the average moves toward the
      rate without passing it; into an empty bucket the rate becomes the average. */
  function Observe(b: Bucket, rate: int): (r: Bucket)
    ensures r.count == b.count + 1
    ensures b.averagePrice <= rate ==> b.averagePrice <= r.averagePrice <= rate
    ensures rate <= b.averagePrice ==> rate <= r.averagePrice <= b.averagePrice
    ensures b.count == 0 ==> r.averagePrice == rate
  {
    Bucket(b.count + 1, CalculateAveragePrice(b.averagePrice, rate, b.count + 1))
  }

  /** The bucket reached by observing `rates` in order from an empty bucket. */
  function MeanOf(rates: seq<int>): (b: Bucket)
    ensures b.count == |rates|
  {
    if rates == [] then EmptyBucket else Observe(MeanOf(rates[..|rates| - 1]), rates[|rates| - 1])
  }

  /** The stored average always lies between the smallest and largest rate observed. */
  lemma {:induction false} MeanWithinBounds(rates: seq<int>, lo: int, hi: int)
    requires |rates| > 0
    requires forall i :: 0 <= i < |rates| ==> lo <= rates[i] <= hi
    ensures lo <= MeanOf(rates).averagePrice <= hi
  {
    if |rates| > 1 {
      MeanWithinBounds(rates[..|rates| - 1], lo, hi);
    }
  }

  lemma MeanOfSnoc(rates: seq<int>, rate: int)
    ensures MeanOf(rates + [rate]) == Observe(MeanOf(rates), rate)
  {
    assert (rates + [rate])[..|rates|] == rates;
  }

  /** The recurrence is not the truncated mean of the observations: rates 1, 0, 2 leave the
      average at 0, while their sum divided by their count is 1. */
  lemma MeanIsNotTruncatedSum()
    ensures Observe(Observe(Observe(EmptyBucket, 1), 0), 2) == Bucket(3, 0)
    ensures MeanOf([1, 0, 2]).averagePrice == 0 != TruncDiv(1 + 0 + 2, 3)
  {
    ThreeSteps();
    MeanOfOneZeroTwo();
  }

  lemma MeanOfOneZeroTwo()
    ensures MeanOf([1, 0, 2]) == Bucket(3, 0)
  {
    ThreeSteps();
    MeanOfThree(1, 0, 2);
  }

  lemma ThreeSteps()
    ensures Observe(Observe(Observe(EmptyBucket, 1), 0), 2) == Bucket(3, 0)
  {
    FirstStep();
    SecondStep();
    ThirdStep();
  }

  lemma MeanOfThree(a: int, b: int, c: int)
    ensures MeanOf([a, b, c]) == Observe(Observe(Observe(EmptyBucket, a), b), c)
  {
    MeanOfSnoc([], a);
    MeanOfSnoc([a], b);
    MeanOfSnoc([a, b], c);
    assert [] + [a] == [a] && [a] + [b] == [a, b] && [a, b] + [c] == [a, b, c];
  }

  lemma FirstStep()
    ensures Observe(EmptyBucket, 1) == Bucket(1, 1)
  {
  }

  lemma SecondStep()
    ensures Observe(Bucket(1, 1), 0) == Bucket(2, 0)
  {
  }

  lemma ThirdStep()
    ensures Observe(Bucket(2, 0), 2) == Bucket(3, 0)
  {
  }

  /** A bucket holding two observations averaging 100 moves to 110 on a rate of 130. */
  lemma ObserveExample()
    ensures Observe(Bucket(2, 100), 130) == Bucket(3, 110)
  {
  }

  /** Each stored bucket is the mean of the rates observed for its id. */
  ghost predicate Tracks(buckets: map<nat, Bucket>, observed: map<nat, seq<int>>)
  {
    buckets.Keys == observed.Keys &&
    forall id {:trigger MeanOf(observed[id])} :: id in observed ==> |observed[id]| > 0 && buckets[id] == MeanOf(observed[id])
  }

  lemma {:induction false} BucketAverageBounded(buckets: map<nat, Bucket>, observed: map<nat, seq<int>>, id: nat, lo: int, hi: int)
    requires Tracks(buckets, observed) && id in buckets
    requires forall i :: 0 <= i < |observed[id]| ==> lo <= observed[id][i] <= hi
    ensures lo <= buckets[id].averagePrice <= hi
    ensures buckets[id].count == |observed[id]|
  {
    assert buckets[id] == MeanOf(observed[id]);
    MeanWithinBounds(observed[id], lo, hi);
  }

  /** The observations after appending `rates` to bucket `id` (no change when there are none). */
  function Extend(observed: map<nat, seq<int>>, id: nat, rates: seq<int>): map<nat, seq<int>>
  {
    if rates == [] then observed
    else observed[id := (if id in observed then observed[id] else []) + rates]
  }

  lemma ExtendTwice(observed: map<nat, seq<int>>, id: nat, a: seq<int>, b: seq<int>)
    ensures Extend(Extend(observed, id, a), id, b) == Extend(observed, id, a + b)
  {
    if a == [] {
      assert a + b == b;
    } else if b == [] {
      assert a + b == a;
    } else {
      var old0 := if id in observed then observed[id] else [];
      assert old0 + a + b == old0 + (a + b);
    }
  }

  lemma ObserveTracks(buckets: map<nat, Bucket>, observed: map<nat, seq<int>>, id: nat, rate: int)
    requires Tracks(buckets, observed)
    ensures Tracks(buckets[id := Observe(LoadBucket(buckets, id), rate)], Extend(observed, id, [rate]))
  {
    var prior := if id in observed then observed[id] else [];
    MeanOfSnoc(prior, rate);
  }

  /** `addDollar`: the rate 10^18 is stored under `id` only when nothing is stored there yet. */
  function SeedDollar(rates: map<string, nat>, id: string): map<string, nat>
  {
    if id in rates then rates else rates[id := OneDollar]
  }

  /** One write of the loop: `v` under `prefix + key`, unless the key is empty. */
  function Write<V>(m: map<string, V>, prefix: string, key: string, v: V): map<string, V>
  {
    if key == "" then m else m[prefix + key := v]
  }

  /** The map after writing `values[j]` under `prefix + keys[j]`, in index order for `j < n`,
      skipping empty keys. A later write to the same key replaces an earlier one. */
  function Upsert<V>(m: map<string, V>, prefix: string, keys: seq<string>, values: seq<V>, n: nat): map<string, V>
    requires n <= |keys| && n <= |values|
  {
    if n == 0 then m
    else Write(Upsert(m, prefix, keys, values, n - 1), prefix, keys[n - 1], values[n - 1])
  }

  lemma PrefixCancels(prefix: string, a: string, b: string)
    requires prefix + a == prefix + b
    ensures a == b
  {
    assert a == (prefix + a)[|prefix|..];
    assert b == (prefix + b)[|prefix|..];
  }

  /** The entry for a key holds the value at the last index carrying that key. */
  lemma {:induction false} UpsertLastWins<V>(m: map<string, V>, prefix: string, keys: seq<string>, values: seq<V>, n: nat, j: nat)
    requires n <= |keys| && n <= |values| && j < n && keys[j] != ""
    requires forall i :: j < i < n ==> keys[i] != keys[j]
    ensures prefix + keys[j] in Upsert(m, prefix, keys, values, n)
    ensures Upsert(m, prefix, keys, values, n)[prefix + keys[j]] == values[j]
  {
    if j < n - 1 {
      UpsertLastWins(m, prefix, keys, values, n - 1, j);
      if keys[n - 1] != "" && prefix + keys[n - 1] == prefix + keys[j] {
        PrefixCancels(prefix, keys[n - 1], keys[j]);
      }
    }
  }

  /** An id no non-empty key writes to keeps its prior entry, or stays absent. */
  lemma {:induction false} UpsertUntouched<V>(m: map<string, V>, prefix: string, keys: seq<string>, values: seq<V>, n: nat, id: string)
    requires n <= |keys| && n <= |values|
    requires forall i :: 0 <= i < n && keys[i] != "" ==> prefix + keys[i] != id
    ensures id in Upsert(m, prefix, keys, values, n) <==> id in m
    ensures id in m ==> Upsert(m, prefix, keys, values, n)[id] == m[id]
  {
    if n > 0 {
      UpsertUntouched(m, prefix, keys, values, n - 1, id);
    }
  }

  /** What one index feeds the buckets: its rate when the key is `DET`, nothing otherwise. */
  function Fed(key: string, rate: nat): seq<int>
  {
    if key == "DET" then [rate as int] else []
  }

  /** The rates, in index order among the first `n`, whose key is `DET`. */
  function DetRates(keys: seq<string>, rates: seq<nat>, n: nat): seq<int>
    requires n <= |keys| && n <= |rates|
  {
    if n == 0 then []
    else DetRates(keys, rates, n - 1) + Fed(keys[n - 1], rates[n - 1])
  }

  /** Every rate folded into the buckets came with key `DET`. */
  lemma {:induction false} DetRatesFromDetKeys(keys: seq<string>, rates: seq<nat>, n: nat, k: nat)
    requires n <= |keys| && n <= |rates| && k < |DetRates(keys, rates, n)|
    ensures exists i :: 0 <= i < n && keys[i] == "DET" && rates[i] == DetRates(keys, rates, n)[k]
  {
    var prev := DetRates(keys, rates, n - 1);
    if k < |prev| {
      DetRatesFromDetKeys(keys, rates, n - 1, k);
    } else {
      assert keys[n - 1] == "DET" && rates[n - 1] == DetRates(keys, rates, n)[k];
    }
  }

  /** One more index of the loop extends the observations by what that index feeds. */
  lemma DetRatesStep(observed: map<nat, seq<int>>, id: nat, keys: seq<string>, rates: seq<nat>, i: nat)
    requires i < |keys| && i < |rates|
    ensures Extend(Extend(observed, id, DetRates(keys, rates, i)), id, Fed(keys[i], rates[i]))
      == Extend(observed, id, DetRates(keys, rates, i + 1))
  {
    ExtendTwice(observed, id, DetRates(keys, rates, i), Fed(keys[i], rates[i]));
  }

  /** An event without a `DET` key folds nothing into the buckets. */
  lemma {:induction false} NoDetKeyNoRates(keys: seq<string>, rates: seq<nat>, n: nat)
    requires n <= |keys| && n <= |rates|
    requires forall i :: 0 <= i < n ==> keys[i] != "DET"
    ensures DetRates(keys, rates, n) == []
  {
    if n > 0 {
      NoDetKeyNoRates(keys, rates, n - 1);
    }
  }

  /** A `RateUpdate` entity. */
  datatype RateUpdate = RateUpdate(block: nat, timestamp: nat, synth: string, rate: nat)

  /** A `RatesUpdated` entity: the event as received. */
  datatype RatesUpdated = RatesUpdated(currencyKeys: seq<string>, newRates: seq<nat>, timestamp: nat, block: nat, from: string, gasPrice: nat)

  /** A `RatesUpdated` log with its transaction and block; currency keys arrive already
      read as strings. */
  datatype RatesEvent = RatesEvent(
    txHash: string, logIndex: nat, blockNumber: nat, timestamp: nat, from: string, gasPrice: nat,
    currencyKeys: seq<string>, newRates: seq<nat>)

  /** The `RateUpdate` written for each index of the event. */
  function UpdateRecords(ev: RatesEvent): (r: seq<RateUpdate>)
    requires |ev.newRates| >= |ev.currencyKeys|
    ensures |r| == |ev.currencyKeys|
    ensures forall i :: 0 <= i < |r| ==>
      r[i] == RateUpdate(ev.blockNumber, ev.timestamp, ev.currencyKeys[i], ev.newRates[i])
  {
    seq(|ev.currencyKeys|, i requires 0 <= i < |ev.currencyKeys| =>
      RateUpdate(ev.blockNumber, ev.timestamp, ev.currencyKeys[i], ev.newRates[i]))
  }

  /** The rate entities of the store. */
  class RateStore {
    var dailyPrices: map<nat, Bucket>
    var fifteenMinutePrices: map<nat, Bucket>
    var latestRates: map<string, nat>
    var rateUpdates: map<string, RateUpdate>
    var ratesUpdated: map<string, RatesUpdated>
    /** The DET rates folded into each bucket, in order. */
    ghost var dailyObserved: map<nat, seq<int>>
    ghost var fifteenMinuteObserved: map<nat, seq<int>>

    ghost predicate Valid()
      reads this
    {
      Tracks(dailyPrices, dailyObserved) && Tracks(fifteenMinutePrices, fifteenMinuteObserved)
    }

    constructor ()
      ensures Valid()
      ensures dailyPrices == map[] && fifteenMinutePrices == map[] && latestRates == map[]
      ensures rateUpdates == map[] && ratesUpdated == map[]
    {
      dailyPrices, fifteenMinutePrices := map[], map[];
      latestRates, rateUpdates, ratesUpdated := map[], map[], map[];
      dailyObserved, fifteenMinuteObserved := map[], map[];
    }

    /** `handleDETPrices`: fold one DET rate into its day bucket and its quarter-hour bucket;
        no other bucket changes. */
    method HandleDETPrices(timestamp: nat, rate: nat)
      requires Valid()
      modifies this`dailyPrices, this`fifteenMinutePrices, this`dailyObserved, this`fifteenMinuteObserved
      ensures Valid()
      ensures dailyPrices == old(dailyPrices)[timestamp / SecondsPerDay :=
        Observe(LoadBucket(old(dailyPrices), timestamp / SecondsPerDay), rate)]
      ensures fifteenMinutePrices == old(fifteenMinutePrices)[timestamp / SecondsPerFifteenMinutes :=
        Observe(LoadBucket(old(fifteenMinutePrices), timestamp / SecondsPerFifteenMinutes), rate)]
      ensures dailyObserved == Extend(old(dailyObserved), timestamp / SecondsPerDay, [rate])
      ensures fifteenMinuteObserved == Extend(old(fifteenMinuteObserved), timestamp / SecondsPerFifteenMinutes, [rate])
    {
      var dayId := timestamp / SecondsPerDay;
      var fifteenMinuteId := timestamp / SecondsPerFifteenMinutes;
      var daily := EmptyBucket;
      if dayId in dailyPrices {
        daily := dailyPrices[dayId];
      }
      var fifteenMinute := EmptyBucket;
      if fifteenMinuteId in fifteenMinutePrices {
        fifteenMinute := fifteenMinutePrices[fifteenMinuteId];
      }
      daily := daily.(count := daily.count + 1);
      daily := daily.(averagePrice := CalculateAveragePrice(daily.averagePrice, rate, daily.count));
      fifteenMinute := fifteenMinute.(count := fifteenMinute.count + 1);
      fifteenMinute := fifteenMinute.(averagePrice :=
        CalculateAveragePrice(fifteenMinute.averagePrice, rate, fifteenMinute.count));
      assert daily == Observe(LoadBucket(dailyPrices, dayId), rate);
      assert fifteenMinute == Observe(LoadBucket(fifteenMinutePrices, fifteenMinuteId), rate);
      ObserveTracks(dailyPrices, dailyObserved, dayId, rate);
      ObserveTracks(fifteenMinutePrices, fifteenMinuteObserved, fifteenMinuteId, rate);
      dailyPrices := dailyPrices[dayId := daily];
      fifteenMinutePrices := fifteenMinutePrices[fifteenMinuteId := fifteenMinute];
      dailyObserved := Extend(dailyObserved, dayId, [rate]);
      fifteenMinuteObserved := Extend(fifteenMinuteObserved, fifteenMinuteId, [rate]);
    }

    /** `addLatestRate`: create or overwrite the latest rate of `synth`. */
    method AddLatestRate(synth: string, rate: nat)
      modifies this`latestRates
      ensures latestRates == old(latestRates)[synth := rate]
    {
      latestRates := latestRates[synth := rate];
    }

    /** `addDollar`: store 10^18 under `dollarId` if nothing is stored there; never overwrite. */
    method AddDollar(dollarId: string)
      modifies this`latestRates
      ensures dollarId in old(latestRates) ==> latestRates == old(latestRates)
      ensures dollarId !in old(latestRates) ==> latestRates == old(latestRates)[dollarId := OneDollar]
      ensures latestRates == SeedDollar(old(latestRates), dollarId)
    {
      if dollarId !in latestRates {
        latestRates := latestRates[dollarId := OneDollar];
      }
    }

    /** One index of the `handleRatesUpdated` loop: for a non-empty key write the `RateUpdate`
        `txHash-key`, fold a `DET` rate into the buckets and update the latest rate; an empty
        key changes nothing. */
    method RecordRate(txHash: string, blockNumber: nat, timestamp: nat, key: string, rate: nat)
      requires Valid()
      modifies this`rateUpdates, this`latestRates, this`dailyPrices, this`fifteenMinutePrices,
        this`dailyObserved, this`fifteenMinuteObserved
      ensures Valid()
      ensures rateUpdates == Write(old(rateUpdates), txHash + "-", key, RateUpdate(blockNumber, timestamp, key, rate))
      ensures latestRates == Write(old(latestRates), "", key, rate)
      ensures key != "" ==> rateUpdates[txHash + "-" + key] == RateUpdate(blockNumber, timestamp, key, rate)
      ensures key != "" ==> key in latestRates && latestRates[key] == rate
      ensures dailyObserved == Extend(old(dailyObserved), timestamp / SecondsPerDay, Fed(key, rate))
      ensures fifteenMinuteObserved == Extend(old(fifteenMinuteObserved), timestamp / SecondsPerFifteenMinutes, Fed(key, rate))
    {
      if key != "" {
        rateUpdates := rateUpdates[txHash + "-" + key := RateUpdate(blockNumber, timestamp, key, rate)];
        if key == "DET" {
          HandleDETPrices(timestamp, rate);
        }
        AddLatestRate(key, rate);
      }
      assert "" + key == key;
      assert txHash + "-" + key == (txHash + "-") + key;
    }

    /** The loop of `handleRatesUpdated`: every index of the event, in order. The rates array
        must be at least as long as the keys array. */
    method RecordRates(ev: RatesEvent)
      requires Valid()
      requires |ev.newRates| >= |ev.currencyKeys|
      modifies this`rateUpdates, this`latestRates, this`dailyPrices, this`fifteenMinutePrices,
        this`dailyObserved, this`fifteenMinuteObserved
      ensures Valid()
      ensures latestRates == Upsert(old(latestRates), "", ev.currencyKeys, ev.newRates, |ev.currencyKeys|)
      ensures rateUpdates == Upsert(old(rateUpdates), ev.txHash + "-", ev.currencyKeys, UpdateRecords(ev), |ev.currencyKeys|)
      ensures dailyObserved == Extend(old(dailyObserved), ev.timestamp / SecondsPerDay,
        DetRates(ev.currencyKeys, ev.newRates, |ev.currencyKeys|))
      ensures fifteenMinuteObserved == Extend(old(fifteenMinuteObserved), ev.timestamp / SecondsPerFifteenMinutes,
        DetRates(ev.currencyKeys, ev.newRates, |ev.currencyKeys|))
    {
      ghost var records := UpdateRecords(ev);
      var keys := ev.currencyKeys;
      var rates := ev.newRates;
      ghost var dayId := ev.timestamp / SecondsPerDay;
      ghost var fifteenMinuteId := ev.timestamp / SecondsPerFifteenMinutes;
      for i := 0 to |keys|
        invariant Valid()
        invariant latestRates == Upsert(old(latestRates), "", keys, rates, i)
        invariant rateUpdates == Upsert(old(rateUpdates), ev.txHash + "-", keys, records, i)
        invariant dailyObserved == Extend(old(dailyObserved), dayId, DetRates(keys, rates, i))
        invariant fifteenMinuteObserved == Extend(old(fifteenMinuteObserved), fifteenMinuteId, DetRates(keys, rates, i))
      {
        DetRatesStep(old(dailyObserved), dayId, keys, rates, i);
        DetRatesStep(old(fifteenMinuteObserved), fifteenMinuteId, keys, rates, i);
        RecordRate(ev.txHash, ev.blockNumber, ev.timestamp, keys[i], rates[i]);
      }
    }

    /** `handleRatesUpdated`: seed the two dollar symbols, record the event, then for each
        index with a non-empty key write a `RateUpdate` keyed `txHash-key`, fold `DET` rates
        into the buckets and update the latest rate. */
    method HandleRatesUpdated(ev: RatesEvent)
      requires Valid()
      requires |ev.newRates| >= |ev.currencyKeys|
      modifies this
      ensures Valid()
      ensures ratesUpdated == old(ratesUpdated)[EventId(ev.txHash, ev.logIndex) :=
        RatesUpdated(ev.currencyKeys, ev.newRates, ev.timestamp, ev.blockNumber, ev.from, ev.gasPrice)]
      ensures latestRates == Upsert(SeedDollar(SeedDollar(old(latestRates), "dUSD"), "nUSD"),
        "", ev.currencyKeys, ev.newRates, |ev.currencyKeys|)
      ensures rateUpdates == Upsert(old(rateUpdates), ev.txHash + "-", ev.currencyKeys, UpdateRecords(ev), |ev.currencyKeys|)
      ensures dailyObserved == Extend(old(dailyObserved), ev.timestamp / SecondsPerDay,
        DetRates(ev.currencyKeys, ev.newRates, |ev.currencyKeys|))
      ensures fifteenMinuteObserved == Extend(old(fifteenMinuteObserved), ev.timestamp / SecondsPerFifteenMinutes,
        DetRates(ev.currencyKeys, ev.newRates, |ev.currencyKeys|))
    {
      AddDollar("dUSD");
      AddDollar("nUSD");
      ratesUpdated := ratesUpdated[EventId(ev.txHash, ev.logIndex) :=
        RatesUpdated(ev.currencyKeys, ev.newRates, ev.timestamp, ev.blockNumber, ev.from, ev.gasPrice)];
      RecordRates(ev);
    }
  }

  /** After the loop the latest rate of a key carried by the event is the rate at the last
      index with that key (a `dUSD` key overwrites the seeded dollar). */
  lemma LatestRateIsLastOccurrence(prior: map<string, nat>, ev: RatesEvent, j: nat)
    requires |ev.newRates| >= |ev.currencyKeys| && j < |ev.currencyKeys| && ev.currencyKeys[j] != ""
    requires forall i :: j < i < |ev.currencyKeys| ==> ev.currencyKeys[i] != ev.currencyKeys[j]
    ensures var after := Upsert(SeedDollar(SeedDollar(prior, "dUSD"), "nUSD"), "", ev.currencyKeys, ev.newRates, |ev.currencyKeys|);
      ev.currencyKeys[j] in after && after[ev.currencyKeys[j]] == ev.newRates[j]
  {
    UpsertLastWins(SeedDollar(SeedDollar(prior, "dUSD"), "nUSD"), "", ev.currencyKeys, ev.newRates, |ev.currencyKeys|, j);
    assert "" + ev.currencyKeys[j] == ev.currencyKeys[j];
  }

  /** A symbol the event does not carry keeps its prior latest rate (after dollar seeding). */
  lemma LatestRateOfAbsentKey(prior: map<string, nat>, ev: RatesEvent, k: string)
    requires |ev.newRates| >= |ev.currencyKeys|
    requires forall i :: 0 <= i < |ev.currencyKeys| ==> ev.currencyKeys[i] != k
    ensures var seeded := SeedDollar(SeedDollar(prior, "dUSD"), "nUSD");
      var after := Upsert(seeded, "", ev.currencyKeys, ev.newRates, |ev.currencyKeys|);
      (k in after <==> k in seeded) && (k in seeded ==> after[k] == seeded[k])
  {
    forall i | 0 <= i < |ev.currencyKeys| && ev.currencyKeys[i] != ""
      ensures "" + ev.currencyKeys[i] != k
    {
      assert "" + ev.currencyKeys[i] == ev.currencyKeys[i];
    }
    UpsertUntouched(SeedDollar(SeedDollar(prior, "dUSD"), "nUSD"), "", ev.currencyKeys, ev.newRates, |ev.currencyKeys|, k);
  }
}
