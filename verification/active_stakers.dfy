/** The active-staker bookkeeping of `trackActiveStakers` (src/dtrade-mapping.ts), as a
    transition on the three entity types it touches: the `ActiveStaker` membership set, the
    `TotalActiveStaker('1')` counter and the per-day `TotalDailyActiveStaker` snapshots. */
module ActiveStakers {
  import opened GraphValues

  /** The staker entities: members by account, the singleton counter (absent until first
      saved) and the daily snapshots by day id. */
  datatype Stakers = Stakers(members: set<string>, total: Option<int>, daily: map<nat, int>)

  /** The counter as the handler sees it: `loadTotalActiveStaker` gives 0 when none is stored. */
  function TotalCount(s: Stakers): int
  {
    if s.total.Some? then s.total.value else 0
  }

  /** The counter agrees with the membership set. */
  ghost predicate Consistent(s: Stakers)
  {
    TotalCount(s) == |s.members|
  }

  /** One `trackActiveStakers(event, isBurn)` call with the account's debt balance already read.
      A burn with zero debt by a member removes it and counts one down; a mint by a non-member
      adds it and counts one up; the counter is saved only on such a transition, and nothing
      else changes membership or the counter. The snapshot of
      the day is written only when the day has none, with the counter after the transition. */
  function Step(s: Stakers, account: string, timestamp: nat, accountDebtBalance: int, isBurn: bool): (r: Stakers)
    ensures account in r.members <==> (if isBurn then account in s.members && accountDebtBalance != 0 else true)
    ensures r.members - {account} == s.members - {account}
    ensures TotalCount(r) - |r.members| == TotalCount(s) - |s.members|
    ensures r.members == s.members ==> r.total == s.total
    ensures r.members != s.members ==> r.total == Some(TotalCount(s) + |r.members| - |s.members|)
    ensures Consistent(s) ==> Consistent(r)
    ensures timestamp / SecondsPerDay in s.daily ==> r.daily == s.daily
    ensures timestamp / SecondsPerDay !in s.daily ==> r.daily == s.daily[timestamp / SecondsPerDay := TotalCount(r)]
  {
    var dayId := timestamp / SecondsPerDay;
    var count := TotalCount(s);
    var next :=
      if isBurn && account in s.members && accountDebtBalance == 0 then
        assert |s.members - {account}| == |s.members| - 1;
        s.(members := s.members - {account}, total := Some(count - 1))
      else if !isBurn && account !in s.members then
        assert |s.members + {account}| == |s.members| + 1;
        s.(members := s.members + {account}, total := Some(count + 1))
      else
        s;
    if dayId in s.daily then next else next.(daily := s.daily[dayId := TotalCount(next)])
  }

  /** The arguments of one `trackActiveStakers` call. */
  datatype StakerCall = StakerCall(account: string, timestamp: nat, accountDebtBalance: int, isBurn: bool)

  /** The entities after a sequence of calls, in order. */
  function Replay(s: Stakers, calls: seq<StakerCall>): Stakers
    decreases |calls|
  {
    if calls == [] then s
    else Replay(Step(s, calls[0].account, calls[0].timestamp, calls[0].accountDebtBalance, calls[0].isBurn), calls[1..])
  }

  /** Counter and set move together over any sequence of calls; starting consistent (as from an
      empty store), every prefix of the sequence ends consistent. */
  lemma {:induction false} ReplayKeepsCount(s: Stakers, calls: seq<StakerCall>)
    ensures TotalCount(Replay(s, calls)) - |Replay(s, calls).members| == TotalCount(s) - |s.members|
    ensures Consistent(s) ==> Consistent(Replay(s, calls))
    decreases |calls|
  {
    if calls != [] {
      ReplayKeepsCount(Step(s, calls[0].account, calls[0].timestamp, calls[0].accountDebtBalance, calls[0].isBurn), calls[1..]);
    }
  }

  /** Once a day has a snapshot no later call changes it. */
  lemma {:induction false} SnapshotWrittenOnce(s: Stakers, calls: seq<StakerCall>, dayId: nat)
    requires dayId in s.daily
    ensures dayId in Replay(s, calls).daily && Replay(s, calls).daily[dayId] == s.daily[dayId]
    decreases |calls|
  {
    if calls != [] {
      var next := Step(s, calls[0].account, calls[0].timestamp, calls[0].accountDebtBalance, calls[0].isBurn);
      assert dayId in next.daily && next.daily[dayId] == s.daily[dayId];
      SnapshotWrittenOnce(next, calls[1..], dayId);
    }
  }

  /** An empty store is consistent, so every reachable staker state is. */
  lemma ReachableIsConsistent(calls: seq<StakerCall>)
    ensures Consistent(Replay(Stakers({}, None, map[]), calls))
  {
    ReplayKeepsCount(Stakers({}, None, map[]), calls);
  }
}
