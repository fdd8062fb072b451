/**
 The reports of an API told from its calls alone: the calls that count fall into groups, one after the
 other, and each report says how its group went.
 */
module CallReports {
  import opened CallStatistics
  import opened Integers
  import opened Ordering

  // ---------- groups of calls ----------

  /** The groups that are reported, and the calls since then. */
  datatype Groups = Groups(reported: seq<seq<Call>>, open: seq<Call>)

  predicate Belongs(call: Call, api: string) {
    call.api == api && call.now >= call.start
  }

  /** When the latest group was reported: when its last call ended. */
  function LatestReport(g: Groups): int {
    if g.reported == [] || g.reported[|g.reported| - 1] == [] then 0
    else
      var group := g.reported[|g.reported| - 1];
      group[|group| - 1].now
  }

  /** A call closes its group when no report at a time other than 0 is less than a minute old. */
  function Grouped(calls: seq<Call>, api: string): Groups {
    if calls == [] then Groups([], [])
    else
      var call := calls[|calls| - 1];
      var g := Grouped(calls[..|calls| - 1], api);
      if !Belongs(call, api) then g
      else if LatestReport(g) != 0 && call.now - LatestReport(g) < 60000 then Groups(g.reported, g.open + [call])
      else Groups(g.reported + [g.open + [call]], [])
  }

  function Flat(groups: seq<seq<Call>>): seq<Call> {
    if groups == [] then [] else Flat(groups[..|groups| - 1]) + groups[|groups| - 1]
  }

  function CallsOf(calls: seq<Call>, api: string): seq<Call> {
    if calls == [] then []
    else
      var call := calls[|calls| - 1];
      CallsOf(calls[..|calls| - 1], api) + if Belongs(call, api) then [call] else []
  }

  /** Every call that counts is in one group, in its place. */
  lemma {:induction false} GroupsHoldTheCalls(calls: seq<Call>, api: string)
    ensures
      var g := Grouped(calls, api);
      && Flat(g.reported) + g.open == CallsOf(calls, api)
      && forall i :: 0 <= i < |g.reported| ==> g.reported[i] != []
  {
    if calls == [] {
    } else {
      var before, call := calls[..|calls| - 1], calls[|calls| - 1];
      var g, g' := Grouped(before, api), Grouped(calls, api);
      GroupsHoldTheCalls(before, api);
      if Belongs(call, api) {
        assert Flat(g.reported) + (g.open + [call]) == CallsOf(before, api) + [call];
        if g'.open == [] {
          assert g'.reported[..|g.reported|] == g.reported;
        }
      }
    }
  }

  // ---------- what an accumulator says of a group ----------

  function Cost(call: Call): int {
    call.now - call.start
  }

  function TotalCost(group: seq<Call>): int {
    if group == [] then 0 else TotalCost(group[..|group| - 1]) + Cost(group[|group| - 1])
  }

  /** How many calls of the group have returned the code. */
  function Number(group: seq<Call>, code: int): nat {
    if group == [] then 0
    else Number(group[..|group| - 1], code) + if group[|group| - 1].errCode == code then 1 else 0
  }

  /** When the first call of the group began; a call that began at time 0 is passed over. */
  function BeginOf(group: seq<Call>): int {
    if group == [] then 0
    else
      var earlier := BeginOf(group[..|group| - 1]);
      if earlier != 0 then earlier else group[|group| - 1].start
  }

  ghost predicate Describes(info: HaEventInfo, group: seq<Call>) {
    && |info.runTime| == |group|
    && (forall i :: 0 <= i < |group| ==> info.runTime[i] == Cost(group[i]))
    && info.sumTime == TotalCost(group)
    && info.window.beginTime == BeginOf(group)
    && info.results.succCount == Number(group, 0)
    && 0 !in info.results.errCodes
    && (forall code :: code != 0 ==>
      (code in info.results.errCodes <==> Number(group, code) > 0) && ErrCount(info, code) == Number(group, code))
  }

  lemma OneMoreCall(info: HaEventInfo, group: seq<Call>, call: Call)
    requires Describes(info, group)
    ensures Describes(Accumulate(info, call), group + [call])
  {
    var longer := group + [call];
    assert longer[..|group|] == group;
    forall code
      ensures Number(longer, code) == Number(group, code) + if call.errCode == code then 1 else 0
    {
    }
  }

  lemma NoCalls(info: HaEventInfo)
    requires info == FRESH || exists now :: info == Cleared(now)
    ensures Describes(info, [])
  {
  }

  /** The hand-overs of an API. */
  function HandedOf(handed: seq<Handed>, api: string): seq<Handed> {
    if handed == [] then []
    else
      var last := handed[|handed| - 1];
      HandedOf(handed[..|handed| - 1], api) + if last.api == api then [last] else []
  }

  ghost predicate IsReportOf(h: Handed, api: string, group: seq<Call>) {
    group != [] && h.api == api && h.at == group[|group| - 1].now && Describes(h.info, group)
  }

  ghost predicate Matches(s: Stats, api: string, g: Groups) {
    var handed := HandedOf(s.handed, api);
    && |handed| == |g.reported|
    && (forall i :: 0 <= i < |handed| ==> IsReportOf(handed[i], api, g.reported[i]))
    && Describes(Pending(s, api), g.open)
    && Pending(s, api).window.lastReportTime == LatestReport(g)
  }

  lemma OneMoreHanded(handed: seq<Handed>, h: Handed, api: string)
    ensures HandedOf(handed + [h], api) == HandedOf(handed, api) + if h.api == api then [h] else []
  {
    assert (handed + [h])[..|handed|] == handed;
  }

  lemma ForeignCallMatches(s: Stats, api: string, g: Groups, call: Call)
    requires Matches(s, api, g) && !Belongs(call, api)
    ensures Matches(CountCall(s, call), api, g)
  {
    hide Describes, Accumulate, HandedOf;
    if Counts(call) {
      var info := Accumulate(Pending(s, call.api), call);
      OneMoreHanded(s.handed, Handed(call.api, call.now, info), api);
      assert HandedOf(s.handed, api) + [] == HandedOf(s.handed, api);
    }
  }

  lemma OwnCallMatches(s: Stats, api: string, g: Groups, call: Call)
    requires Matches(s, api, g) && Belongs(call, api)
    ensures Matches(CountCall(s, call), api,
      if LatestReport(g) != 0 && call.now - LatestReport(g) < 60000 then Groups(g.reported, g.open + [call])
      else Groups(g.reported + [g.open + [call]], []))
  {
    hide Describes, HandedOf;
    var info := Accumulate(Pending(s, api), call);
    OneMoreCall(Pending(s, api), g.open, call);
    if Due(info, call.now) {
      OneMoreHanded(s.handed, Handed(api, call.now, info), api);
      NoCalls(Cleared(call.now));
      var handed, reported := HandedOf(s.handed, api), g.reported + [g.open + [call]];
      forall i | 0 <= i < |reported|
        ensures IsReportOf((handed + [Handed(api, call.now, info)])[i], api, reported[i])
      {
        if i < |handed| {
          assert IsReportOf(handed[i], api, g.reported[i]);
        }
      }
    }
  }

  lemma CallMatches(s: Stats, api: string, g: Groups, calls: seq<Call>)
    requires calls != [] && Matches(s, api, g) && g == Grouped(calls[..|calls| - 1], api)
    ensures Matches(CountCall(s, calls[|calls| - 1]), api, Grouped(calls, api))
  {
    hide Matches, CountCall, LatestReport;
    var call := calls[|calls| - 1];
    if Belongs(call, api) {
      OwnCallMatches(s, api, g, call);
    } else {
      ForeignCallMatches(s, api, g, call);
    }
  }

  /** The reports of an API are those of its groups, one for each and in their order; what is pending is the
      group that is still open. */
  lemma {:induction false} ReportsAreOfTheGroups(calls: seq<Call>, api: string)
    ensures Matches(CountAll(calls), api, Grouped(calls, api))
  {
    hide CountCall, Matches;
    if calls == [] {
      NothingMatches(api);
    } else {
      var before := calls[..|calls| - 1];
      ReportsAreOfTheGroups(before, api);
      CallMatches(CountAll(before), api, Grouped(before, api), calls);
    }
  }

  lemma NothingMatches(api: string)
    ensures Matches(EMPTY, api, Groups([], []))
  {
    NoCalls(FRESH);
  }

  // ---------- what a report says ----------

  ghost predicate Tells(e: AppEvent, api: string, group: seq<Call>) {
    && e.apiName == api
    && e.beginTime == BeginOf(group)
    && e.callTimes == ToInt32(|group|)
    && e.successTimes == Number(group, 0)
    && e.totalCostTime == TotalCost(group)
    && (forall call :: call in group ==> e.minCostTime <= Cost(call) <= e.maxCostTime)
    && (exists call :: call in group && Cost(call) == e.minCostTime)
    && (exists call :: call in group && Cost(call) == e.maxCostTime)
    && (forall code :: code in e.errorCodeTypes <==> code != 0 && Number(group, code) > 0)
    && (forall i, j :: 0 <= i < j < |e.errorCodeTypes| ==> e.errorCodeTypes[i] < e.errorCodeTypes[j])
    && |e.errorCodeNum| == |e.errorCodeTypes|
    && (forall k :: 0 <= k < |e.errorCodeTypes| ==> e.errorCodeNum[k] == Number(group, e.errorCodeTypes[k]))
  }

  lemma DescriptionTells(info: HaEventInfo, api: string, group: seq<Call>)
    requires Describes(info, group) && group != []
    ensures info.runTime != [] && Tells(EventOf(api, info), api, group)
  {
    hide SortedInts, Max, Min;
    var low, high := Min(info.runTime), Max(info.runTime);
    var i :| 0 <= i < |info.runTime| && info.runTime[i] == low;
    var j :| 0 <= j < |info.runTime| && info.runTime[j] == high;
    assert group[i] in group && Cost(group[i]) == low;
    assert group[j] in group && Cost(group[j]) == high;
    forall call | call in group
      ensures low <= Cost(call) <= high
    {
      var k :| 0 <= k < |group| && group[k] == call;
      assert info.runTime[k] == Cost(call);
    }
    var types := SortedInts(info.results.errCodes.Keys);
    forall k | 0 <= k < |types|
      ensures types[k] != 0 && CountsInOrder(types, info.results.errCodes)[k] == Number(group, types[k])
    {
      assert types[k] in types && ErrCount(info, types[k]) == Number(group, types[k]);
    }
  }

  /** Every report of every run tells about the calls of its group: which API, when the first began, how many
      they were, how many succeeded, how long they took at least, at most and together, and which error
      codes occurred how often. */
  lemma EveryReportTellsItsGroup(calls: seq<Call>, api: string, i: nat)
    requires i < |Grouped(calls, api).reported|
    ensures
      var handed := HandedOf(CountAll(calls).handed, api);
      && i < |handed| == |Grouped(calls, api).reported|
      && handed[i].info.runTime != []
      && Tells(EventOf(api, handed[i].info), api, Grouped(calls, api).reported[i])
  {
    hide CountAll, Grouped, EventOf, Describes, Tells;
    ReportsAreOfTheGroups(calls, api);
    var h := HandedOf(CountAll(calls).handed, api)[i];
    assert IsReportOf(h, api, Grouped(calls, api).reported[i]);
    DescriptionTells(h.info, api, Grouped(calls, api).reported[i]);
  }
}
