/**
 The per-API call statistics: every call is added to the accumulator of its API, and an accumulator
 is handed over for reporting, then cleared, at most once a minute.
 */
module CallStatistics {
  import opened Integers
  import opened Ordering
  import opened Wrappers

  const HA_REPORT_INTERVAL := 60000
  const HA_NOT_SUPPORT_PROCESS_ID := -200

  /** How the calls ended: the number of successes, and of each error code. */
  datatype Results = Results(succCount: int, errCodes: map<int, int>)

  /** When the first call of the window began (0: none yet), and when the API was last reported (0: never). */
  datatype Window = Window(beginTime: int, lastReportTime: int)

  /** The accumulator of one API.  Its two error arrays are only filled in the copy that is reported. */
  datatype HaEventInfo = HaEventInfo(runTime: seq<int>, sumTime: int, results: Results, window: Window)

  const FRESH: HaEventInfo := HaEventInfo([], 0, Results(0, map[]), Window(0, 0))

  /** One finished call: its API, when it began and ended, and the code it returned. */
  datatype Call = Call(api: string, start: int, now: int, errCode: int)

  /** An accumulator handed over for reporting, and when. */
  datatype Handed = Handed(api: string, at: int, info: HaEventInfo)

  datatype Stats = Stats(pending: map<string, HaEventInfo>, handed: seq<Handed>)

  const EMPTY: Stats := Stats(map[], [])

  // ---------- one call ----------

  /** Calls that seem to end before they began are not counted. */
  predicate Counts(call: Call) {
    call.now - call.start >= 0
  }

  function CountIn(errCodes: map<int, int>, code: int): int {
    if code in errCodes then errCodes[code] else 0
  }

  function OneMore(errCodes: map<int, int>, code: int): map<int, int> {
    errCodes[code := CountIn(errCodes, code) + 1]
  }

  function ErrCount(info: HaEventInfo, code: int): int {
    CountIn(info.results.errCodes, code)
  }

  function Accumulate(info: HaEventInfo, call: Call): HaEventInfo {
    var cost := call.now - call.start;
    info.(runTime := info.runTime + [cost],
          sumTime := info.sumTime + cost,
          window := if info.window.beginTime == 0 then info.window.(beginTime := call.start) else info.window,
          results := if call.errCode == 0 then info.results.(succCount := info.results.succCount + 1)
                     else info.results.(errCodes := OneMore(info.results.errCodes, call.errCode)))
  }

  predicate Due(info: HaEventInfo, now: int) {
    info.window.lastReportTime == 0 || now - info.window.lastReportTime >= HA_REPORT_INTERVAL
  }

  function Cleared(now: int): HaEventInfo {
    HaEventInfo([], 0, Results(0, map[]), Window(0, now))
  }

  function Pending(s: Stats, api: string): HaEventInfo {
    if api in s.pending then s.pending[api] else FRESH
  }

  function CountCall(s: Stats, call: Call): Stats {
    if !Counts(call) then
      s
    else
      var info := Accumulate(Pending(s, call.api), call);
      if Due(info, call.now) then
        Stats(s.pending[call.api := Cleared(call.now)], s.handed + [Handed(call.api, call.now, info)])
      else
        Stats(s.pending[call.api := info], s.handed)
  }

  function CountAll(calls: seq<Call>): Stats {
    if calls == [] then EMPTY else CountCall(CountAll(calls[..|calls| - 1]), calls[|calls| - 1])
  }

  // ---------- the reported event ----------

  datatype AppEvent = AppEvent(apiName: string, beginTime: int, callTimes: int, successTimes: int,
    maxCostTime: int, minCostTime: int, totalCostTime: int, errorCodeTypes: seq<int>, errorCodeNum: seq<int>)

  function Max(s: seq<int>): (m: int)
    requires s != []
    ensures m in s && forall i :: 0 <= i < |s| ==> s[i] <= m
  {
    if |s| == 1 then s[0]
    else
      var m := Max(s[1..]);
      if m > s[0] then m else s[0]
  }

  function Min(s: seq<int>): (m: int)
    requires s != []
    ensures m in s && forall i :: 0 <= i < |s| ==> m <= s[i]
  {
    if |s| == 1 then s[0]
    else
      var m := Min(s[1..]);
      if m < s[0] then m else s[0]
  }

  /** The counts of the error codes, in the order of the codes. */
  function CountsInOrder(keys: seq<int>, errCodes: map<int, int>): (nums: seq<int>)
    requires forall i :: 0 <= i < |keys| ==> keys[i] in errCodes
    ensures |nums| == |keys| && forall i :: 0 <= i < |keys| ==> nums[i] == errCodes[keys[i]]
  {
    seq(|keys|, i requires 0 <= i < |keys| => errCodes[keys[i]])
  }

  function EventOf(api: string, info: HaEventInfo): AppEvent
    requires info.runTime != []
  {
    var types := SortedInts(info.results.errCodes.Keys);
    AppEvent(api, info.window.beginTime, ToInt32(|info.runTime|), info.results.succCount,
      Max(info.runTime), Min(info.runTime), info.sumTime, types, CountsInOrder(types, info.results.errCodes))
  }

  /** Walks the error codes in the order of the map. */
  method FillErrorArrays(errCodes: map<int, int>) returns (errCodeType: seq<int>, errCodeNum: seq<int>)
    ensures errCodeType == SortedInts(errCodes.Keys)
    ensures |errCodeNum| == |errCodeType|
    ensures forall i :: 0 <= i < |errCodeType| ==>
      errCodeType[i] in errCodes && errCodeNum[i] == errCodes[errCodeType[i]]
  {
    hide SortedInts;
    var keys := SortedInts(errCodes.Keys);
    errCodeType, errCodeNum := [], [];
    for i := 0 to |keys|
      invariant errCodeType == keys[..i] && |errCodeNum| == i
      invariant forall j :: 0 <= j < i ==> keys[j] in errCodes && errCodeNum[j] == errCodes[keys[j]]
    {
      assert keys[i] in keys;
      errCodeType := errCodeType + [keys[i]];
      errCodeNum := errCodeNum + [errCodes[keys[i]]];
    }
  }

  /** The statements that add one call to its accumulator. */
  method AddCall(eventInfo: HaEventInfo, startTime: int, errCode: int, currentTime: int, ghost apiName: string)
    returns (info: HaEventInfo)
    ensures info == Accumulate(eventInfo, Call(apiName, startTime, currentTime, errCode))
    ensures info.runTime != []
  {
    info := eventInfo;
    info := info.(runTime := info.runTime + [currentTime - startTime]);
    info := info.(sumTime := info.sumTime + (currentTime - startTime));
    if info.window.beginTime == 0 {
      info := info.(window := info.window.(beginTime := startTime));
    }
    if errCode == 0 {
      info := info.(results := info.results.(succCount := info.results.succCount + 1));
    } else {
      var errCodes := info.results.errCodes;
      var seen := if errCode in errCodes then errCodes[errCode] else 0;
      errCodes := errCodes[errCode := if seen == 0 then 1 else seen + 1];
      info := info.(results := info.results.(errCodes := errCodes));
    }
  }

  /** The processor is asked for until it is known. */
  function ProcessorAfter(processorId: int, answer: Option<int>): int {
    if processorId == -1 && answer.Some? then answer.value else processorId
  }

  lemma {:induction false} ProcessorIsTheFirstAnswer(answers: seq<Option<int>>)
    ensures
      var id := ProcessorAfterAll(answers);
      && (id == -1 <==> forall i :: 0 <= i < |answers| && answers[i].Some? ==> answers[i].value == -1)
      && (id != -1 ==> exists i :: IsFirstAnswer(answers, id, i))
  {
    if answers == [] {
    } else {
      var n := |answers| - 1;
      var before, id := ProcessorAfterAll(answers[..n]), ProcessorAfterAll(answers);
      ProcessorIsTheFirstAnswer(answers[..n]);
      if before != -1 {
        var i :| IsFirstAnswer(answers[..n], before, i);
        assert IsFirstAnswer(answers, id, i);
      } else if id != -1 {
        assert IsFirstAnswer(answers, id, n);
      }
    }
  }

  ghost predicate IsFirstAnswer(answers: seq<Option<int>>, id: int, i: int) {
    && 0 <= i < |answers| && answers[i] == Some(id)
    && forall j :: 0 <= j < i && answers[j].Some? ==> answers[j].value == -1
  }

  function ProcessorAfterAll(answers: seq<Option<int>>): int {
    if answers == [] then -1 else ProcessorAfter(ProcessorAfterAll(answers[..|answers| - 1]), answers[|answers| - 1])
  }

  class LocationHiAppEvent {
    var haEventInfoMap: map<string, HaEventInfo>
    /** -1 until the reporting processor is known. */
    var processorId: int
    /** What has been handed to `WriteCallStatusEvent` so far. */
    ghost var handed: seq<Handed>
    /** What has reached the event log. */
    var written: seq<AppEvent>

    ghost function View(): Stats
      reads this
    {
      Stats(haEventInfoMap, handed)
    }

    constructor ()
      ensures View() == EMPTY && processorId == -1 && written == []
    {
      haEventInfoMap, processorId, handed, written := map[], -1, [], [];
    }

    /** Asks once for a processor; the answer is absent when the configuration has no application id. */
    method AddProcessor(answer: Option<int>)
      modifies this`processorId
      ensures processorId == ProcessorAfter(old(processorId), answer)
    {
      if processorId != -1 {
        return;
      }
      if answer.None? {
        return;
      }
      processorId := answer.value;
    }

    method CountEventTimeAndNum(apiName: string, startTime: int, errCode: int, currentTime: int, answer: Option<int>)
      modifies this
      ensures View() == CountCall(old(View()), Call(apiName, startTime, currentTime, errCode))
      ensures handed == old(handed) ==> written == old(written) && processorId == old(processorId)
      ensures handed != old(handed) ==> processorId == ProcessorAfter(old(processorId), answer)
      ensures handed != old(handed) ==>
        handed != [] && handed[|handed| - 1].info.runTime != [] && written ==
          if processorId == HA_NOT_SUPPORT_PROCESS_ID then old(written)
          else old(written) + [EventOf(apiName, handed[|handed| - 1].info)]
    {
      hide Accumulate, EventOf;
      if currentTime - startTime < 0 {
        return;
      }
      var eventInfo := FRESH;
      if apiName in haEventInfoMap {
        eventInfo := haEventInfoMap[apiName];
      }
      eventInfo := AddCall(eventInfo, startTime, errCode, currentTime, apiName);
      haEventInfoMap := haEventInfoMap[apiName := eventInfo];
      if eventInfo.window.lastReportTime == 0 || currentTime - eventInfo.window.lastReportTime >= HA_REPORT_INTERVAL {
        WriteCallStatusEvent(apiName, eventInfo, answer, currentTime);
        eventInfo := HaEventInfo([], 0, Results(0, map[]), Window(0, currentTime));
        haEventInfoMap := haEventInfoMap[apiName := eventInfo];
        assert haEventInfoMap == old(haEventInfoMap)[apiName := eventInfo];
      }
    }

    method WriteCallStatusEvent(apiName: string, eventInfo: HaEventInfo, answer: Option<int>, ghost at: int)
      requires eventInfo.runTime != []
      modifies this`handed, this`written, this`processorId
      ensures handed == old(handed) + [Handed(apiName, at, eventInfo)]
      ensures processorId == ProcessorAfter(old(processorId), answer)
      ensures written ==
        if processorId == HA_NOT_SUPPORT_PROCESS_ID then old(written) else old(written) + [EventOf(apiName, eventInfo)]
    {
      handed := handed + [Handed(apiName, at, eventInfo)];
      AddProcessor(answer);
      if processorId == HA_NOT_SUPPORT_PROCESS_ID {
        return;
      }
      var errCodeType, errCodeNum := FillErrorArrays(eventInfo.results.errCodes);
      var event := AppEvent(
        apiName, eventInfo.window.beginTime, ToInt32(|eventInfo.runTime|), eventInfo.results.succCount,
        Max(eventInfo.runTime), Min(eventInfo.runTime), eventInfo.sumTime, errCodeType, errCodeNum);
      assert errCodeNum == CountsInOrder(errCodeType, eventInfo.results.errCodes);
      assert event == EventOf(apiName, eventInfo);
      written := written + [event];
    }
  }

  // ---------- conservation ----------

  /** The part of a quantity that the recorded calls of an API bring in. */
  function Recorded(calls: seq<Call>, api: string, per: Call -> int): int {
    if calls == [] then 0
    else
      var last := calls[|calls| - 1];
      Recorded(calls[..|calls| - 1], api, per) + if last.api == api && Counts(last) then per(last) else 0
  }

  /** The part of a quantity that has been handed over for an API. */
  function HandedOver(handed: seq<Handed>, api: string, held: HaEventInfo -> int): int {
    if handed == [] then 0
    else
      var last := handed[|handed| - 1];
      HandedOver(handed[..|handed| - 1], api, held) + if last.api == api then held(last.info) else 0
  }

  /** A quantity that an accumulator holds and that each call adds to. */
  ghost predicate Additive(per: Call -> int, held: HaEventInfo -> int) {
    && (forall info, call :: held(Accumulate(info, call)) == held(info) + per(call))
    && (forall now :: held(Cleared(now)) == 0)
  }

  /** Nothing is lost and nothing is counted twice, whatever the run. */
  lemma {:induction false} QuantityIsConserved(
      calls: seq<Call>, api: string, per: Call -> int, held: HaEventInfo -> int)
    requires Additive(per, held)
    ensures
      var s := CountAll(calls);
      Recorded(calls, api, per) == HandedOver(s.handed, api, held) + held(Pending(s, api))
  {
    assert held(Cleared(0)) == 0;
    if calls == [] {
    } else {
      var before := calls[..|calls| - 1];
      QuantityIsConserved(before, api, per, held);
      var s, s' := CountAll(before), CountAll(calls);
      if s'.handed != s.handed {
        assert s'.handed[..|s'.handed| - 1] == s.handed;
      }
    }
  }

  /** Calls, successes, every error code and the total time, all at once. */
  lemma StatisticsAreConserved(calls: seq<Call>, api: string, code: int)
    requires code != 0
    ensures
      var s := CountAll(calls);
      var p := Pending(s, api);
      && Recorded(calls, api, c => 1) == HandedOver(s.handed, api, (i: HaEventInfo) => |i.runTime|) + |p.runTime|
      && Recorded(calls, api, (c: Call) => if c.errCode == 0 then 1 else 0)
         == HandedOver(s.handed, api, (i: HaEventInfo) => i.results.succCount) + p.results.succCount
      && Recorded(calls, api, (c: Call) => if c.errCode == code then 1 else 0)
         == HandedOver(s.handed, api, (i: HaEventInfo) => ErrCount(i, code)) + ErrCount(p, code)
      && Recorded(calls, api, (c: Call) => c.now - c.start)
         == HandedOver(s.handed, api, (i: HaEventInfo) => i.sumTime) + p.sumTime
  {
    QuantityIsConserved(calls, api, c => 1, (i: HaEventInfo) => |i.runTime|);
    QuantityIsConserved(calls, api, (c: Call) => if c.errCode == 0 then 1 else 0,
      (i: HaEventInfo) => i.results.succCount);
    QuantityIsConserved(calls, api, (c: Call) => if c.errCode == code then 1 else 0,
      (i: HaEventInfo) => ErrCount(i, code));
    QuantityIsConserved(calls, api, (c: Call) => c.now - c.start, (i: HaEventInfo) => i.sumTime);
  }

  // ---------- every snapshot is balanced ----------

  function Sum(s: seq<int>): int {
    if s == [] then 0 else s[0] + Sum(s[1..])
  }

  lemma {:induction false} SumAppend(s: seq<int>, x: int)
    ensures Sum(s + [x]) == Sum(s) + x
  {
    if s == [] {
    } else {
      assert (s + [x])[1..] == s[1..] + [x];
      SumAppend(s[1..], x);
    }
  }

  ghost function SumOver(keys: set<int>, errCodes: map<int, int>): int {
    if keys == {} then 0
    else
      assert exists k :: k in keys by {
        var k := SomeElement(keys);
      }
      var k :| k in keys;
      CountIn(errCodes, k) + SumOver(keys - {k}, errCodes)
  }

  lemma {:induction false} SumOverTakeOut(keys: set<int>, k: int, errCodes: map<int, int>)
    requires k in keys
    ensures SumOver(keys, errCodes) == CountIn(errCodes, k) + SumOver(keys - {k}, errCodes)
  {
    var j :| j in keys && SumOver(keys, errCodes) == CountIn(errCodes, j) + SumOver(keys - {j}, errCodes);
    if j != k {
      SumOverTakeOut(keys - {j}, k, errCodes);
      SumOverTakeOut(keys - {k}, j, errCodes);
      assert keys - {j} - {k} == keys - {k} - {j};
    }
  }

  lemma {:induction false} SumOverAgree(keys: set<int>, a: map<int, int>, b: map<int, int>)
    requires forall k :: k in keys ==> CountIn(a, k) == CountIn(b, k)
    ensures SumOver(keys, a) == SumOver(keys, b)
  {
    if keys == {} {
    } else {
      var k := SomeElement(keys);
      SumOverTakeOut(keys, k, a);
      SumOverTakeOut(keys, k, b);
      SumOverAgree(keys - {k}, a, b);
    }
  }

  lemma OneMoreError(errCodes: map<int, int>, code: int)
    ensures
      var after := OneMore(errCodes, code);
      SumOver(after.Keys, after) == SumOver(errCodes.Keys, errCodes) + 1
  {
    var after := OneMore(errCodes, code);
    var rest := errCodes.Keys - {code};
    SumOverTakeOut(after.Keys, code, after);
    assert after.Keys - {code} == rest;
    SumOverAgree(rest, after, errCodes);
    if code in errCodes {
      SumOverTakeOut(errCodes.Keys, code, errCodes);
    } else {
      assert rest == errCodes.Keys;
    }
  }

  lemma {:induction false} SumInAnyOrder(order: seq<int>, errCodes: map<int, int>, keys: set<int>)
    requires forall k :: k in keys ==> k in order
    requires forall i :: 0 <= i < |order| ==> order[i] in keys && order[i] in errCodes
    requires forall i, j :: 0 <= i < j < |order| ==> order[i] != order[j]
    ensures Sum(CountsInOrder(order, errCodes)) == SumOver(keys, errCodes)
  {
    if order == [] {
      if keys != {} {
        var k := SomeElement(keys);
        assert false;
      }
    } else {
      var k := order[0];
      SumOverTakeOut(keys, k, errCodes);
      SumInAnyOrder(order[1..], errCodes, keys - {k});
      assert CountsInOrder(order, errCodes)[1..] == CountsInOrder(order[1..], errCodes);
    }
  }

  ghost predicate Balanced(info: HaEventInfo) {
    && |info.runTime| == info.results.succCount + SumOver(info.results.errCodes.Keys, info.results.errCodes)
    && info.sumTime == Sum(info.runTime)
    && (forall i :: 0 <= i < |info.runTime| ==> info.runTime[i] >= 0)
    && info.results.succCount >= 0
    && (forall e :: e in info.results.errCodes ==> info.results.errCodes[e] > 0)
  }

  lemma AccumulateKeepsBalance(info: HaEventInfo, call: Call)
    requires Balanced(info) && Counts(call)
    ensures Balanced(Accumulate(info, call)) && Accumulate(info, call).runTime != []
  {
    SumAppend(info.runTime, call.now - call.start);
    OneMoreError(info.results.errCodes, call.errCode);
  }

  ghost predicate AllBalanced(s: Stats) {
    && (forall api :: api in s.pending ==> Balanced(s.pending[api]))
    && (forall i :: 0 <= i < |s.handed| ==> Balanced(s.handed[i].info) && s.handed[i].info.runTime != [])
  }

  lemma {:induction false} RunsStayBalanced(calls: seq<Call>)
    ensures AllBalanced(CountAll(calls))
  {
    if calls == [] {
    } else {
      var before, last := calls[..|calls| - 1], calls[|calls| - 1];
      RunsStayBalanced(before);
      CallKeepsBalance(CountAll(before), last);
    }
  }

  lemma CallKeepsBalance(s: Stats, call: Call)
    requires AllBalanced(s)
    ensures AllBalanced(CountCall(s, call))
  {
    if Counts(call) {
      var s' := CountCall(s, call);
      var before := Pending(s, call.api);
      var info := Accumulate(before, call);
      assert Balanced(before);
      AccumulateKeepsBalance(before, call);
      forall api | api in s'.pending
        ensures Balanced(s'.pending[api])
      {
        if api != call.api {
          assert api in s.pending && s'.pending[api] == s.pending[api];
        } else {
          assert s'.pending[api] == info || s'.pending[api] == Cleared(call.now);
        }
      }
      forall i | 0 <= i < |s'.handed|
        ensures Balanced(s'.handed[i].info) && s'.handed[i].info.runTime != []
      {
        if i < |s.handed| {
          assert s'.handed[i] == s.handed[i];
        } else {
          assert s'.handed[i].info == info;
        }
      }
    }
  }

  lemma {:induction false} SumBetween(s: seq<int>, low: int, high: int)
    requires forall i :: 0 <= i < |s| ==> low <= s[i] <= high
    ensures |s| * low <= Sum(s) <= |s| * high
  {
    if s == [] {
    } else {
      SumBetween(s[1..], low, high);
      assert |s| * low == low + |s[1..]| * low;
      assert |s| * high == high + |s[1..]| * high;
    }
  }

  lemma ErrorArraysMatch(info: HaEventInfo)
    requires Balanced(info)
    ensures
      var types := SortedInts(info.results.errCodes.Keys);
      && (forall k :: 0 <= k < |types| ==> types[k] in info.results.errCodes && ErrCount(info, types[k]) > 0)
      && Sum(CountsInOrder(types, info.results.errCodes)) == |info.runTime| - info.results.succCount
  {
    var errCodes := info.results.errCodes;
    var types := SortedInts(errCodes.Keys);
    forall k | 0 <= k < |types|
      ensures types[k] in errCodes && ErrCount(info, types[k]) > 0
    {
      assert types[k] in types;
    }
    SumInAnyOrder(types, errCodes, errCodes.Keys);
  }

  /** What a reported event promises about the n calls behind it.  It tells n as a 32-bit number. */
  ghost predicate IsFaithful(api: string, info: HaEventInfo)
    requires info.runTime != []
  {
    var e, n := EventOf(api, info), |info.runTime|;
    && e.callTimes == ToInt32(n) && (n < TWO_TO_31 ==> e.callTimes == n)
    && n == e.successTimes + Sum(e.errorCodeNum)
    && |e.errorCodeTypes| == |e.errorCodeNum|
    && (forall k :: 0 <= k < |e.errorCodeTypes| ==> e.errorCodeNum[k] == ErrCount(info, e.errorCodeTypes[k]) > 0)
    && (forall code :: ErrCount(info, code) > 0 ==> code in e.errorCodeTypes)
    && n * e.minCostTime <= e.totalCostTime <= n * e.maxCostTime
  }

  lemma BalancedIsFaithful(api: string, info: HaEventInfo)
    requires Balanced(info) && info.runTime != []
    ensures IsFaithful(api, info)
  {
    hide SumOver, Sum, SortedInts;
    ErrorArraysMatch(info);
    SumBetween(info.runTime, Min(info.runTime), Max(info.runTime));
  }

  /** Every accumulator that any run hands over has calls in it and makes a faithful event. */
  lemma EverySnapshotIsFaithful(calls: seq<Call>, i: nat)
    requires i < |CountAll(calls).handed|
    ensures
      var h := CountAll(calls).handed[i];
      h.info.runTime != [] && IsFaithful(h.api, h.info)
  {
    RunsStayBalanced(calls);
    var h := CountAll(calls).handed[i];
    BalancedIsFaithful(h.api, h.info);
  }

  // ---------- how often an API is reported ----------

  /** When an API was handed over, in order. */
  function Times(handed: seq<Handed>, api: string): seq<int> {
    if handed == [] then []
    else
      var last := handed[|handed| - 1];
      Times(handed[..|handed| - 1], api) + if last.api == api then [last.at] else []
  }

  /** Neighbouring reports are a minute apart, except after one at time 0, which counts as no report. */
  ghost predicate Spaced(times: seq<int>) {
    forall i :: 0 < i < |times| ==> times[i - 1] == 0 || times[i] - times[i - 1] >= HA_REPORT_INTERVAL
  }

  lemma {:induction false} ReportsAreSpaced(calls: seq<Call>, api: string)
    ensures SpacedAndRemembered(CountAll(calls), api)
  {
    if calls == [] {
    } else {
      var before := calls[..|calls| - 1];
      ReportsAreSpaced(before, api);
      CallKeepsSpacing(CountAll(before), calls[|calls| - 1], api);
    }
  }

  /** The reports of an API are spaced and its accumulator remembers the latest. */
  ghost predicate SpacedAndRemembered(s: Stats, api: string) {
    var times := Times(s.handed, api);
    && Spaced(times)
    && Pending(s, api).window.lastReportTime == if times == [] then 0 else times[|times| - 1]
  }

  lemma TimesAfterOneCall(s: Stats, call: Call, api: string)
    requires Counts(call)
    ensures
      var s' := CountCall(s, call);
      var due := Due(Pending(s, call.api), call.now);
      && Times(s'.handed, api) == Times(s.handed, api) + (if due && call.api == api then [call.now] else [])
      && Pending(s', api).window.lastReportTime ==
         if due && call.api == api then call.now else Pending(s, api).window.lastReportTime
  {
    var s' := CountCall(s, call);
    if Due(Pending(s, call.api), call.now) {
      assert s'.handed[..|s'.handed| - 1] == s.handed;
    }
  }

  lemma CallKeepsSpacing(s: Stats, call: Call, api: string)
    requires SpacedAndRemembered(s, api)
    ensures SpacedAndRemembered(CountCall(s, call), api)
  {
    if Counts(call) {
      hide Times, CountCall, Pending;
      TimesAfterOneCall(s, call, api);
    }
  }

  /** A counted call is handed over exactly when its API has no report at a non-zero time yet, or
      the latest one is a minute old. */
  lemma HandedExactlyWhenDue(calls: seq<Call>, call: Call)
    requires Counts(call)
    ensures
      var times := Times(CountAll(calls).handed, call.api);
      var last := if times == [] then 0 else times[|times| - 1];
      Times(CountAll(calls + [call]).handed, call.api) ==
        if last == 0 || call.now - last >= HA_REPORT_INTERVAL then times + [call.now] else times
  {
    hide CountCall, Pending, Times, Spaced;
    assert (calls + [call])[..|calls|] == calls;
    ReportsAreSpaced(calls, call.api);
    TimesAfterOneCall(CountAll(calls), call, call.api);
  }

  /** A report follows another one sooner than after a minute exactly when that one was at time 0. */
  lemma SoonerExactlyAfterTimeZero(calls: seq<Call>, call: Call)
    requires
      var times := Times(CountAll(calls).handed, call.api);
      Counts(call) && times != [] && call.now - times[|times| - 1] < HA_REPORT_INTERVAL
    ensures
      var times := Times(CountAll(calls).handed, call.api);
      Times(CountAll(calls + [call]).handed, call.api) == times + [call.now] <==> times[|times| - 1] == 0
  {
    HandedExactlyWhenDue(calls, call);
  }

  /** How many of the times lie in a span. */
  function InSpan(times: seq<int>, from: int, to: int): nat {
    if times == [] then 0
    else
      var last := times[|times| - 1];
      InSpan(times[..|times| - 1], from, to) + if from <= last <= to then 1 else 0
  }

  /** Every report is at least a minute after the one before. */
  ghost predicate MinutesApart(times: seq<int>) {
    forall i :: 0 < i < |times| ==> times[i] - times[i - 1] >= HA_REPORT_INTERVAL
  }

  lemma {:induction false} TimesApartAreFew(times: seq<int>, from: int, to: int)
    requires MinutesApart(times)
    ensures InSpan(times, from, to) > 0 ==>
      && HA_REPORT_INTERVAL * (InSpan(times, from, to) - 1) <= to - from
      && HA_REPORT_INTERVAL * (InSpan(times, from, to) - 1) <= times[|times| - 1] - from
  {
    if times == [] {
    } else {
      var before := times[..|times| - 1];
      assert forall i :: 0 <= i < |before| ==> before[i] == times[i];
      TimesApartAreFew(before, from, to);
    }
  }

  /** No report at time 0 is followed by one before a minute has gone by. */
  ghost predicate NoEarlyFollower(times: seq<int>) {
    forall i :: 0 < i < |times| && times[i - 1] == 0 ==> times[i] >= HA_REPORT_INTERVAL
  }

  /** A span of length T holds at most T / 60000 + 1 of the times. */
  ghost predicate FewInEverySpan(times: seq<int>) {
    forall from, to :: from <= to ==> InSpan(times, from, to) <= (to - from) / HA_REPORT_INTERVAL + 1
  }

  /** Whatever the calls and the clock do, a span of length T sees at most T / 60000 + 1 reports of
      an API, as long as no report at time 0 is followed by an early one. */
  lemma FewReportsInAnySpan(calls: seq<Call>, api: string, from: int, length: nat)
    requires NoEarlyFollower(Times(CountAll(calls).handed, api))
    ensures InSpan(Times(CountAll(calls).handed, api), from, from + length) <= length / HA_REPORT_INTERVAL + 1
  {
    ReportsAreSpaced(calls, api);
    TimesApartAreFew(Times(CountAll(calls).handed, api), from, from + length);
  }

  /** When the counted calls of an API ended, in order. */
  function CallTimes(calls: seq<Call>, api: string): seq<int> {
    if calls == [] then []
    else
      var last := calls[|calls| - 1];
      CallTimes(calls[..|calls| - 1], api) + if last.api == api && Counts(last) then [last.now] else []
  }

  /** The first call of the API ends at time 0 and the second one within a minute. */
  predicate BeginsAtTimeZero(callTimes: seq<int>) {
    |callTimes| >= 2 && callTimes[0] == 0 && callTimes[1] < HA_REPORT_INTERVAL
  }

  /** The first call is reported; after a report at time 0 the second one is as well. */
  ghost predicate StartsAlike(callTimes: seq<int>, times: seq<int>) {
    && (callTimes == [] ==> times == [])
    && (callTimes != [] ==> times != [] && times[0] == callTimes[0])
    && (|callTimes| == 1 ==> |times| == 1)
    && (|callTimes| >= 2 && callTimes[0] == 0 ==> |times| >= 2 && times[1] == callTimes[1])
  }

  lemma {:induction false} ReportsStartWithTheCalls(calls: seq<Call>, api: string)
    ensures StartsAlike(CallTimes(calls, api), Times(CountAll(calls).handed, api))
  {
    if calls == [] {
      NoReportsAtFirst(api);
    } else {
      hide Times, CountCall, Pending;
      var before, last := calls[..|calls| - 1], calls[|calls| - 1];
      ReportsStartWithTheCalls(before, api);
      ReportsAreSpaced(before, api);
      if Counts(last) {
        TimesAfterOneCall(CountAll(before), last, api);
      } else {
        UncountedChangesNothing(CountAll(before), last);
      }
    }
  }

  lemma UncountedChangesNothing(s: Stats, call: Call)
    requires !Counts(call)
    ensures CountCall(s, call) == s
  {
  }

  lemma {:induction false} ReportTimesAreCallTimes(calls: seq<Call>, api: string, low: int)
    requires forall i :: 0 <= i < |calls| && calls[i].api == api && Counts(calls[i]) ==> calls[i].now >= low
    ensures
      var times := Times(CountAll(calls).handed, api);
      forall i :: 0 <= i < |times| ==> times[i] >= low
  {
    if calls == [] {
      NoReportsAtFirst(api);
    } else {
      hide Times, CountCall, Pending;
      var before, last := calls[..|calls| - 1], calls[|calls| - 1];
      assert forall i :: 0 <= i < |before| ==> before[i] == calls[i];
      ReportTimesAreCallTimes(before, api, low);
      assert CountAll(calls) == CountCall(CountAll(before), last);
      if Counts(last) {
        TimesAfterOneCall(CountAll(before), last, api);
        var earlier, all := Times(CountAll(before).handed, api), Times(CountAll(calls).handed, api);
        assert last.api == api ==> last.now >= low;
        assert forall i :: 0 <= i < |all| ==>
          (i < |earlier| && all[i] == earlier[i]) || (last.api == api && all[i] == last.now);
      } else {
        UncountedChangesNothing(CountAll(before), last);
      }
    }
  }

  lemma {:induction false} TimesRise(times: seq<int>, i: nat, k: nat)
    requires Spaced(times) && i <= k < |times| && times[i] > 0
    ensures times[k] >= times[i]
    decreases k
  {
    if k == i {
    } else {
      TimesRise(times, i, k - 1);
    }
  }

  /** With a clock that is never negative, only the first two reports decide. */
  lemma OnlyTheStartDecides(times: seq<int>)
    requires Spaced(times) && forall i :: 0 <= i < |times| ==> times[i] >= 0
    ensures NoEarlyFollower(times) <==> !BeginsAtTimeZero(times)
  {
    if !BeginsAtTimeZero(times) {
      forall i | 0 < i < |times| && times[i - 1] == 0
        ensures times[i] >= HA_REPORT_INTERVAL
      {
        if i > 1 {
          TimesRise(times, if times[0] > 0 then 0 else 1, i - 1);
        }
      }
    } else {
      assert times[1 - 1] == 0;
    }
  }

  lemma EarlyFollowerBreaksTheBound(times: seq<int>, i: nat)
    requires 0 < i < |times| && times[i - 1] == 0 && 0 <= times[i] < HA_REPORT_INTERVAL
    ensures InSpan(times, 0, times[i]) >= 2
  {
    SpanOfPrefix(times, i + 1, 0, times[i]);
    assert times[..i + 1][..i] == times[..i];
    SpanOfPrefix(times[..i], i, 0, times[i]);
  }

  lemma {:induction false} SpanOfPrefix(times: seq<int>, n: nat, from: int, to: int)
    requires n <= |times|
    ensures InSpan(times[..n], from, to) <= InSpan(times, from, to)
  {
    if n == |times| {
      assert times[..n] == times;
    } else {
      assert times[..|times| - 1][..n] == times[..n];
      SpanOfPrefix(times[..|times| - 1], n, from, to);
    }
  }

  /** Exactly when the bound holds in every span, told from the calls alone, for a clock that is never
      negative. */
  lemma FewReportsExactlyUnlessBegunAtTimeZero(calls: seq<Call>, api: string)
    requires forall i :: 0 <= i < |calls| && calls[i].api == api && Counts(calls[i]) ==> calls[i].now >= 0
    ensures FewInEverySpan(Times(CountAll(calls).handed, api)) <==> !BeginsAtTimeZero(CallTimes(calls, api))
  {
    hide Times, CountAll, CallTimes;
    var times := Times(CountAll(calls).handed, api);
    ReportsAreSpaced(calls, api);
    ReportsStartWithTheCalls(calls, api);
    ReportTimesAreCallTimes(calls, api, 0);
    OnlyTheStartDecides(times);
    if NoEarlyFollower(times) {
      forall from, to | from <= to
        ensures InSpan(times, from, to) <= (to - from) / HA_REPORT_INTERVAL + 1
      {
        FewReportsInAnySpan(calls, api, from, to - from);
      }
    } else {
      EarlyFollowerBreaksTheBound(times, 1);
      assert !FewInEverySpan(times);
    }
  }

  /** No counted call at time 0, no report at time 0. */
  lemma {:induction false} NoReportWithoutCallAtTimeZero(calls: seq<Call>, api: string)
    requires forall i :: 0 <= i < |calls| && calls[i].api == api && Counts(calls[i]) ==> calls[i].now != 0
    ensures 0 !in Times(CountAll(calls).handed, api)
  {
    if calls == [] {
      NoReportsAtFirst(api);
    } else {
      hide Times, CountCall, Pending;
      var before, last := calls[..|calls| - 1], calls[|calls| - 1];
      assert forall i :: 0 <= i < |before| ==> before[i] == calls[i];
      NoReportWithoutCallAtTimeZero(before, api);
      if Counts(last) {
        TimesAfterOneCall(CountAll(before), last, api);
      } else {
        UncountedChangesNothing(CountAll(before), last);
      }
    }
  }

  /** Without that proviso the bound fails: three reports within two milliseconds. */
  lemma ReportAtTimeZeroBreaksTheBound()
    ensures
      var calls := [Call("api", 0, 0, 0), Call("api", 0, 0, 0), Call("api", 0, 1, 0)];
      Times(CountAll(calls).handed, "api") == [0, 0, 1] && !(3 <= 1 / HA_REPORT_INTERVAL + 1)
  {
    hide CountAll, Times;
    var a, b := Call("api", 0, 0, 0), Call("api", 0, 1, 0);
    NoReportsAtFirst("api");
    HandedExactlyWhenDue([], a);
    assert [] + [a] == [a];
    HandedExactlyWhenDue([a], a);
    assert [a] + [a] == [a, a];
    HandedExactlyWhenDue([a, a], b);
    assert [a, a] + [b] == [a, a, b];
  }

  lemma NoReportsAtFirst(api: string)
    ensures Times(CountAll([]).handed, api) == []
  {
  }
}
