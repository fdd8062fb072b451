/**
 The callback object of a single-location request: the fix it keeps, the flag saying whether the
 device is in a high-definition area, and the latch its waiter blocks on.  Each event of the
 location service is handled by one call of `OnRemoteRequest`; here the events come one after the
 other, `LocatingProtocol` lets them overlap.
 */
module LocatorCallbacks {
  import opened Latches
  import opened Wrappers

  const GNSS_TYPE := 1
  const NETWORK_TYPE := 2
  const RTK_TYPE := 4

  const LOCATION_PRIORITY_ACCURACY := 0x0501
  const LOCATION_PRIORITY_LOCATING_SPEED := 0x0502

  const LOCATING_FAILED_INTERNET_ACCESS_FAILURE := -5

  /** A reported location: where it came from, its "inHdArea" addition ("" when it has none), and
      a number standing for everything else in it. */
  datatype Location = Location(source: int, hdTag: string, content: int)

  /** What the service can send to the callback. */
  datatype Event =
    | Report(location: Location)
    | StatusChange(status: int)
    | Failure(code: int)

  /** The fields of the callback that event handlers and the waiter share. */
  datatype Shared = Shared(fix: Option<Location>, inHdArea: bool, count: nat)

  const INITIAL: Shared := Shared(None, true, 1)

  predicate NeedSet(priority: int, fix: Option<Location>, location: Location) {
    !(priority == LOCATION_PRIORITY_ACCURACY && fix.Some? && location.source == NETWORK_TYPE)
  }

  /** In accuracy mode this fix is kept back in the hope of a better one. */
  predicate Withheld(fix: Location, inHdArea: bool) {
    || ((fix.source == GNSS_TYPE || fix.source == RTK_TYPE) && inHdArea)
    || fix.source == NETWORK_TYPE
  }

  function FlagAfter(inHdArea: bool, location: Location): bool {
    if location.source == NETWORK_TYPE && location.hdTag != "" then location.hdTag == "true" else inHdArea
  }

  /** The effect of a whole event, `fixNumber` being 1 for a single-location request. */
  function Handle(priority: int, fixNumber: int, s: Shared, event: Event): Shared {
    match event
    case Report(location) =>
      var flag := FlagAfter(s.inHdArea, location);
      var fix := if NeedSet(priority, s.fix, location) then Some(location) else s.fix;
      var opens := fixNumber == 1 && !(priority == LOCATION_PRIORITY_ACCURACY && Withheld(fix.value, flag));
      Shared(fix, flag, if opens then Lower(s.count) else s.count)
    case StatusChange(_) => s
    case Failure(code) =>
      if code == LOCATING_FAILED_INTERNET_ACCESS_FAILURE then
        Shared(s.fix, false, if fixNumber == 1 && s.fix.Some? then Lower(s.count) else s.count)
      else
        s
  }

  /** Which fix a report leaves and whether it opens the latch, in the words of the sources of locations.  In
      accuracy mode a network location replaces no fix and opens nothing; a satellite location is kept back in
      a high-definition area; any other opens the latch.  Outside that mode every report does. */
  lemma ReportOpensExactly(priority: int, s: Shared, location: Location)
    requires s.count == 1
    ensures
      var after := Handle(priority, 1, s, Report(location));
      var accuracy, satellite := priority == LOCATION_PRIORITY_ACCURACY, {GNSS_TYPE, RTK_TYPE};
      && after.fix == (if accuracy && location.source == NETWORK_TYPE && s.fix.Some? then s.fix else Some(location))
      && (!accuracy ==> after.count == 0)
      && (accuracy && location.source == NETWORK_TYPE && s.fix.None? ==> after.count == 1)
      && (accuracy && after.fix.value.source in satellite ==> (after.count == 0 <==> !after.inHdArea))
      && (accuracy && after.fix.value.source !in satellite + {NETWORK_TYPE} ==> after.count == 0)
      && (accuracy && after.fix.value.source == NETWORK_TYPE ==> after.count == 1)
  {
  }

  class LocatorCallback {
    var fixNumber: int
    var locationPriority: int
    var inHdArea: bool
    var singleLocation: Option<Location>
    var count: nat

    function View(): Shared
      reads this
    {
      Shared(singleLocation, inHdArea, count)
    }

    constructor ()
      ensures View() == INITIAL && fixNumber == 0 && locationPriority == 0
    {
      fixNumber, locationPriority := 0, 0;
      inHdArea, singleLocation := true, None;
      count := 1;
    }

    predicate IsSingleLocationRequest()
      reads this
    {
      fixNumber == 1
    }

    method CountDown()
      modifies this`count
      ensures count == if old(IsSingleLocationRequest()) then Lower(old(count)) else old(count)
    {
      if IsSingleLocationRequest() && count > 0 {
        count := count - 1;
      }
    }

    /** For a single-location request the result tells whether some event has opened the latch yet. */
    method GetCount() returns (n: nat)
      ensures n == if IsSingleLocationRequest() then count else 0
      ensures forall events :: IsSingleLocationRequest() && View() == After(locationPriority, 1, events) ==>
        n <= 1 && (n == 1 <==> NothingOpened(locationPriority, events))
    {
      n := 0;
      if IsSingleLocationRequest() {
        n := count;
      }
      forall events | IsSingleLocationRequest() && View() == After(locationPriority, 1, events)
        ensures n <= 1 && (n == 1 <==> NothingOpened(locationPriority, events))
      {
        LatchClosedExactlyWhen(locationPriority, events);
      }
    }

    method SetCount(n: nat)
      modifies this`count
      ensures count == if old(IsSingleLocationRequest()) then n else old(count)
    {
      if IsSingleLocationRequest() {
        count := n;
      }
    }

    predicate NeedSetSingleLocation(location: Location)
      reads this
    {
      !(locationPriority == LOCATION_PRIORITY_ACCURACY && singleLocation.Some? && location.source == NETWORK_TYPE)
    }

    /** Dereferences the stored fix, so there must be one. */
    predicate IfReportAccuracyLocation()
      requires singleLocation.Some?
      reads this
    {
      !(locationPriority == LOCATION_PRIORITY_ACCURACY && Withheld(singleLocation.value, inHdArea))
    }

    method OnRemoteRequest(event: Event)
      modifies this
      ensures fixNumber == old(fixNumber) && locationPriority == old(locationPriority)
      ensures View() == Handle(locationPriority, fixNumber, old(View()), event)
    {
      match event
      case Report(location) =>
        if location.source == NETWORK_TYPE && location.hdTag != "" {
          inHdArea := location.hdTag == "true";
        }
        if NeedSetSingleLocation(location) {
          singleLocation := Some(location);
        }
        if IfReportAccuracyLocation() {
          CountDown();
        }
      case StatusChange(_) =>
      case Failure(code) =>
        if code == LOCATING_FAILED_INTERNET_ACCESS_FAILURE {
          inHdArea := false;
          if singleLocation.Some? {
            CountDown();
          }
        }
    }
  }

  // ---------- what a history of events says, without running it ----------

  /** The state after a history of events, oldest first. */
  function After(priority: int, fixNumber: int, events: seq<Event>): Shared {
    if events == [] then
      INITIAL
    else
      var last := |events| - 1;
      Handle(priority, fixNumber, After(priority, fixNumber, events[..last]), events[last])
  }

  /** Events of a request for more than one location never open the latch. */
  lemma {:induction false} ContinuousRequestKeepsTheLatch(priority: int, fixNumber: int, events: seq<Event>)
    requires fixNumber != 1
    ensures After(priority, fixNumber, events).count == 1
  {
    if events == [] {
    } else {
      ContinuousRequestKeepsTheLatch(priority, fixNumber, events[..|events| - 1]);
    }
  }

  predicate IsReport(event: Event) {
    event.Report?
  }

  predicate IsOffNetwork(event: Event) {
    event.Report? && event.location.source != NETWORK_TYPE
  }

  predicate IsInternetFailure(event: Event) {
    event == Failure(LOCATING_FAILED_INTERNET_ACCESS_FAILURE)
  }

  /** The events that speak about the high-definition area. */
  predicate IsAboutHdArea(event: Event) {
    || IsInternetFailure(event)
    || (event.Report? && event.location.source == NETWORK_TYPE && event.location.hdTag != "")
  }

  predicate SaysInHdArea(event: Event) {
    event.Report? && event.location.hdTag == "true"
  }

  ghost predicate IsLast(events: seq<Event>, p: Event -> bool, i: int) {
    0 <= i < |events| && p(events[i]) && forall j :: i < j < |events| ==> !p(events[j])
  }

  ghost predicate IsFirst(events: seq<Event>, p: Event -> bool, i: int) {
    0 <= i < |events| && p(events[i]) && forall j :: 0 <= j < i ==> !p(events[j])
  }

  ghost predicate Never(events: seq<Event>, p: Event -> bool) {
    forall j :: 0 <= j < |events| ==> !p(events[j])
  }

  /** Which fix the history leaves behind. */
  ghost predicate IsStoredFix(priority: int, events: seq<Event>, fix: Option<Location>) {
    && (fix.None? <==> Never(events, IsReport))
    && (priority == LOCATION_PRIORITY_ACCURACY ==>
      && (forall i :: IsLast(events, IsOffNetwork, i) ==> fix == Some(events[i].location))
      && (Never(events, IsOffNetwork) ==> forall i :: IsFirst(events, IsReport, i) ==> fix == Some(events[i].location)))
    && (priority != LOCATION_PRIORITY_ACCURACY ==>
      forall i :: IsLast(events, IsReport, i) ==> fix == Some(events[i].location))
  }

  lemma {:induction false} StoredFixOfHistory(priority: int, fixNumber: int, events: seq<Event>)
    ensures IsStoredFix(priority, events, After(priority, fixNumber, events).fix)
  {
    if events == [] {
    } else {
      var n := |events| - 1;
      StoredFixOfHistory(priority, fixNumber, events[..n]);
      var before := After(priority, fixNumber, events[..n]);
      OneEventKeepsStoredFix(priority, events, before.fix, Handle(priority, fixNumber, before, events[n]).fix);
    }
  }

  lemma NeverSplits(events: seq<Event>, p: Event -> bool)
    requires events != []
    ensures Never(events, p) <==> Never(events[..|events| - 1], p) && !p(events[|events| - 1])
  {
  }

  lemma LastSplits(events: seq<Event>, p: Event -> bool, i: int)
    requires events != [] && IsLast(events, p, i)
    ensures if p(events[|events| - 1]) then i == |events| - 1 else IsLast(events[..|events| - 1], p, i)
  {
  }

  lemma OneEventKeepsStoredFix(priority: int, events: seq<Event>, before: Option<Location>, now: Option<Location>)
    requires events != [] && IsStoredFix(priority, events[..|events| - 1], before)
    requires
      var last := events[|events| - 1];
      now == if last.Report? && NeedSet(priority, before, last.location) then Some(last.location) else before
    ensures IsStoredFix(priority, events, now)
  {
    hide Never;
    var n := |events| - 1;
    NeverSplits(events, IsReport);
    NeverSplits(events, IsOffNetwork);
    forall i | IsLast(events, IsOffNetwork, i) && priority == LOCATION_PRIORITY_ACCURACY
      ensures now == Some(events[i].location)
    {
      LastSplits(events, IsOffNetwork, i);
    }
    forall i | IsFirst(events, IsReport, i) && Never(events, IsOffNetwork) && priority == LOCATION_PRIORITY_ACCURACY
      ensures now == Some(events[i].location)
    {
      if i < n {
        assert IsFirst(events[..n], IsReport, i);
        NotNever(events[..n], IsReport, i);
      } else {
        FirstMeansNeverBefore(events, IsReport);
      }
    }
    forall i | IsLast(events, IsReport, i) && priority != LOCATION_PRIORITY_ACCURACY
      ensures now == Some(events[i].location)
    {
      LastSplits(events, IsReport, i);
    }
  }

  lemma NotNever(events: seq<Event>, p: Event -> bool, i: nat)
    requires i < |events| && p(events[i])
    ensures !Never(events, p)
  {
  }

  lemma FirstMeansNeverBefore(events: seq<Event>, p: Event -> bool)
    requires events != [] && IsFirst(events, p, |events| - 1)
    ensures Never(events[..|events| - 1], p)
  {
  }

  /** The description above leaves exactly one fix possible. */
  lemma StoredFixIsUnique(priority: int, events: seq<Event>, a: Option<Location>, b: Option<Location>)
    requires IsStoredFix(priority, events, a) && IsStoredFix(priority, events, b)
    ensures a == b
  {
    if !Never(events, IsReport) {
      if priority != LOCATION_PRIORITY_ACCURACY {
        var i := LastIndex(events, IsReport);
      } else if Never(events, IsOffNetwork) {
        var i := FirstIndex(events, IsReport);
      } else {
        var i := LastIndex(events, IsOffNetwork);
      }
    }
  }

  lemma LastIndex(events: seq<Event>, p: Event -> bool) returns (i: nat)
    requires !Never(events, p)
    ensures IsLast(events, p, i)
  {
    i := |events| - 1;
    while !p(events[i])
      invariant i < |events|
      invariant forall j :: i < j < |events| ==> !p(events[j])
      decreases i
    {
      i := i - 1;
    }
  }

  lemma FirstIndex(events: seq<Event>, p: Event -> bool) returns (i: nat)
    requires !Never(events, p)
    ensures IsFirst(events, p, i)
  {
    i := 0;
    while !p(events[i])
      invariant i < |events|
      invariant forall j :: 0 <= j < i ==> !p(events[j])
      decreases |events| - i
    {
      i := i + 1;
    }
  }

  /** The flag is what the latest event about the area said, and true when there was none. */
  ghost predicate IsHdFlag(events: seq<Event>, flag: bool) {
    && (Never(events, IsAboutHdArea) ==> flag)
    && forall i :: IsLast(events, IsAboutHdArea, i) ==> flag == SaysInHdArea(events[i])
  }

  lemma {:induction false} HdFlagOfHistory(priority: int, fixNumber: int, events: seq<Event>)
    ensures IsHdFlag(events, After(priority, fixNumber, events).inHdArea)
  {
    if events == [] {
    } else {
      var n := |events| - 1;
      var before := events[..n];
      HdFlagOfHistory(priority, fixNumber, before);
      assert Never(events, IsAboutHdArea) <==> Never(before, IsAboutHdArea) && !IsAboutHdArea(events[n]);
      forall i | IsLast(events, IsAboutHdArea, i)
        ensures After(priority, fixNumber, events).inHdArea == SaysInHdArea(events[i])
      {
        if i < n {
          assert IsLast(before, IsAboutHdArea, i);
        }
      }
    }
  }

  /** Accuracy mode keeps back the fix this history leaves. */
  ghost predicate WithheldAfter(events: seq<Event>) {
    forall fix, flag ::
      IsStoredFix(LOCATION_PRIORITY_ACCURACY, events, Some(fix)) && IsHdFlag(events, flag) ==> Withheld(fix, flag)
  }

  /** The last event of the history opens the latch: an internet failure once a fix is there, or a
      report, unless in accuracy mode the fix it leaves is kept back. */
  ghost predicate LastOpens(priority: int, events: seq<Event>)
    requires events != []
  {
    var last := |events| - 1;
    || (IsInternetFailure(events[last]) && !Never(events[..last], IsReport))
    || (IsReport(events[last]) && !(priority == LOCATION_PRIORITY_ACCURACY && WithheldAfter(events)))
  }

  ghost predicate NothingOpened(priority: int, events: seq<Event>) {
    forall k :: 0 < k <= |events| ==> !LastOpens(priority, events[..k])
  }

  /** When the waiter of a single-location request still finds the latch closed. */
  lemma {:induction false} LatchClosedExactlyWhen(priority: int, events: seq<Event>)
    ensures After(priority, 1, events).count <= 1
    ensures After(priority, 1, events).count == 1 <==> NothingOpened(priority, events)
  {
    if events == [] {
    } else {
      var n := |events| - 1;
      var before := events[..n];
      LatchClosedExactlyWhen(priority, before);
      NothingOpenedSplits(priority, events);
      LastEventOpensOrNot(priority, events);
    }
  }

  /** Only a stored fix opens the latch. */
  lemma {:induction false} OpenLatchMeansFix(priority: int, events: seq<Event>)
    ensures After(priority, 1, events).count == 0 ==> After(priority, 1, events).fix.Some?
  {
    if events == [] {
    } else {
      OpenLatchMeansFix(priority, events[..|events| - 1]);
    }
  }

  lemma NothingOpenedSplits(priority: int, events: seq<Event>)
    requires events != []
    ensures NothingOpened(priority, events) <==>
      NothingOpened(priority, events[..|events| - 1]) && !LastOpens(priority, events)
  {
    var before := events[..|events| - 1];
    assert events[..|events|] == events;
    forall k | 0 < k <= |before|
      ensures LastOpens(priority, events[..k]) == LastOpens(priority, before[..k])
    {
      assert events[..k] == before[..k];
    }
  }

  lemma LastEventOpensOrNot(priority: int, events: seq<Event>)
    requires events != []
    ensures
      var before := After(priority, 1, events[..|events| - 1]);
      After(priority, 1, events).count == if LastOpens(priority, events) then Lower(before.count) else before.count
  {
    var n := |events| - 1;
    StoredFixOfHistory(priority, 1, events[..n]);
    if IsReport(events[n]) && priority == LOCATION_PRIORITY_ACCURACY {
      var s := After(priority, 1, events);
      StoredFixOfHistory(priority, 1, events);
      HdFlagOfHistory(priority, 1, events);
      assert !Never(events, IsReport);
      forall fix, flag | IsStoredFix(priority, events, Some(fix)) && IsHdFlag(events, flag)
        ensures fix == s.fix.value && flag == s.inHdArea
      {
        StoredFixIsUnique(priority, events, Some(fix), s.fix);
        HdFlagIsUnique(events, flag, s.inHdArea);
      }
      assert WithheldAfter(events) <==> Withheld(s.fix.value, s.inHdArea);
    }
  }

  lemma HdFlagIsUnique(events: seq<Event>, a: bool, b: bool)
    requires IsHdFlag(events, a) && IsHdFlag(events, b)
    ensures a == b
  {
    if !Never(events, IsAboutHdArea) {
      var i := LastIndex(events, IsAboutHdArea);
    }
  }

  /** Speed mode opens the latch at the first report and never before. */
  lemma SpeedModeClosedExactlyWithoutReport(priority: int, events: seq<Event>)
    requires priority != LOCATION_PRIORITY_ACCURACY
    ensures After(priority, 1, events).count == 1 <==> Never(events, IsReport)
  {
    LatchClosedExactlyWhen(priority, events);
    if !Never(events, IsReport) {
      var i := FirstIndex(events, IsReport);
      assert IsReport(events[..i + 1][i]);
      assert LastOpens(priority, events[..i + 1]);
    } else {
      forall k | 0 < k <= |events|
        ensures !LastOpens(priority, events[..k])
      {
        assert !IsReport(events[k - 1]);
        assert forall j :: 0 <= j < k - 1 ==> events[..k][..k - 1][j] == events[j];
      }
    }
  }
}
