/**
 One `GetCurrentLocation` request while it runs: the waiter thread steps through `GetCurrentLocation`
 and `StartLocating`, and any number of handlers of service events step through `OnRemoteRequest`
 beside it.  A step is one read or one write of the shared fields, so handlers may overlap in every
 way.  Reading through the stored fix while there is none stops the model with `crashed`.
 */
module LocatingProtocol {
  import opened ErrorCodes
  import opened Latches
  import opened Wrappers
  import opened LocatorCallbacks

  const SCENE_UNSET := 0x0300
  const SCENE_NAVIGATION := 0x0301
  const SCENE_TRAJECTORY_TRACKING := 0x0302
  const SCENE_CAR_HAILING := 0x0303
  const SCENE_DAILY_LIFE_SERVICE := 0x0304
  const SCENE_NO_POWER := 0x0305
  const LOCATION_SCENE_NAVIGATION := 0x0401
  const LOCATION_SCENE_SPORT := 0x0402
  const LOCATION_SCENE_TRANSPORT := 0x0403
  const LOCATION_SCENE_DAILY_LIFE_SERVICE := 0x0404
  const LOCATION_SCENE_HIGH_POWER_CONSUMPTION := 0x0601
  const LOCATION_SCENE_LOW_POWER_CONSUMPTION := 0x0602
  const LOCATION_SCENE_NO_POWER_CONSUMPTION := 0x0603

  const PRIORITY_UNSET := 0x0200
  const PRIORITY_ACCURACY := 0x0201
  const PRIORITY_LOW_POWER := 0x0202
  const PRIORITY_FAST_FIRST_FIX := 0x0203

  const DEFAULT_TIMEOUT_30S := 30000
  const MIN_TIMEOUTMS_FOR_LOCATIONONCE := 1000

  // ---------- the request ----------

  datatype RequestConfig = RequestConfig(scenario: int, priority: int, timeOut: int,
    timeInterval: int, distanceInterval: int, maxAccuracy: int)

  /** Which configurations a request may carry.  Of the scenarios 0x0401 to 0x0409 only the first four pass. */
  predicate IsRequestConfigValid(config: RequestConfig)
    ensures IsRequestConfigValid(config) <==>
      && config.scenario in {
        SCENE_UNSET, SCENE_NAVIGATION, SCENE_TRAJECTORY_TRACKING, SCENE_CAR_HAILING,
        SCENE_DAILY_LIFE_SERVICE, SCENE_NO_POWER,
        LOCATION_SCENE_NAVIGATION, LOCATION_SCENE_SPORT, LOCATION_SCENE_TRANSPORT, LOCATION_SCENE_DAILY_LIFE_SERVICE,
        LOCATION_SCENE_HIGH_POWER_CONSUMPTION, LOCATION_SCENE_LOW_POWER_CONSUMPTION,
        LOCATION_SCENE_NO_POWER_CONSUMPTION}
      && config.priority in {
        PRIORITY_UNSET, PRIORITY_ACCURACY, PRIORITY_LOW_POWER, PRIORITY_FAST_FIRST_FIX,
        LOCATION_PRIORITY_ACCURACY, LOCATION_PRIORITY_LOCATING_SPEED}
      && config.timeOut >= MIN_TIMEOUTMS_FOR_LOCATIONONCE
      && config.timeInterval >= 0 && config.distanceInterval >= 0 && config.maxAccuracy >= 0
  {
    && !((config.scenario > SCENE_NO_POWER || config.scenario < SCENE_UNSET) &&
         (config.scenario > LOCATION_SCENE_DAILY_LIFE_SERVICE || config.scenario < LOCATION_SCENE_NAVIGATION) &&
         (|| config.scenario > LOCATION_SCENE_NO_POWER_CONSUMPTION
          || config.scenario < LOCATION_SCENE_HIGH_POWER_CONSUMPTION))
    && !((config.priority > PRIORITY_FAST_FIRST_FIX || config.priority < PRIORITY_UNSET) &&
         (config.priority > LOCATION_PRIORITY_LOCATING_SPEED || config.priority < LOCATION_PRIORITY_ACCURACY))
    && !(config.timeOut < MIN_TIMEOUTMS_FOR_LOCATIONONCE)
    && !(config.timeInterval < 0)
    && !(config.distanceInterval < 0)
    && !(config.maxAccuracy < 0)
  }

  /** The mode a request runs in. */
  function CurrentLocationType(config: RequestConfig): int {
    if || config.priority == LOCATION_PRIORITY_ACCURACY
       || (config.scenario == SCENE_UNSET && config.priority == PRIORITY_ACCURACY)
       || config.scenario == SCENE_NAVIGATION
       || config.scenario == SCENE_TRAJECTORY_TRACKING
       || config.scenario == SCENE_CAR_HAILING
    then LOCATION_PRIORITY_ACCURACY
    else LOCATION_PRIORITY_LOCATING_SPEED
  }

  // ---------- the threads ----------

  /** Where a handler stands: the read or write it does next. */
  datatype Handler =
    | SetFlag(location: Location)
    | AskNeed(location: Location)
    | StoreFix(location: Location)
    | AskGnss
    | AskRtk
    | AskHdArea
    | AskNetwork
    | ClearFlag
    | AskFix
    | OpenLatch
    | Finished

  datatype Outcome = Found(location: Location) | Failed(code: int)

  /** Where the waiter stands, with the error code it carries where it has one. */
  datatype Waiter =
    | CheckConfig
    | CheckSwitch
    | Start
    | DropLatch(code: int)
    | WaitLong
    | PeekFix
    | WaitRest
    | WaitShort
    | Stop
    | ReadCount
    | ReadFix
    | AskCache
    | ResetLatch(code: int)
    | ReadResult(code: int)
    | Done(outcome: Outcome)

  datatype State = State(config: RequestConfig, shared: Shared, handlers: map<nat, Handler>, waiter: Waiter,
    delivered: set<Location>, crashed: bool)

  /** What the environment answers to the waiter: the code of a service call, whether a wait has
      run out of time, and the cached location. */
  datatype Answer = Answer(code: int, timedOut: bool, cached: Option<Location>)

  datatype Step =
    | Arrive(thread: nat, event: Event)
    | Run(thread: nat)
    | Advance(answer: Answer)

  function Initial(config: RequestConfig): State {
    State(config, INITIAL, map[], CheckConfig, {}, false)
  }

  function Priority(s: State): int {
    CurrentLocationType(s.config)
  }

  /** The first step of the handler of an event; events that touch nothing finish at once. */
  function Begin(event: Event): Handler {
    match event
    case Report(location) => SetFlag(location)
    case StatusChange(_) => Finished
    case Failure(code) => if code == LOCATING_FAILED_INTERNET_ACCESS_FAILURE then ClearFlag else Finished
  }

  datatype HandlerResult = Went(shared: Shared, next: Handler) | Crash

  /** One step of a handler.  The accuracy test evaluates its operands left to right. */
  function HandlerStep(priority: int, shared: Shared, h: Handler): HandlerResult {
    match h
    case SetFlag(location) =>
      Went(shared.(inHdArea := FlagAfter(shared.inHdArea, location)), AskNeed(location))
    case AskNeed(location) =>
      Went(shared, if NeedSet(priority, shared.fix, location) then StoreFix(location) else AskGnss)
    case StoreFix(location) =>
      Went(shared.(fix := Some(location)), AskGnss)
    case AskGnss =>
      if priority != LOCATION_PRIORITY_ACCURACY then Went(shared, OpenLatch)
      else if shared.fix.None? then Crash
      else Went(shared, if shared.fix.value.source == GNSS_TYPE then AskHdArea else AskRtk)
    case AskRtk =>
      if shared.fix.None? then Crash
      else Went(shared, if shared.fix.value.source == RTK_TYPE then AskHdArea else AskNetwork)
    case AskHdArea =>
      Went(shared, if shared.inHdArea then Finished else AskNetwork)
    case AskNetwork =>
      if shared.fix.None? then Crash
      else Went(shared, if shared.fix.value.source == NETWORK_TYPE then Finished else OpenLatch)
    case ClearFlag =>
      Went(shared.(inHdArea := false), AskFix)
    case AskFix =>
      Went(shared, if shared.fix.Some? then OpenLatch else Finished)
    case OpenLatch =>
      Went(shared.(count := Lower(shared.count)), Finished)
    case Finished =>
      Went(shared, Finished)
  }

  function WaiterStep(s: State, answer: Answer): State {
    match s.waiter
    case CheckConfig =>
      s.(waiter := if IsRequestConfigValid(s.config) then CheckSwitch else Done(Failed(ERRCODE_INVALID_PARAM)))
    case CheckSwitch =>
      s.(waiter := if answer.code == ERRCODE_SUCCESS then Start else Done(Failed(answer.code)))
    case Start =>
      s.(waiter :=
        if answer.code != ERRCODE_SUCCESS then DropLatch(answer.code)
        else if s.config.timeOut > DEFAULT_TIMEOUT_30S then WaitLong
        else WaitShort)
    case DropLatch(code) =>
      s.(shared := s.shared.(count := 0), waiter := Done(Failed(code)))
    case WaitLong =>
      if s.shared.count == 0 || answer.timedOut then s.(waiter := PeekFix) else s
    case PeekFix =>
      s.(waiter := if s.shared.fix.None? then WaitRest else Stop)
    case WaitRest =>
      if s.shared.count == 0 || answer.timedOut then s.(waiter := Stop) else s
    case WaitShort =>
      if s.shared.count == 0 || answer.timedOut then s.(waiter := Stop) else s
    case Stop =>
      s.(waiter := ReadCount)
    case ReadCount =>
      s.(waiter := if s.shared.count != 0 then ReadFix else ResetLatch(ERRCODE_SUCCESS))
    case ReadFix =>
      s.(waiter := if s.shared.fix.None? then AskCache else ResetLatch(ERRCODE_SUCCESS))
    case AskCache =>
      if answer.cached.Some? then
        s.(shared := s.shared.(fix := answer.cached), waiter := ResetLatch(ERRCODE_SUCCESS),
           delivered := s.delivered + {answer.cached.value})
      else
        s.(waiter := ResetLatch(ERRCODE_LOCATING_FAIL))
    case ResetLatch(code) =>
      s.(shared := s.shared.(count := 1), waiter := ReadResult(code))
    case ReadResult(code) =>
      if code != ERRCODE_SUCCESS then s.(waiter := Done(Failed(code)))
      else if s.shared.fix.None? then s.(crashed := true)
      else s.(waiter := Done(Found(s.shared.fix.value)))
    case Done(_) =>
      s
  }

  /** One step of the whole; a step that is not possible now leaves everything as it is. */
  function Apply(s: State, step: Step): State {
    if s.crashed then s else
      match step
      case Arrive(thread, event) =>
        if thread in s.handlers then s
        else s.(handlers := s.handlers[thread := Begin(event)],
                delivered := if event.Report? then s.delivered + {event.location} else s.delivered)
      case Run(thread) =>
        if thread !in s.handlers then s
        else
          (match HandlerStep(Priority(s), s.shared, s.handlers[thread])
           case Crash => s.(crashed := true)
           case Went(shared, next) => s.(shared := shared, handlers := s.handlers[thread := next]))
      case Advance(answer) => WaiterStep(s, answer)
  }

  function RunAll(s: State, steps: seq<Step>): State
    decreases |steps|
  {
    if steps == [] then s else RunAll(Apply(s, steps[0]), steps[1..])
  }

  // ---------- safety ----------

  /** Handlers at these places rely on a stored fix. */
  predicate NeedsFix(h: Handler) {
    h.AskGnss? || h.AskRtk? || h.AskHdArea? || h.AskNetwork? || h.OpenLatch?
  }

  function Carried(h: Handler): set<Location> {
    match h
    case SetFlag(location) => {location}
    case AskNeed(location) => {location}
    case StoreFix(location) => {location}
    case _ => {}
  }

  predicate HandlerInv(s: State, h: Handler) {
    && (NeedsFix(h) ==> s.shared.fix.Some?)
    && Carried(h) <= s.delivered
  }

  predicate WaiterInv(s: State) {
    match s.waiter
    case DropLatch(code) => code != ERRCODE_SUCCESS
    case ResetLatch(code) => code == ERRCODE_SUCCESS ==> s.shared.fix.Some?
    case ReadResult(code) => code == ERRCODE_SUCCESS ==> s.shared.fix.Some?
    case Done(Found(location)) => location in s.delivered
    case Done(Failed(code)) => code != ERRCODE_SUCCESS
    case _ => true
  }

  /** An open latch means a stored fix, unless the request has already failed. */
  predicate Inv(s: State) {
    && !s.crashed
    && s.shared.count <= 1
    && (s.shared.count == 0 ==> s.shared.fix.Some? || s.waiter.Done?)
    && (s.shared.fix.Some? ==> s.shared.fix.value in s.delivered)
    && (forall t :: t in s.handlers ==> HandlerInv(s, s.handlers[t]))
    && WaiterInv(s)
  }

  /** How many steps a handler still takes at most. */
  function Rank(h: Handler): nat {
    match h
    case SetFlag(_) => 8
    case AskNeed(_) => 7
    case StoreFix(_) => 6
    case AskGnss => 5
    case AskRtk => 4
    case AskHdArea => 3
    case AskNetwork => 2
    case ClearFlag => 3
    case AskFix => 2
    case OpenLatch => 1
    case Finished => 0
  }

  lemma ArrivalKeepsInv(s: State, thread: nat, event: Event)
    requires Inv(s)
    ensures Inv(Apply(s, Arrive(thread, event)))
  {
    var s' := Apply(s, Arrive(thread, event));
    forall t | t in s'.handlers
      ensures HandlerInv(s', s'.handlers[t])
    {
      if t in s.handlers {
        assert HandlerInv(s, s.handlers[t]);
      }
    }
  }

  /** One handler step: it does not crash, keeps its own needs, and never takes a fix away. */
  lemma HandlerStepIsSafe(s: State, h: Handler)
    requires HandlerInv(s, h)
    ensures
      var r := HandlerStep(Priority(s), s.shared, h);
      && r.Went?
      && (s.shared.fix.Some? ==> r.shared.fix.Some?)
      && (r.shared.fix == s.shared.fix || (r.shared.fix.Some? && r.shared.fix.value in s.delivered))
      && (r.shared.count == s.shared.count || (r.shared.count == Lower(s.shared.count) && s.shared.fix.Some?))
      && (NeedsFix(r.next) ==> r.shared.fix.Some?)
      && Carried(r.next) <= s.delivered
      && Rank(r.next) <= Rank(h) && (h.Finished? || Rank(r.next) < Rank(h))
  {
  }

  lemma HandlerStepKeepsInv(s: State, thread: nat)
    requires Inv(s)
    ensures Inv(Apply(s, Run(thread)))
    ensures s.shared.fix.Some? ==> Apply(s, Run(thread)).shared.fix.Some?
  {
    hide HandlerStep, NeedsFix, Carried;
    if thread in s.handlers {
      var s' := Apply(s, Run(thread));
      assert HandlerInv(s, s.handlers[thread]);
      HandlerStepIsSafe(s, s.handlers[thread]);
      forall t | t in s'.handlers
        ensures HandlerInv(s', s'.handlers[t])
      {
        assert HandlerInv(s, s.handlers[t]);
      }
    }
  }

  lemma WaiterStepKeepsInv(s: State, answer: Answer)
    requires Inv(s)
    ensures Inv(Apply(s, Advance(answer)))
    ensures s.shared.fix.Some? ==> Apply(s, Advance(answer)).shared.fix.Some?
  {
    hide NeedsFix, Carried, IsRequestConfigValid;
    var s' := Apply(s, Advance(answer));
    forall t | t in s'.handlers
      ensures HandlerInv(s', s'.handlers[t])
    {
      assert HandlerInv(s, s.handlers[t]);
    }
  }

  lemma StepKeepsInv(s: State, step: Step)
    requires Inv(s)
    ensures Inv(Apply(s, step))
    ensures s.shared.fix.Some? ==> Apply(s, step).shared.fix.Some?
  {
    hide Inv;
    match step
    case Arrive(thread, event) => ArrivalKeepsInv(s, thread, event);
    case Run(thread) => HandlerStepKeepsInv(s, thread);
    case Advance(answer) => WaiterStepKeepsInv(s, answer);
  }

  lemma {:induction false} RunKeepsInv(s: State, steps: seq<Step>)
    requires Inv(s)
    ensures Inv(RunAll(s, steps))
    ensures s.shared.fix.Some? ==> RunAll(s, steps).shared.fix.Some?
    decreases |steps|
  {
    if steps == [] {
    } else {
      StepKeepsInv(s, steps[0]);
      RunKeepsInv(Apply(s, steps[0]), steps[1..]);
    }
  }

  /** In state s the step brings the location from outside: a new handler gets it in a report, or the waiter
      asks for the cached location and gets it. */
  predicate Brings(s: State, step: Step, location: Location) {
    || (step.Arrive? && step.thread !in s.handlers && step.event == Report(location))
    || (step.Advance? && s.waiter == AskCache && step.answer.cached == Some(location))
  }

  ghost predicate BroughtAt(s: State, steps: seq<Step>, location: Location, i: int) {
    0 <= i < |steps| && Brings(RunAll(s, steps[..i]), steps[i], location)
  }

  /** The delivered locations all come from a report or from the cache. */
  lemma {:induction false} DeliveredComesFromOutside(s: State, steps: seq<Step>, location: Location)
    requires location in RunAll(s, steps).delivered && location !in s.delivered
    ensures exists i :: BroughtAt(s, steps, location, i)
    decreases |steps|
  {
    hide Apply, Brings;
    var s' := Apply(s, steps[0]);
    if location !in s'.delivered {
      DeliveredComesFromOutside(s', steps[1..], location);
      var i :| BroughtAt(s', steps[1..], location, i);
      assert steps[..i + 1][0] == steps[0] && steps[..i + 1][1..] == steps[1..][..i];
      assert BroughtAt(s, steps, location, i + 1);
    } else {
      StepBrings(s, steps[0], location);
      assert steps[..0] == [] && RunAll(s, []) == s;
      assert BroughtAt(s, steps, location, 0);
    }
  }

  lemma StepBrings(s: State, step: Step, location: Location)
    requires location in Apply(s, step).delivered && location !in s.delivered
    ensures Brings(s, step, location)
  {
  }

  /** Whatever the interleaving, no absent fix is ever read through, and a request that succeeds
      returns a location that the service reported or had cached. */
  lemma NeverReadsAnAbsentFix(config: RequestConfig, steps: seq<Step>)
    ensures
      var end := RunAll(Initial(config), steps);
      && !end.crashed
      && (end.waiter.Done? && end.waiter.outcome.Found? ==>
        exists i :: BroughtAt(Initial(config), steps, end.waiter.outcome.location, i))
      && (end.waiter.Done? && end.waiter.outcome.Failed? ==> end.waiter.outcome.code != ERRCODE_SUCCESS)
      && (end.shared.count == 0 && !end.waiter.Done? ==> end.shared.fix.Some?)
  {
    RunKeepsInv(Initial(config), steps);
    var end := RunAll(Initial(config), steps);
    if end.waiter.Done? && end.waiter.outcome.Found? {
      DeliveredComesFromOutside(Initial(config), steps, end.waiter.outcome.location);
    }
  }

  /** The waiter is between the start of the location service and its last look at the fix. */
  predicate StillLooking(w: Waiter) {
    w.WaitLong? || w.PeekFix? || w.WaitRest? || w.WaitShort? || w.Stop? || w.ReadCount? || w.ReadFix?
  }

  predicate OnTheWayToFound(w: Waiter) {
    || StillLooking(w)
    || w == ResetLatch(ERRCODE_SUCCESS)
    || w == ReadResult(ERRCODE_SUCCESS)
    || (w.Done? && w.outcome.Found?)
  }

  /** A fix stored before the waiter's last look is never lost: from then on the request can only
      end with a location, whatever the threads still do. */
  lemma {:induction false} StoredFixIsReturned(s: State, steps: seq<Step>)
    requires Inv(s) && s.shared.fix.Some? && OnTheWayToFound(s.waiter)
    ensures var end := RunAll(s, steps);
      OnTheWayToFound(end.waiter) && (end.waiter.Done? ==> end.waiter.outcome.Found?)
    decreases |steps|
  {
    if steps == [] {
    } else {
      StepKeepsInv(s, steps[0]);
      StoredFixIsReturned(Apply(s, steps[0]), steps[1..]);
    }
  }

  // ---------- a handler that is not interrupted ----------

  function Solo(thread: nat, n: nat): seq<Step> {
    if n == 0 then [] else [Run(thread)] + Solo(thread, n - 1)
  }

  /** The shared fields when a handler runs from where it stands to its end. */
  function Complete(priority: int, shared: Shared, h: Handler): (end: HandlerResult)
    ensures end.Went? ==> end.next == Finished
    decreases Rank(h)
  {
    if h.Finished? then
      Went(shared, h)
    else
      match HandlerStep(priority, shared, h)
      case Crash => Crash
      case Went(shared', next) => Complete(priority, shared', next)
  }

  lemma {:induction false} SoloRunCompletes(s: State, thread: nat, n: nat)
    requires Inv(s) && thread in s.handlers && Rank(s.handlers[thread]) <= n
    ensures
      var end := RunAll(s, Solo(thread, n));
      && Complete(Priority(s), s.shared, s.handlers[thread]) == Went(end.shared, Finished)
      && end == s.(shared := end.shared, handlers := s.handlers[thread := Finished])
    decreases n
  {
    hide HandlerStep, HandlerInv, WaiterInv;
    var h := s.handlers[thread];
    if n > 0 {
      var s' := Apply(s, Run(thread));
      assert HandlerInv(s, h);
      HandlerStepIsSafe(s, h);
      HandlerStepKeepsInv(s, thread);
      FinishedStays(Priority(s), s.shared);
      assert Solo(thread, n)[1..] == Solo(thread, n - 1);
      SoloRunCompletes(s', thread, n - 1);
      assert s.handlers[thread := s'.handlers[thread]][thread := Finished] == s.handlers[thread := Finished];
    } else {
      assert s.handlers[thread := Finished] == s.handlers;
    }
  }

  lemma FinishedStays(priority: int, shared: Shared)
    ensures HandlerStep(priority, shared, Finished) == Went(shared, Finished)
  {
  }

  lemma CompleteIsHandle(priority: int, shared: Shared, event: Event)
    ensures Complete(priority, shared, Begin(event)) == Went(Handle(priority, 1, shared, event), Finished)
  {
    match event
    case Report(location) =>
      var flagged := shared.(inHdArea := FlagAfter(shared.inHdArea, location));
      var stored := if NeedSet(priority, flagged.fix, location) then flagged.(fix := Some(location)) else flagged;
      assert Complete(priority, shared, SetFlag(location)) == Complete(priority, flagged, AskNeed(location));
      if NeedSet(priority, flagged.fix, location) {
        assert Complete(priority, flagged, AskNeed(location)) == Complete(priority, flagged, StoreFix(location));
      }
      assert Complete(priority, flagged, AskNeed(location)) == Complete(priority, stored, AskGnss);
      AccuracyTestDecides(priority, stored);
    case StatusChange(_) =>
    case Failure(code) =>
      if code == LOCATING_FAILED_INTERNET_ACCESS_FAILURE {
        var cleared := shared.(inHdArea := false);
        assert Complete(priority, shared, ClearFlag) == Complete(priority, cleared, AskFix);
        LatchStepCompletes(priority, cleared);
      }
  }

  lemma LatchStepCompletes(priority: int, shared: Shared)
    ensures Complete(priority, shared, OpenLatch) == Went(shared.(count := Lower(shared.count)), Finished)
  {
    assert HandlerStep(priority, shared, OpenLatch).next == Finished;
  }

  lemma AccuracyTestDecides(priority: int, shared: Shared)
    requires shared.fix.Some?
    ensures Complete(priority, shared, AskGnss) ==
      if priority == LOCATION_PRIORITY_ACCURACY && Withheld(shared.fix.value, shared.inHdArea)
      then Went(shared, Finished)
      else Went(shared.(count := Lower(shared.count)), Finished)
  {
    LatchStepCompletes(priority, shared);
    assert Complete(priority, shared, Finished) == Went(shared, Finished);
    assert Complete(priority, shared, AskNetwork) ==
      if shared.fix.value.source == NETWORK_TYPE then Went(shared, Finished)
      else Complete(priority, shared, OpenLatch);
    assert Complete(priority, shared, AskHdArea) ==
      if shared.inHdArea then Went(shared, Finished) else Complete(priority, shared, AskNetwork);
    assert Complete(priority, shared, AskRtk) ==
      if shared.fix.value.source == RTK_TYPE then Complete(priority, shared, AskHdArea)
      else Complete(priority, shared, AskNetwork);
  }

  /** An event whose handler runs without interruption has exactly the effect of one whole call. */
  lemma UninterruptedHandlerIsOneCall(s: State, thread: nat, event: Event)
    requires Inv(s) && thread !in s.handlers
    ensures
      var end := RunAll(s, [Arrive(thread, event)] + Solo(thread, 8));
      && end.shared == Handle(Priority(s), 1, s.shared, event)
      && end.waiter == s.waiter && !end.crashed
  {
    var s' := Apply(s, Arrive(thread, event));
    StepKeepsInv(s, Arrive(thread, event));
    assert ([Arrive(thread, event)] + Solo(thread, 8))[1..] == Solo(thread, 8);
    SoloRunCompletes(s', thread, 8);
    CompleteIsHandle(Priority(s), s.shared, event);
  }

  // ---------- one request whose events come one after the other ----------

  function HandleAll(priority: int, s: Shared, events: seq<Event>): Shared {
    if events == [] then s
    else Handle(priority, 1, HandleAll(priority, s, events[..|events| - 1]), events[|events| - 1])
  }

  lemma {:induction false} HistoryGoesOn(priority: int, events: seq<Event>, more: seq<Event>)
    ensures HandleAll(priority, After(priority, 1, events), more) == After(priority, 1, events + more)
  {
    if more == [] {
      assert events + more == events;
    } else {
      var n := |more| - 1;
      assert (events + more)[..|events + more| - 1] == events + more[..n];
      HistoryGoesOn(priority, events, more[..n]);
    }
  }

  /** Waits on the latch while `events` come in; returns how many came before it opened or time ran out. */
  method Wait(callback: LocatorCallback, events: seq<Event>) returns (n: nat)
    requires callback.IsSingleLocationRequest()
    modifies callback
    ensures callback.fixNumber == old(callback.fixNumber) && callback.locationPriority == old(callback.locationPriority)
    ensures n <= |events| && (n < |events| ==> callback.count == 0)
    ensures callback.View() == HandleAll(callback.locationPriority, old(callback.View()), events[..n])
  {
    n := 0;
    var count := callback.GetCount();
    while n < |events| && count != 0
      invariant n <= |events| && count == callback.count
      invariant callback.fixNumber == old(callback.fixNumber)
      invariant callback.locationPriority == old(callback.locationPriority)
      invariant callback.View() == HandleAll(callback.locationPriority, old(callback.View()), events[..n])
    {
      callback.OnRemoteRequest(events[n]);
      count := callback.GetCount();
      assert events[..n + 1][..n] == events[..n];
      n := n + 1;
    }
  }

  /** The blocking part of a request on a new callback.  `code` is the service's answer to the start, the events
      are those that come in while the request waits, `cached` is what the service has cached.  `handled`
      returns the events that were waited for. */
  method StartLocating(callback: LocatorCallback, timeOut: int, code: int, first: seq<Event>, second: seq<Event>,
                       cached: Option<Location>)
    returns (errCode: int, ghost handled: seq<Event>)
    requires callback.IsSingleLocationRequest() && callback.View() == INITIAL
    modifies callback
    ensures code != ERRCODE_SUCCESS ==> errCode == code && handled == [] && callback.View() == INITIAL.(count := 0)
    ensures code == ERRCODE_SUCCESS ==>
      && (forall fix :: IsStoredFix(callback.locationPriority, handled, fix) ==>
        callback.singleLocation == if fix.Some? then fix else cached)
      && errCode == (if callback.singleLocation.Some? then ERRCODE_SUCCESS else ERRCODE_LOCATING_FAIL)
      && callback.count == 1
      && (|| handled == first
          || (timeOut > DEFAULT_TIMEOUT_30S && handled == first + second)
          || !NothingOpened(callback.locationPriority, handled))
  {
    hide After, Handle, HandleAll, NothingOpened, IsStoredFix;
    errCode, handled := code, [];
    if errCode != ERRCODE_SUCCESS {
      callback.SetCount(0);
      return;
    }
    ghost var priority := callback.locationPriority;
    NothingHappenedYet(priority);
    var n := Wait(callback, first);
    handled := first[..n];
    HistoryGoesOn(priority, [], handled);
    assert [] + handled == handled;
    OpenLatchMeansFix(priority, handled);
    if timeOut > DEFAULT_TIMEOUT_30S && callback.singleLocation.None? {
      var m := Wait(callback, second);
      HistoryGoesOn(priority, handled, second[..m]);
      handled := handled + second[..m];
    }
    assert first[..|first|] == first && second[..|second|] == second;
    LatchClosedExactlyWhen(priority, handled);
    OpenLatchMeansFix(priority, handled);
    ghost var stored := callback.singleLocation;
    forall fix | IsStoredFix(priority, handled, fix)
      ensures fix == stored
    {
      StoredFixOfHistory(priority, 1, handled);
      StoredFixIsUnique(priority, handled, fix, stored);
    }
    var count := callback.GetCount();
    if count != 0 && callback.singleLocation.None? {
      if cached.Some? {
        callback.singleLocation := cached;
      } else {
        errCode := ERRCODE_LOCATING_FAIL;
      }
    }
    callback.SetCount(1);
  }

  lemma NothingHappenedYet(priority: int)
    ensures After(priority, 1, []) == INITIAL
  {
  }
}
