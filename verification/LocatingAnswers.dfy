/**
 What a single-location request answers.  Every run leaves a trace of what the waiter has asked the
 service, and the trace decides the answer: which error code, or a location.  Between these calls the
 waiter waits for its time-out and no longer, and it always comes to an end.
 */
module LocatingAnswers {
  import opened ErrorCodes
  import opened Wrappers
  import opened LocatingProtocol
  import opened LocatorCallbacks

  // ---------- the calls of the service ----------

  /** A call of the service, with its answer. */
  datatype Call =
    | AskedSwitch(code: int)
    | Started(code: int)
    | Stopped
    | AskedCache(cached: Option<Location>)

  /** The call that the step makes, if any. */
  function CallOf(s: State, step: Step): seq<Call> {
    if s.crashed || !step.Advance? then []
    else
      match s.waiter
      case CheckSwitch => [AskedSwitch(step.answer.code)]
      case Start => [Started(step.answer.code)]
      case Stop => [Stopped]
      case AskCache => [AskedCache(step.answer.cached)]
      case _ => []
  }

  function Trace(s: State, steps: seq<Step>): seq<Call>
    decreases |steps|
  {
    if steps == [] then [] else CallOf(s, steps[0]) + Trace(Apply(s, steps[0]), steps[1..])
  }

  const RUNNING: seq<Call> := [AskedSwitch(ERRCODE_SUCCESS), Started(ERRCODE_SUCCESS)]
  const OVER: seq<Call> := [AskedSwitch(ERRCODE_SUCCESS), Started(ERRCODE_SUCCESS), Stopped]

  /** How a request fails: the reason, and what it has asked by then. */
  ghost predicate FailsWith(config: RequestConfig, trace: seq<Call>, code: int) {
    || (!IsRequestConfigValid(config) && trace == [] && code == ERRCODE_INVALID_PARAM)
    || (&& IsRequestConfigValid(config) && code != ERRCODE_SUCCESS
        && (trace == [AskedSwitch(code)] || trace == [AskedSwitch(ERRCODE_SUCCESS), Started(code)]))
    || (IsRequestConfigValid(config) && trace == OVER + [AskedCache(None)] && code == ERRCODE_LOCATING_FAIL)
  }

  /** What has been asked when the waiter stands where it does. */
  ghost predicate TraceFits(s: State, trace: seq<Call>) {
    && (!s.waiter.CheckConfig? && s.waiter != Done(Failed(ERRCODE_INVALID_PARAM)) ==> IsRequestConfigValid(s.config))
    && match s.waiter
       case CheckConfig => trace == []
       case CheckSwitch => trace == []
       case Start => trace == [AskedSwitch(ERRCODE_SUCCESS)]
       case DropLatch(code) => code != ERRCODE_SUCCESS && trace == [AskedSwitch(ERRCODE_SUCCESS), Started(code)]
       case ReadCount => trace == OVER
       case ReadFix => trace == OVER
       case AskCache => trace == OVER
       case ResetLatch(code) => EndsWith(s, trace, code)
       case ReadResult(code) => EndsWith(s, trace, code)
       case Done(Failed(code)) => FailsWith(s.config, trace, code)
       case Done(Found(_)) => FoundAfter(trace)
       case _ => trace == RUNNING
  }

  /** The service was started and stopped, and the cache was asked at most once, with success. */
  ghost predicate FoundAfter(trace: seq<Call>) {
    trace == OVER || (|trace| == 4 && trace[..3] == OVER && trace[3].AskedCache? && trace[3].cached.Some?)
  }

  ghost predicate EndsWith(s: State, trace: seq<Call>, code: int) {
    if code == ERRCODE_SUCCESS then FoundAfter(trace)
    else code == ERRCODE_LOCATING_FAIL && trace == OVER + [AskedCache(None)]
  }

  lemma StepFits(s: State, step: Step, trace: seq<Call>)
    requires TraceFits(s, trace)
    ensures TraceFits(Apply(s, step), trace + CallOf(s, step))
  {
    hide IsRequestConfigValid, HandlerStep;
    assert trace + [] == trace;
    if step.Advance? && s.waiter.AskCache? {
      assert (trace + CallOf(s, step))[..3] == OVER;
    }
  }

  lemma {:induction false} RunFits(s: State, steps: seq<Step>, before: seq<Call>)
    requires TraceFits(s, before)
    ensures TraceFits(RunAll(s, steps), before + Trace(s, steps))
    decreases |steps|
  {
    hide TraceFits, Apply, CallOf;
    if steps == [] {
      assert before + [] == before;
    } else {
      StepFits(s, steps[0], before);
      RunFits(Apply(s, steps[0]), steps[1..], before + CallOf(s, steps[0]));
      assert before + (CallOf(s, steps[0]) + Trace(Apply(s, steps[0]), steps[1..])) ==
        before + CallOf(s, steps[0]) + Trace(Apply(s, steps[0]), steps[1..]);
    }
  }

  lemma {:induction false} ConfigStays(s: State, steps: seq<Step>)
    ensures RunAll(s, steps).config == s.config
    decreases |steps|
  {
    hide HandlerStep, IsRequestConfigValid;
    if steps == [] {
    } else {
      ConfigStays(Apply(s, steps[0]), steps[1..]);
    }
  }

  /** However the threads interleave, the trace decides the answer.  An invalid request asks nothing and gets
      ERRCODE_INVALID_PARAM.  A valid one fails with the code of the switch, with the code of the start, or
      with ERRCODE_LOCATING_FAIL when the cache was asked last and had nothing; and when it succeeds the
      service was started and stopped once. */
  lemma TraceDecidesTheAnswer(config: RequestConfig, steps: seq<Step>)
    ensures
      var end, trace := RunAll(Initial(config), steps), Trace(Initial(config), steps);
      && (end.waiter.Done? && end.waiter.outcome.Failed? ==> FailsWith(config, trace, end.waiter.outcome.code))
      && (end.waiter.Done? && end.waiter.outcome.Found? ==> IsRequestConfigValid(config) && FoundAfter(trace))
      && (!IsRequestConfigValid(config) ==>
        trace == [] && (end.waiter.CheckConfig? || end.waiter == Done(Failed(ERRCODE_INVALID_PARAM))))
  {
    RunFits(Initial(config), steps, []);
    ConfigStays(Initial(config), steps);
    assert [] + Trace(Initial(config), steps) == Trace(Initial(config), steps);
  }

  /** The service accepts every call of the waiter, and has a location cached. */
  ghost predicate AlwaysAnswers(steps: seq<Step>) {
    forall i :: 0 <= i < |steps| && steps[i].Advance? ==>
      steps[i].answer.code == ERRCODE_SUCCESS && steps[i].answer.cached.Some?
  }

  ghost predicate AllAnswered(trace: seq<Call>) {
    forall i :: 0 <= i < |trace| ==>
      match trace[i]
      case AskedSwitch(code) => code == ERRCODE_SUCCESS
      case Started(code) => code == ERRCODE_SUCCESS
      case Stopped => true
      case AskedCache(cached) => cached.Some?
  }

  lemma {:induction false} AnswersAreTraced(s: State, steps: seq<Step>)
    requires AlwaysAnswers(steps)
    ensures AllAnswered(Trace(s, steps))
    decreases |steps|
  {
    hide Apply;
    if steps == [] {
    } else {
      AnswersAreTraced(Apply(s, steps[0]), steps[1..]);
    }
  }

  lemma FailureIsAnswered(config: RequestConfig, trace: seq<Call>, code: int)
    requires IsRequestConfigValid(config) && FailsWith(config, trace, code)
    ensures !AllAnswered(trace)
  {
    hide IsRequestConfigValid;
    assert trace[|trace| - 1] != AskedSwitch(ERRCODE_SUCCESS) && trace[|trace| - 1] != Started(ERRCODE_SUCCESS);
  }

  /** A valid request to such a service never fails. */
  lemma AnsweredRequestNeverFails(config: RequestConfig, steps: seq<Step>)
    requires IsRequestConfigValid(config) && AlwaysAnswers(steps)
    ensures
      var end := RunAll(Initial(config), steps);
      end.waiter.Done? ==> end.waiter.outcome.Found?
  {
    hide AlwaysAnswers, IsRequestConfigValid;
    TraceDecidesTheAnswer(config, steps);
    AnswersAreTraced(Initial(config), steps);
    var end := RunAll(Initial(config), steps);
    if end.waiter.Done? && end.waiter.outcome.Failed? {
      FailureIsAnswered(config, Trace(Initial(config), steps), end.waiter.outcome.code);
    }
  }

  // ---------- how long it waits ----------

  /** How long the wait lasts that the waiter is in, if nothing ends it before. */
  function LengthOf(s: State): int {
    match s.waiter
    case WaitLong => DEFAULT_TIMEOUT_30S
    case WaitRest => s.config.timeOut - DEFAULT_TIMEOUT_30S
    case WaitShort => s.config.timeOut
    case _ => 0
  }

  /** The length of the wait that runs out in this step. */
  function TimeOf(s: State, step: Step): int {
    if step.Advance? && step.answer.timedOut && s.shared.count != 0 && !s.crashed then LengthOf(s) else 0
  }

  function Waited(s: State, steps: seq<Step>): int
    decreases |steps|
  {
    if steps == [] then 0 else TimeOf(s, steps[0]) + Waited(Apply(s, steps[0]), steps[1..])
  }

  /** How long it has waited by the time it stands where it does: in full, unless a fix was there. */
  predicate TimeFits(s: State, trace: seq<Call>, waited: int) {
    var timeOut := s.config.timeOut;
    match s.waiter
    case PeekFix =>
      timeOut > DEFAULT_TIMEOUT_30S && (waited == DEFAULT_TIMEOUT_30S || (waited == 0 && s.shared.fix.Some?))
    case WaitLong => timeOut > DEFAULT_TIMEOUT_30S && waited == 0
    case WaitRest => timeOut > DEFAULT_TIMEOUT_30S && waited == DEFAULT_TIMEOUT_30S
    case WaitShort => timeOut <= DEFAULT_TIMEOUT_30S && waited == 0 && timeOut > 0
    case Stop => EnoughWaited(s, waited)
    case ReadCount => EnoughWaited(s, waited)
    case ReadFix => EnoughWaited(s, waited)
    case AskCache => waited == timeOut
    case ResetLatch(code) => 0 <= waited <= timeOut && (code != ERRCODE_SUCCESS ==> waited == timeOut)
    case ReadResult(code) => 0 <= waited <= timeOut && (code != ERRCODE_SUCCESS ==> waited == timeOut)
    case Done(Found(_)) => 0 <= waited <= timeOut
    case Done(Failed(_)) => waited == if |trace| == 4 then timeOut else 0
    case CheckConfig => waited == 0
    case _ => waited == 0 && timeOut > 0
  }

  predicate EnoughWaited(s: State, waited: int) {
    waited == s.config.timeOut || (0 <= waited <= s.config.timeOut && s.shared.fix.Some?)
  }

  lemma StepTakesItsTime(s: State, step: Step, trace: seq<Call>, before: int)
    requires Inv(s) && TraceFits(s, trace) && TimeFits(s, trace, before)
    ensures TimeFits(Apply(s, step), trace + CallOf(s, step), before + TimeOf(s, step))
  {
    hide HandlerStep, HandlerInv, IsRequestConfigValid;
    assert trace + [] == trace;
    if step.Run? {
      HandlerStepKeepsInv(s, step.thread);
    } else if s.waiter.CheckConfig? {
      ValidMeansPositive(s.config);
    }
  }

  lemma ValidMeansPositive(config: RequestConfig)
    ensures IsRequestConfigValid(config) ==> config.timeOut > 0
  {
  }

  lemma {:induction false} RunTakesItsTime(s: State, steps: seq<Step>, trace: seq<Call>, before: int)
    requires Inv(s) && TraceFits(s, trace) && TimeFits(s, trace, before)
    ensures TimeFits(RunAll(s, steps), trace + Trace(s, steps), before + Waited(s, steps))
    decreases |steps|
  {
    hide Inv, TimeFits, Apply, TimeOf, TraceFits, CallOf;
    if steps == [] {
      assert trace + [] == trace;
    } else {
      StepKeepsInv(s, steps[0]);
      StepFits(s, steps[0], trace);
      StepTakesItsTime(s, steps[0], trace, before);
      RunTakesItsTime(Apply(s, steps[0]), steps[1..], trace + CallOf(s, steps[0]), before + TimeOf(s, steps[0]));
      assert trace + (CallOf(s, steps[0]) + Trace(Apply(s, steps[0]), steps[1..])) ==
        trace + CallOf(s, steps[0]) + Trace(Apply(s, steps[0]), steps[1..]);
    }
  }

  /** A request never waits longer than its time-out, and one that comes to ask the cache in vain has waited for
      exactly that long. */
  lemma WaitsForTheTimeOut(config: RequestConfig, steps: seq<Step>)
    requires IsRequestConfigValid(config)
    ensures
      var end, trace := RunAll(Initial(config), steps), Trace(Initial(config), steps);
      var waited := Waited(Initial(config), steps);
      && 0 <= waited <= config.timeOut
      && (end.waiter.Done? && trace == OVER + [AskedCache(None)] ==> waited == config.timeOut)
  {
    hide IsRequestConfigValid;
    var end, trace := RunAll(Initial(config), steps), Trace(Initial(config), steps);
    ValidMeansPositive(config);
    RunTakesItsTime(Initial(config), steps, [], 0);
    ConfigStays(Initial(config), steps);
    RunFits(Initial(config), steps, []);
    assert [] + trace == trace;
  }

  // ---------- the end ----------

  /** How many of its statements the waiter still has before it at most. */
  function Ahead(w: Waiter): nat {
    match w
    case CheckConfig => 12
    case CheckSwitch => 11
    case Start => 10
    case WaitLong => 9
    case PeekFix => 8
    case WaitRest => 7
    case WaitShort => 7
    case Stop => 6
    case ReadCount => 5
    case ReadFix => 4
    case AskCache => 3
    case ResetLatch(_) => 2
    case DropLatch(_) => 1
    case ReadResult(_) => 1
    case Done(_) => 0
  }

  /** The steps of the waiter in which time has run out. */
  function Patience(steps: seq<Step>): nat {
    if steps == [] then 0
    else (if steps[0].Advance? && steps[0].answer.timedOut then 1 else 0) + Patience(steps[1..])
  }

  lemma StepComesCloser(s: State, step: Step)
    requires Inv(s)
    ensures Ahead(Apply(s, step).waiter) <= Ahead(s.waiter)
    ensures step.Advance? && step.answer.timedOut && !s.waiter.Done? ==>
      Ahead(Apply(s, step).waiter) < Ahead(s.waiter)
  {
    hide HandlerStep, HandlerInv, IsRequestConfigValid;
  }

  /** When time runs out in twelve of its steps at the latest, the request is over, whatever the others do. */
  lemma {:induction false} RequestEnds(s: State, steps: seq<Step>)
    requires Inv(s) && Patience(steps) >= Ahead(s.waiter)
    ensures RunAll(s, steps).waiter.Done?
    decreases |steps|
  {
    hide Inv, Apply;
    if steps == [] {
    } else {
      StepComesCloser(s, steps[0]);
      StepKeepsInv(s, steps[0]);
      RequestEnds(Apply(s, steps[0]), steps[1..]);
    }
  }

  /** A valid request returns a location when the service answers and time does not stand still. */
  lemma AnsweredRequestReturnsALocation(config: RequestConfig, steps: seq<Step>)
    requires IsRequestConfigValid(config) && AlwaysAnswers(steps) && Patience(steps) >= 12
    ensures
      var end := RunAll(Initial(config), steps);
      end.waiter.Done? && end.waiter.outcome.Found?
  {
    hide IsRequestConfigValid, AlwaysAnswers, Patience;
    RequestEnds(Initial(config), steps);
    AnsweredRequestNeverFails(config, steps);
  }

  // ---------- a request that nobody reports to ----------

  ghost predicate NobodyReports(steps: seq<Step>) {
    forall i :: 0 <= i < |steps| ==> steps[i].Advance?
  }

  /** Then only the waiter touches the shared fields. */
  ghost predicate QuietFits(s: State, trace: seq<Call>) {
    && s.shared.count == (if s.waiter.Done? && |trace| == 2 && trace[1] != Started(ERRCODE_SUCCESS) then 0 else 1)
    && (|trace| < 4 ==> s.shared.fix.None?)
    && (|trace| == 4 ==> trace[3] == AskedCache(s.shared.fix))
    && (s.waiter.Done? && s.waiter.outcome.Found? ==> s.shared.fix == Some(s.waiter.outcome.location))
    && (s.waiter == ResetLatch(ERRCODE_SUCCESS) || s.waiter == ReadResult(ERRCODE_SUCCESS) ==> |trace| == 4)
  }

  lemma QuietStepFits(s: State, step: Step, trace: seq<Call>)
    requires step.Advance? && !s.crashed && TraceFits(s, trace) && QuietFits(s, trace)
    ensures QuietFits(Apply(s, step), trace + CallOf(s, step)) && !Apply(s, step).crashed
  {
    hide IsRequestConfigValid;
    assert trace + [] == trace;
  }

  lemma {:induction false} QuietRunFits(s: State, steps: seq<Step>, before: seq<Call>)
    requires NobodyReports(steps) && !s.crashed && TraceFits(s, before) && QuietFits(s, before)
    ensures QuietFits(RunAll(s, steps), before + Trace(s, steps))
    decreases |steps|
  {
    hide TraceFits, QuietFits, Apply, CallOf;
    if steps == [] {
      assert before + [] == before;
    } else {
      StepFits(s, steps[0], before);
      QuietStepFits(s, steps[0], before);
      QuietRunFits(Apply(s, steps[0]), steps[1..], before + CallOf(s, steps[0]));
      assert before + (CallOf(s, steps[0]) + Trace(Apply(s, steps[0]), steps[1..])) ==
        before + CallOf(s, steps[0]) + Trace(Apply(s, steps[0]), steps[1..]);
    }
  }

  /** It returns what was cached, and the latch is closed at the end unless the start was refused. */
  lemma QuietRequestReturnsTheCached(config: RequestConfig, steps: seq<Step>)
    requires NobodyReports(steps)
    ensures
      var end, trace := RunAll(Initial(config), steps), Trace(Initial(config), steps);
      end.waiter.Done? ==>
        && (end.waiter.outcome.Found? ==> trace == OVER + [AskedCache(Some(end.waiter.outcome.location))])
        && end.shared.count == (if |trace| == 2 then 0 else 1)
  {
    hide IsRequestConfigValid, CallOf;
    var end, trace := RunAll(Initial(config), steps), Trace(Initial(config), steps);
    RunFits(Initial(config), steps, []);
    QuietRunFits(Initial(config), steps, []);
    assert [] + trace == trace;
    assert |trace| == 4 ==> trace == trace[..3] + [trace[3]];
  }

  // ---------- the first report ----------

  /** The requests that keep a fix back in the hope of a better one. */
  predicate WantsAccuracy(config: RequestConfig) {
    || config.priority == LOCATION_PRIORITY_ACCURACY
    || config.scenario in {SCENE_NAVIGATION, SCENE_TRAJECTORY_TRACKING, SCENE_CAR_HAILING}
    || (config.scenario == SCENE_UNSET && config.priority == PRIORITY_ACCURACY)
  }

  /** The first report is stored.  It opens the latch, unless the request wants accuracy and the report is from
      the network or, in a high-definition area, from satellites: every request begins in one. */
  lemma FirstReportOpensExactly(config: RequestConfig, thread: nat, location: Location)
    ensures
      var end := RunAll(Initial(config), [Arrive(thread, Report(location))] + Solo(thread, 8));
      && end.shared.fix == Some(location)
      && (end.shared.count == 0 <==>
        !(WantsAccuracy(config) && location.source in {NETWORK_TYPE, GNSS_TYPE, RTK_TYPE}))
  {
    hide RunAll, Solo;
    UninterruptedHandlerIsOneCall(Initial(config), thread, Report(location));
  }

  // ---------- a request that one report comes to ----------

  /** The fix is there, and only the waiter moves: it keeps the fix, and closes the latch before it returns. */
  predicate LoneFits(s: State, location: Location) {
    && s.shared.fix == Some(location) && !s.crashed
    && (s.waiter.ReadResult? || (s.waiter.Done? && s.waiter.outcome.Found?) ==> s.shared.count == 1)
    && (s.waiter.Done? && s.waiter.outcome.Found? ==> s.waiter.outcome.location == location)
    && !s.waiter.AskCache?
  }

  lemma {:induction false} LoneRunFits(s: State, steps: seq<Step>, location: Location)
    requires NobodyReports(steps) && LoneFits(s, location)
    ensures LoneFits(RunAll(s, steps), location)
    decreases |steps|
  {
    hide IsRequestConfigValid;
    if steps == [] {
    } else {
      LoneRunFits(Apply(s, steps[0]), steps[1..], location);
    }
  }

  /** A report that comes whole before the waiter moves is what a request returns that succeeds, and the latch is
      closed at its end.  With a service that answers, and when time does not stand still, it succeeds. */
  lemma OneReportIsReturned(config: RequestConfig, thread: nat, location: Location, steps: seq<Step>)
    requires NobodyReports(steps)
    ensures
      var reported := RunAll(Initial(config), [Arrive(thread, Report(location))] + Solo(thread, 8));
      var end := RunAll(reported, steps);
      && (end.waiter.Done? && end.waiter.outcome.Found? ==>
        end.waiter.outcome.location == location && end.shared.count == 1)
      && (IsRequestConfigValid(config) && AlwaysAnswers(steps) && Patience(steps) >= 12 ==>
        end.waiter == Done(Found(location)))
  {
    hide IsRequestConfigValid, Solo, AlwaysAnswers, Inv, TraceFits, Patience, Ahead;
    var start := [Arrive(thread, Report(location))] + Solo(thread, 8);
    var reported := RunAll(Initial(config), start);
    FirstReportOpensExactly(config, thread, location);
    UninterruptedHandlerIsOneCall(Initial(config), thread, Report(location));
    StartKeepsInv(config);
    RunKeepsInv(Initial(config), start);
    ConfigStays(Initial(config), start);
    LoneRunFits(reported, steps, location);
    if IsRequestConfigValid(config) && AlwaysAnswers(steps) && Patience(steps) >= 12 {
      assert reported.waiter == CheckConfig;
      AheadOfAll(reported);
      RequestEnds(reported, steps);
      NothingAsked(reported);
      RunFits(reported, steps, []);
      assert [] + Trace(reported, steps) == Trace(reported, steps);
      ConfigStays(reported, steps);
      AnswersAreTraced(reported, steps);
      DoneFits(RunAll(reported, steps), Trace(reported, steps));
    }
  }

  lemma StartKeepsInv(config: RequestConfig)
    ensures Inv(Initial(config))
  {
  }

  lemma AheadOfAll(s: State)
    ensures Ahead(s.waiter) <= 12
  {
  }

  lemma NothingAsked(s: State)
    requires s.waiter == CheckConfig
    ensures TraceFits(s, [])
  {
  }

  lemma DoneFits(s: State, trace: seq<Call>)
    requires TraceFits(s, trace) && s.waiter.Done? && IsRequestConfigValid(s.config) && AllAnswered(trace)
    ensures s.waiter.outcome.Found?
  {
    hide IsRequestConfigValid;
    if s.waiter.outcome.Failed? {
      FailureIsAnswered(s.config, trace, s.waiter.outcome.code);
    }
  }
}
