/**
 What a geofence task answers: every task ends, and one that is alone on its callback object fails for a
 reason that its code tells.
 */
module GeofenceAnswers {
  import opened ErrorCodes
  import opened GeofenceTasks
  import opened Latches
  import opened Wrappers

  // ---------- why a task fails ----------

  /** The service has refused the call, and its code is what the task reports. */
  predicate WasRefused(t: Task) {
    t.reply != ERRCODE_SUCCESS && t.err == t.reply
  }

  /** The call was accepted, but no report came in time. */
  predicate RanOutOfTime(t: Task) {
    t.reply == ERRCODE_SUCCESS && t.err == ERRCODE_SERVICE_UNAVAILABLE
  }

  /** The call was accepted, and the report that was stored whole says why it has failed. */
  predicate WasDenied(h: Host, i: nat, t: Task) {
    && t.reply == ERRCODE_SUCCESS && Whole(h, i) && h.answers[i].report.opType == WantedType(t.op)
    && t.err == DealGeofenceOperationResult(h.answers[i].report.result) != ERRCODE_SUCCESS
  }

  /** The call was accepted, and the report is about an operation of another kind: no error, and nothing told. */
  predicate WasMistaken(h: Host, i: nat, t: Task) {
    && t.reply == ERRCODE_SUCCESS && Whole(h, i) && h.answers[i].report.opType != WantedType(t.op)
    && t.err == ERRCODE_SUCCESS
  }

  /** What the code of a lone task says while it runs and when it has failed. */
  predicate CodeFits(h: Host, i: nat)
    requires i < |h.tasks|
  {
    var t := h.tasks[i];
    t.alone ==>
      match t.place
      case Execute => t.reply == ERRCODE_SUCCESS
      case DropLatch => WasRefused(t)
      case Wait => t.err == t.reply && (WasRefused(t) ==> h.count == 0)
      case Check => t.err == t.reply && (WasRefused(t) ==> h.count == 0)
      case Reset => t.err == t.reply || RanOutOfTime(t)
      case ReadType => t.err == t.reply || RanOutOfTime(t)
      case ReadResult => t.reply == ERRCODE_SUCCESS
      case ReadId => t.reply == ERRCODE_SUCCESS
      case Finish(_) => t.reply == ERRCODE_SUCCESS
      case Done(None) => WasRefused(t) || RanOutOfTime(t) || WasDenied(h, i, t) || WasMistaken(h, i, t)
      case Done(Some(_)) => t.reply == ERRCODE_SUCCESS
  }

  ghost predicate CodesFit(h: Host) {
    forall i :: 0 <= i < |h.tasks| ==> CodeFits(h, i)
  }

  lemma MovedTaskFits(h: Host, i: nat, outside: Outside)
    requires i < |h.tasks| && TaskOk(h, i) && CodeFits(h, i)
    ensures CodeFits(TaskStep(h, i, outside), i)
  {
    hide DealGeofenceOperationResult;
  }

  lemma OtherTaskFits(h: Host, i: nat, outside: Outside, k: nat)
    requires i < |h.tasks| && k < |h.tasks| && k != i && TaskOk(h, k) && CodeFits(h, k)
    ensures CodeFits(TaskStep(h, i, outside), k)
  {
    var h', t := TaskStep(h, i, outside), h.tasks[k];
    assert h'.tasks[k] == t && h'.answers == h.answers;
    if t.alone && !t.place.Done? {
      assert h' == h;
    }
  }

  lemma TaskStepFits(h: Host, i: nat, outside: Outside)
    requires HostInv(h) && CodesFit(h) && i < |h.tasks|
    ensures CodesFit(TaskStep(h, i, outside))
  {
    hide TaskOk, CodeFits;
    forall k | 0 <= k < |h.tasks|
      ensures CodeFits(TaskStep(h, i, outside), k)
    {
      assert TaskOk(h, k) && CodeFits(h, k);
      if k == i {
        MovedTaskFits(h, i, outside);
      } else {
        OtherTaskFits(h, i, outside, k);
      }
    }
  }

  lemma AnswerStepFits(h: Host, j: nat)
    requires CodesFit(h) && j < |h.answers|
    ensures CodesFit(AnswerStep(h, j))
  {
    hide DealGeofenceOperationResult;
    var h' := AnswerStep(h, j);
    forall k | 0 <= k < |h'.tasks|
      ensures CodeFits(h', k)
    {
      assert CodeFits(h, k);
      assert Whole(h, k) ==> h'.answers[k] == h.answers[k];
    }
  }

  lemma ArriveFits(h: Host, r: Report)
    requires CodesFit(h)
    ensures CodesFit(Arrive(h, r))
  {
    hide DealGeofenceOperationResult;
    var h' := Arrive(h, r);
    forall k | 0 <= k < |h'.tasks|
      ensures CodeFits(h', k)
    {
      assert CodeFits(h, k);
    }
  }

  lemma JoinFits(h: Host, fenceId: int)
    requires CodesFit(h)
    ensures CodesFit(Join(h, Remove(fenceId)))
  {
    hide DealGeofenceOperationResult, Settled;
    var h' := Join(h, Remove(fenceId));
    forall k | 0 <= k < |h'.tasks|
      ensures CodeFits(h', k)
    {
      if k < |h.tasks| {
        assert CodeFits(h, k);
      }
    }
  }

  lemma NewHostFits(op: Op)
    ensures CodesFit(NewHost(op))
  {
  }

  ghost predicate AllFit(s: State) {
    forall host :: 0 <= host < |s.hosts| ==> CodesFit(s.hosts[host])
  }

  lemma StepFits(s: State, step: Step)
    requires Inv(s) && AllFit(s)
    ensures AllFit(Apply(s, step))
  {
    hide HostInv, CodesFit, TaskStep, AnswerStep, Arrive, Join, NewHost;
    match step
    case AddFence => NewHostFits(Add);
    case RemoveFence(fenceId) =>
      NewHostFits(Remove(fenceId));
      if fenceId in s.fences && s.fences[fenceId] < |s.hosts| {
        JoinFits(s.hosts[s.fences[fenceId]], fenceId);
      }
    case RunTask(host, task, outside) =>
      if host < |s.hosts| && task < |s.hosts[host].tasks| {
        TaskStepFits(s.hosts[host], task, outside);
      }
    case SendReport(host, report) =>
      if host < |s.hosts| {
        ArriveFits(s.hosts[host], report);
      }
    case RunAnswer(host, answer) =>
      if host < |s.hosts| && answer < |s.hosts[host].answers| {
        AnswerStepFits(s.hosts[host], answer);
      }
  }

  lemma {:induction false} RunFits(s: State, steps: seq<Step>)
    requires Inv(s) && AllFit(s)
    ensures AllFit(RunAll(s, steps))
    decreases |steps|
  {
    hide Apply, CodesFit, Inv;
    if steps == [] {
    } else {
      StepFits(s, steps[0]);
      StepKeepsInv(s, steps[0]);
      RunFits(Apply(s, steps[0]), steps[1..]);
    }
  }

  lemma StepKeepsInv(s: State, step: Step)
    requires Inv(s)
    ensures Inv(Apply(s, step))
  {
    hide HostInv, Apply;
    StepKeepsHosts(s, step);
    StepKeepsFences(s, step);
  }

  /** In every run, a task that was alone on its callback object and tells no fence has one of four reasons: its
      call was refused, and it reports the code of the refusal; or no report came in time; or the report says
      why it failed; or the report is about something else.  One that tells a fence was not refused. */
  lemma FailedTaskSaysWhy(steps: seq<Step>, host: nat, i: nat)
    requires
      var s := RunAll(INITIAL, steps);
      && host < |s.hosts| && i < |s.hosts[host].tasks|
      && s.hosts[host].tasks[i].alone && s.hosts[host].tasks[i].place.Done?
    ensures
      var h := RunAll(INITIAL, steps).hosts[host];
      var t := h.tasks[i];
      && (t.place.success.None? ==>
        WasRefused(t) || RanOutOfTime(t) || WasDenied(h, i, t) || WasMistaken(h, i, t))
      && (t.place.success.Some? ==> t.reply == ERRCODE_SUCCESS && Granted(h, i, t))
  {
    hide DealGeofenceOperationResult;
    RunFits(INITIAL, steps);
    EveryRunKeepsInv(steps);
    var h := RunAll(INITIAL, steps).hosts[host];
    assert CodeFits(h, i) && TaskOk(h, i);
  }

  // ---------- every task ends ----------

  /** How many statements a task still has before it at most. */
  function Ahead(place: Place): nat {
    match place
    case Execute => 9
    case DropLatch => 8
    case Wait => 7
    case Check => 6
    case Reset => 5
    case ReadType => 4
    case ReadResult => 3
    case ReadId => 2
    case Finish(_) => 1
    case Done(_) => 0
  }

  /** The task moves, and time has run out. */
  predicate Moves(step: Step, host: nat, i: nat) {
    step.RunTask? && step.host == host && step.task == i && step.outside.timedOut
  }

  function Patience(steps: seq<Step>, host: nat, i: nat): nat {
    if steps == [] then 0 else (if Moves(steps[0], host, i) then 1 else 0) + Patience(steps[1..], host, i)
  }

  predicate IsThere(s: State, host: nat, i: nat) {
    host < |s.hosts| && i < |s.hosts[host].tasks|
  }

  lemma StepComesCloser(s: State, step: Step, host: nat, i: nat)
    requires IsThere(s, host, i)
    ensures IsThere(Apply(s, step), host, i)
    ensures Ahead(Apply(s, step).hosts[host].tasks[i].place) <= Ahead(s.hosts[host].tasks[i].place)
    ensures Moves(step, host, i) && !s.hosts[host].tasks[i].place.Done? ==>
      Ahead(Apply(s, step).hosts[host].tasks[i].place) < Ahead(s.hosts[host].tasks[i].place)
  {
    hide DealGeofenceOperationResult, Settled;
  }

  /** When time runs out in nine of its steps at the latest, a task has ended, whatever the others do. */
  lemma {:induction false} TaskEnds(s: State, steps: seq<Step>, host: nat, i: nat)
    requires IsThere(s, host, i) && Patience(steps, host, i) >= Ahead(s.hosts[host].tasks[i].place)
    ensures IsThere(RunAll(s, steps), host, i) && RunAll(s, steps).hosts[host].tasks[i].place.Done?
    decreases |steps|
  {
    hide Apply;
    if steps == [] {
    } else {
      StepComesCloser(s, steps[0], host, i);
      TaskEnds(Apply(s, steps[0]), steps[1..], host, i);
    }
  }
}
