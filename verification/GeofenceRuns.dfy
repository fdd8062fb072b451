/**
 Particular runs of the geofence machine: what a task and a report do when nothing comes between, and
 which states a service reaches that answers calls with certain codes only.
 */
module GeofenceRuns {
  import opened ErrorCodes
  import opened Latches
  import opened Wrappers
  import opened GeofenceTasks

  /** In these steps the service answers calls only with allowed codes. */
  ghost predicate Allows(steps: seq<Step>, allowed: int -> bool) {
    forall i :: 0 <= i < |steps| && steps[i].RunTask? ==> allowed(steps[i].outside.reply)
  }

  ghost predicate Reachable(s: State, allowed: int -> bool) {
    exists steps :: Allows(steps, allowed) && RunAll(INITIAL, steps) == s
  }

  lemma StartIsReachable(allowed: int -> bool)
    ensures Reachable(INITIAL, allowed)
  {
    assert Allows([], allowed) && RunAll(INITIAL, []) == INITIAL;
  }

  lemma {:induction false} RunSnoc(s: State, steps: seq<Step>, step: Step)
    ensures RunAll(s, steps + [step]) == Apply(RunAll(s, steps), step)
    decreases |steps|
  {
    hide Apply;
    if steps == [] {
      assert RunAll(s, [step]) == RunAll(Apply(s, step), []);
    } else {
      assert (steps + [step])[1..] == steps[1..] + [step];
      RunSnoc(Apply(s, steps[0]), steps[1..], step);
    }
  }

  lemma Go(s: State, step: Step, allowed: int -> bool) returns (s': State)
    requires Reachable(s, allowed) && (step.RunTask? ==> allowed(step.outside.reply))
    ensures Reachable(s', allowed) && s' == Apply(s, step)
  {
    hide Apply;
    var steps :| Allows(steps, allowed) && RunAll(INITIAL, steps) == s;
    assert Allows(steps + [step], allowed);
    RunSnoc(INITIAL, steps, step);
    s' := Apply(s, step);
  }

  function AnswerSteps(h: Host, j: nat, n: nat): (h': Host)
    requires j < |h.answers|
    ensures j < |h'.answers|
    decreases n
  {
    if n == 0 then h else AnswerSteps(AnswerStep(h, j), j, n - 1)
  }

  lemma {:induction false} GoAnswers(s: State, host: nat, j: nat, n: nat, allowed: int -> bool) returns (s': State)
    requires Reachable(s, allowed) && host < |s.hosts| && j < |s.hosts[host].answers|
    ensures Reachable(s', allowed) && s' == s.(hosts := s.hosts[host := AnswerSteps(s.hosts[host], j, n)])
    decreases n
  {
    hide Reachable;
    if n == 0 {
      s' := s;
    } else {
      s' := Go(s, RunAnswer(host, j), allowed);
      s' := GoAnswers(s', host, j, n - 1, allowed);
    }
  }

  /** A handler that is not interrupted stores the report and opens the latch. */
  lemma HandlerRuns(h: Host, j: nat)
    requires j < |h.answers| && h.answers[j].stage == SetId
    ensures
      var a := h.answers[j].(stage := Finished);
      AnswerSteps(h, j, 4) == Host(FieldsAt(h.fields, a), Lower(h.count), h.tasks, h.answers[j := a])
  {
    var r := h.answers[j].report;
    var h1 := AnswerStep(h, j);
    var h2 := AnswerStep(h1, j);
    var h3 := AnswerStep(h2, j);
    var h4 := AnswerStep(h3, j);
    assert h1.answers == h.answers[j := Answer(r, SetType)];
    assert h2.answers == h.answers[j := Answer(r, SetResult)];
    assert h3.answers == h.answers[j := Answer(r, Open)];
    assert h4.answers == h.answers[j := Answer(r, Finished)];
    assert AnswerSteps(h, j, 4) == AnswerSteps(h1, j, 3);
    assert AnswerSteps(h1, j, 3) == AnswerSteps(h2, j, 2);
    assert AnswerSteps(h2, j, 2) == AnswerSteps(h3, j, 1);
    assert AnswerSteps(h3, j, 1) == AnswerSteps(h4, j, 0);
  }

  const PATIENT: Outside := Outside(ERRCODE_SUCCESS, false)

  lemma GoTask(s: State, host: nat, i: nat, outside: Outside, allowed: int -> bool) returns (s': State)
    requires Reachable(s, allowed) && host < |s.hosts| && i < |s.hosts[host].tasks| && allowed(outside.reply)
    ensures Reachable(s', allowed)
    ensures s' == State(
      s.hosts[host := TaskStep(s.hosts[host], i, outside)], FencesAfter(s, host, s.hosts[host].tasks[i]))
  {
    hide Reachable, TaskStep, FencesAfter;
    s' := Go(s, RunTask(host, i, outside), allowed);
  }

  /** An add whose report grants it, and in time, tells the id and puts it into the map. */
  lemma GrantedAddEnds(s: State, host: nat, r: Report, allowed: int -> bool) returns (s': State)
    requires Reachable(s, allowed) && host < |s.hosts| && allowed(ERRCODE_SUCCESS)
    requires s.hosts[host] ==
      Host(FieldsAt(NEW_FIELDS, Answer(r, Finished)), 0,
        [Begun(Add, true, NEW_FIELDS).(place := Wait)], [Answer(r, Finished)])
    requires r.opType == OPT_TYPE_ADD && DealGeofenceOperationResult(r.result) == ERRCODE_SUCCESS
    ensures Reachable(s', allowed)
    ensures
      var id := if r.result == OPERATION_SUCCESS then r.fenceId else NO_FENCE;
      && AddTold(s', host, id) && id in s'.fences
      && s'.hosts == s.hosts[host := s'.hosts[host]]
      && s'.hosts[host].answers == s.hosts[host].answers
      && s'.hosts[host].fields == s.hosts[host].fields && s'.hosts[host].count == 1 && |s'.hosts[host].tasks| == 1
  {
    hide Reachable, DealGeofenceOperationResult;
    s' := GoTask(s, host, 0, PATIENT, allowed);
    assert s'.hosts[host].tasks[0].place == Check;
    s' := GoTask(s', host, 0, PATIENT, allowed);
    assert s'.hosts[host].tasks[0].place == Reset;
    s' := GoTask(s', host, 0, PATIENT, allowed);
    assert s'.hosts[host].tasks[0].place == ReadType;
    s' := GoTask(s', host, 0, PATIENT, allowed);
    assert s'.hosts[host].tasks[0].place == ReadResult;
    s' := GoTask(s', host, 0, PATIENT, allowed);
    assert s'.hosts[host].tasks[0].place == ReadId;
    s' := GoTask(s', host, 0, PATIENT, allowed);
    s' := GoTask(s', host, 0, PATIENT, allowed);
  }

  /** The promise is not empty: an add that is answered in time with a granting report tells its id. */
  lemma GrantedAddSucceeds(s: State, r: Report, allowed: int -> bool) returns (s': State)
    requires Reachable(s, allowed) && allowed(ERRCODE_SUCCESS)
    requires r.opType == OPT_TYPE_ADD && DealGeofenceOperationResult(r.result) == ERRCODE_SUCCESS
    ensures Reachable(s', allowed) && |s'.hosts| == |s.hosts| + 1
    ensures
      var id := if r.result == OPERATION_SUCCESS then r.fenceId else NO_FENCE;
      && AddTold(s', |s.hosts|, id) && id in s'.fences
      && s'.hosts[|s.hosts|].answers == [Answer(r, Finished)]
      && s'.hosts[|s.hosts|].fields == FieldsAt(NEW_FIELDS, Answer(r, Finished)) && s'.hosts[|s.hosts|].count == 1
      && |s'.hosts[|s.hosts|].tasks| == 1
  {
    hide Reachable, DealGeofenceOperationResult, AnswerSteps;
    var host := |s.hosts|;
    s' := Go(s, AddFence, allowed);
    s' := GoTask(s', host, 0, PATIENT, allowed);
    s' := Go(s', SendReport(host, r), allowed);
    var h := s'.hosts[host];
    assert h == Host(NEW_FIELDS, 1, [Begun(Add, true, NEW_FIELDS).(place := Wait)], [Answer(r, SetId)]);
    HandlerRuns(h, 0);
    s' := GoAnswers(s', host, 0, 4, allowed);
    s' := GrantedAddEnds(s', host, r, allowed);
  }

  /** A result code that is not declared passes for success: the script is told the fence id -1. */
  lemma UndeclaredCodeTellsNoFence() returns (s: State)
    ensures Reachable(s, c => c == ERRCODE_SUCCESS) && AddTold(s, 0, NO_FENCE) && NO_FENCE in s.fences
    ensures s.hosts[0].answers == [Answer(Report(5, OPT_TYPE_ADD, 99), Finished)]
  {
    var accepting := (c: int) => c == ERRCODE_SUCCESS;
    StartIsReachable(accepting);
    s := GrantedAddSucceeds(INITIAL, Report(5, OPT_TYPE_ADD, 99), accepting);
  }
}
