/**
 Adding and removing GNSS geofences.  A task of the script engine asks the service and waits on the
 latch of a callback object; the service reports through that object, storing id, type and result one
 after the other and then opening the latch.  Any number of tasks and reports run at the same time.
 */
module GeofenceTasks {
  import opened ErrorCodes
  import opened Latches
  import opened Wrappers

  const OPT_TYPE_ADD := 1
  const OPT_TYPE_DELETE := 2
  const OPERATION_SUCCESS := 0
  const OPERATION_ERROR_UNKNOWN := -1
  const OPERATION_ERROR_TOO_MANY_GEOFENCES := -2
  const OPERATION_ERROR_GEOFENCE_ID_EXISTS := -3
  const OPERATION_ERROR_PARAMS_INVALID := -4
  const OPERATION_ERROR_GEOFENCE_ID_UNKNOWN := -5
  const OPERATION_ERROR_NOT_SUPPORTED := -6
  const OPERATION_ERROR_OPERATE_FAILED := -7

  const NO_FENCE := -1

  /** The result codes that are declared. */
  predicate IsDeclared(result: int) {
    OPERATION_ERROR_OPERATE_FAILED <= result <= OPERATION_SUCCESS
  }

  /** A code that is not declared falls through to success. */
  function DealGeofenceOperationResult(result: int): int {
    if result == OPERATION_SUCCESS then ERRCODE_SUCCESS
    else if result == OPERATION_ERROR_UNKNOWN then ERRCODE_SERVICE_UNAVAILABLE
    else if result == OPERATION_ERROR_TOO_MANY_GEOFENCES then ERRCODE_GEOFENCE_EXCEED_MAXIMUM
    else if result == OPERATION_ERROR_GEOFENCE_ID_EXISTS then ERRCODE_SERVICE_UNAVAILABLE
    else if result == OPERATION_ERROR_PARAMS_INVALID then ERRCODE_SERVICE_UNAVAILABLE
    else if result == OPERATION_ERROR_GEOFENCE_ID_UNKNOWN then ERRCODE_GEOFENCE_INCORRECT_ID
    else if result == OPERATION_ERROR_NOT_SUPPORTED then ERRCODE_NOT_SUPPORTED
    else if result == OPERATION_ERROR_OPERATE_FAILED then ERRCODE_GEOFENCE_FAIL
    else ERRCODE_SUCCESS
  }

  lemma SucceedsExactly(result: int)
    ensures DealGeofenceOperationResult(result) == ERRCODE_SUCCESS <==>
      result == OPERATION_SUCCESS || !IsDeclared(result)
  {
  }

  /** Which results give which failure. */
  lemma FailsExactly(result: int)
    ensures
      var code := DealGeofenceOperationResult(result);
      && (code == ERRCODE_GEOFENCE_EXCEED_MAXIMUM <==> result == OPERATION_ERROR_TOO_MANY_GEOFENCES)
      && (code == ERRCODE_GEOFENCE_INCORRECT_ID <==> result == OPERATION_ERROR_GEOFENCE_ID_UNKNOWN)
      && (code == ERRCODE_NOT_SUPPORTED <==> result == OPERATION_ERROR_NOT_SUPPORTED)
      && (code == ERRCODE_GEOFENCE_FAIL <==> result == OPERATION_ERROR_OPERATE_FAILED)
      && (code == ERRCODE_SERVICE_UNAVAILABLE <==> result in {
        OPERATION_ERROR_UNKNOWN, OPERATION_ERROR_GEOFENCE_ID_EXISTS, OPERATION_ERROR_PARAMS_INVALID})
  {
  }

  // ---------- the callback object ----------

  datatype Last = Last(opType: int, result: int)

  datatype Fields = Fields(fenceId: int, last: Last)

  const NEW_FIELDS: Fields := Fields(NO_FENCE, Last(OPT_TYPE_ADD, OPERATION_SUCCESS))

  datatype Report = Report(fenceId: int, opType: int, result: int)

  /** Where a report handler stands; each value names what it does next. */
  datatype Stage = SetId | SetType | SetResult | Open | Finished

  datatype Answer = Answer(report: Report, stage: Stage)

  predicate CarriesId(r: Report) {
    r.result == OPERATION_SUCCESS && r.opType == OPT_TYPE_ADD
  }

  /** The fields once a handler has come to `stage`. */
  function FieldsAt(before: Fields, answer: Answer): Fields {
    var r := answer.report;
    var id := if answer.stage.SetId? || !CarriesId(r) then before.fenceId else r.fenceId;
    var opType := if answer.stage.SetId? || answer.stage.SetType? then before.last.opType else r.opType;
    var result := if answer.stage.Open? || answer.stage.Finished? then r.result else before.last.result;
    Fields(id, Last(opType, result))
  }

  class GnssGeofenceCallback {
    var fields: Fields
    var count: nat

    constructor ()
      ensures fields == NEW_FIELDS && count == 1
    {
      fields, count := NEW_FIELDS, 1;
    }

    method SetFenceId(fenceId: int)
      modifies this`fields
      ensures fields == old(fields).(fenceId := fenceId)
    {
      fields := fields.(fenceId := fenceId);
    }

    method SetGeofenceOperationType(opType: int)
      modifies this`fields
      ensures fields == old(fields).(last := old(fields).last.(opType := opType))
    {
      fields := fields.(last := fields.last.(opType := opType));
    }

    method SetGeofenceOperationResult(result: int)
      modifies this`fields
      ensures fields == old(fields).(last := old(fields).last.(result := result))
    {
      fields := fields.(last := fields.last.(result := result));
    }

    method OnReportOperationResult(r: Report)
      modifies this`fields
      ensures fields == FieldsAt(old(fields), Answer(r, Open))
    {
      if r.result == OPERATION_SUCCESS && r.opType == OPT_TYPE_ADD {
        SetFenceId(r.fenceId);
      }
      SetGeofenceOperationType(r.opType);
      SetGeofenceOperationResult(r.result);
    }

    /** The whole report, when nothing comes between. */
    method OnRemoteRequest(r: Report)
      modifies this
      ensures fields == FieldsAt(old(fields), Answer(r, Finished)) && count == Lower(old(count))
    {
      OnReportOperationResult(r);
      if count > 0 {
        count := count - 1;
      }
    }
  }

  // ---------- the map of fences ----------

  /** An id that is in the map already keeps its callback. */
  function Inserted(fences: map<int, nat>, id: int, host: nat): map<int, nat> {
    if id in fences then fences else fences[id := host]
  }

  // ---------- tasks ----------

  datatype Op = Add | Remove(fenceId: int)

  /** Where a task stands; each value names what it does next.  `Finish` tells the script and changes
      the map; `Done` keeps the fence id of a success. */
  datatype Place =
    | Execute
    | DropLatch
    | Wait
    | Check
    | Reset
    | ReadType
    | ReadResult
    | ReadId
    | Finish(id: int)
    | Done(success: Option<int>)

  /** `reply` is what the service has answered to the call.  `alone` tells whether no other task and no
      other report has met this one on its callback object, and `before` what the fields were when it
      began. */
  datatype Task = Task(op: Op, place: Place, reply: int, err: int, alone: bool, before: Fields)

  /** A callback object with the tasks that use it and the reports that came to it, in order. */
  datatype Host = Host(fields: Fields, count: nat, tasks: seq<Task>, answers: seq<Answer>)

  datatype State = State(hosts: seq<Host>, fences: map<int, nat>)

  function WantedType(op: Op): int {
    if op.Add? then OPT_TYPE_ADD else OPT_TYPE_DELETE
  }

  /** What the outside decides in a task's step: the service's reply, and whether time ran out. */
  datatype Outside = Outside(reply: int, timedOut: bool)

  /** One statement of task `i`, apart from its effect on the map. */
  function TaskStep(h: Host, i: nat, outside: Outside): Host
    requires i < |h.tasks|
  {
    var t := h.tasks[i];
    match t.place
    case Execute =>
      var next := if outside.reply != ERRCODE_SUCCESS then DropLatch else Wait;
      h.(tasks := h.tasks[i := t.(place := next, reply := outside.reply, err := outside.reply)])
    case DropLatch =>
      h.(count := 0, tasks := h.tasks[i := t.(place := Wait)])
    case Wait =>
      if h.count == 0 || outside.timedOut then h.(tasks := h.tasks[i := t.(place := Check)]) else h
    case Check =>
      var err := if h.count != 0 then ERRCODE_SERVICE_UNAVAILABLE else t.err;
      h.(tasks := h.tasks[i := t.(place := Reset, err := err)])
    case Reset =>
      h.(count := 1, tasks := h.tasks[i := t.(place := ReadType)])
    case ReadType =>
      var next :=
        if t.err == ERRCODE_SUCCESS && h.fields.last.opType == WantedType(t.op) then ReadResult else Done(None);
      h.(tasks := h.tasks[i := t.(place := next)])
    case ReadResult =>
      var err := DealGeofenceOperationResult(h.fields.last.result);
      var next := if err != ERRCODE_SUCCESS then Done(None) else if t.op.Add? then ReadId else Finish(t.op.fenceId);
      h.(tasks := h.tasks[i := t.(place := next, err := err)])
    case ReadId =>
      h.(tasks := h.tasks[i := t.(place := Finish(h.fields.fenceId))])
    case Finish(id) =>
      h.(tasks := h.tasks[i := t.(place := Done(Some(id)))])
    case Done(_) =>
      h
  }

  /** One statement of report handler `j`. */
  function AnswerStep(h: Host, j: nat): Host
    requires j < |h.answers|
  {
    var Answer(r, stage) := h.answers[j];
    match stage
    case SetId =>
      var fields := if CarriesId(r) then h.fields.(fenceId := r.fenceId) else h.fields;
      h.(fields := fields, answers := h.answers[j := Answer(r, SetType)])
    case SetType =>
      h.(fields := h.fields.(last := h.fields.last.(opType := r.opType)),
        answers := h.answers[j := Answer(r, SetResult)])
    case SetResult =>
      h.(fields := h.fields.(last := h.fields.last.(result := r.result)), answers := h.answers[j := Answer(r, Open)])
    case Open =>
      h.(count := Lower(h.count), answers := h.answers[j := Answer(r, Finished)])
    case Finished =>
      h
  }

  /** The service answers every call at most once. */
  function Arrive(h: Host, r: Report): Host {
    if |h.answers| < |h.tasks| then h.(answers := h.answers + [Answer(r, SetId)]) else h
  }

  /** Everything earlier on this callback object is over, answered, and the latch is closed. */
  predicate Settled(h: Host) {
    && (forall i :: 0 <= i < |h.tasks| ==> h.tasks[i].place.Done?)
    && |h.answers| == |h.tasks|
    && (forall j :: 0 <= j < |h.answers| ==> h.answers[j].stage == Finished)
    && h.count == 1
  }

  function Disturbed(t: Task): Task {
    if t.place.Done? then t else t.(alone := false)
  }

  function Begun(op: Op, alone: bool, before: Fields): Task {
    Task(op, Execute, ERRCODE_SUCCESS, ERRCODE_SUCCESS, alone, before)
  }

  /** A new task on a callback object that is in use already. */
  function Join(h: Host, op: Op): Host {
    h.(tasks := seq(|h.tasks|, i requires 0 <= i < |h.tasks| => Disturbed(h.tasks[i]))
                + [Begun(op, Settled(h), h.fields)])
  }

  function NewHost(op: Op): Host {
    Host(NEW_FIELDS, 1, [Begun(op, true, NEW_FIELDS)], [])
  }

  datatype Step =
    | AddFence
    | RemoveFence(fenceId: int)
    | RunTask(host: nat, task: nat, outside: Outside)
    | SendReport(host: nat, report: Report)
    | RunAnswer(host: nat, answer: nat)

  function FencesAfter(s: State, host: nat, t: Task): map<int, nat> {
    if !t.place.Finish? then s.fences
    else if t.op.Add? then Inserted(s.fences, t.place.id, host)
    else s.fences - {t.op.fenceId}
  }

  function Apply(s: State, step: Step): State {
    match step
    case AddFence => s.(hosts := s.hosts + [NewHost(Add)])
    case RemoveFence(fenceId) =>
      if fenceId in s.fences && s.fences[fenceId] < |s.hosts| then
        var host := s.fences[fenceId];
        s.(hosts := s.hosts[host := Join(s.hosts[host], Remove(fenceId))])
      else
        s.(hosts := s.hosts + [NewHost(Remove(fenceId))])
    case RunTask(host, task, outside) =>
      if host < |s.hosts| && task < |s.hosts[host].tasks| then
        State(s.hosts[host := TaskStep(s.hosts[host], task, outside)], FencesAfter(s, host, s.hosts[host].tasks[task]))
      else s
    case SendReport(host, report) =>
      if host < |s.hosts| then s.(hosts := s.hosts[host := Arrive(s.hosts[host], report)]) else s
    case RunAnswer(host, answer) =>
      if host < |s.hosts| && answer < |s.hosts[host].answers| then
        s.(hosts := s.hosts[host := AnswerStep(s.hosts[host], answer)])
      else s
  }

  const INITIAL: State := State([], map[])

  function RunAll(s: State, steps: seq<Step>): State
    decreases |steps|
  {
    if steps == [] then s else RunAll(Apply(s, steps[0]), steps[1..])
  }

  // ---------- one callback object ----------

  /** Report `i` has been stored whole and its handler has opened the latch. */
  predicate Whole(h: Host, i: nat) {
    i < |h.answers| && h.answers[i].stage == Finished
  }

  /** The whole report says that the operation has succeeded. */
  predicate Granted(h: Host, i: nat, t: Task) {
    && Whole(h, i)
    && h.answers[i].report.opType == WantedType(t.op)
    && DealGeofenceOperationResult(h.answers[i].report.result) == ERRCODE_SUCCESS
  }

  /** The fence id a task tells: the reported one, except for a result code that is not declared. */
  function Told(t: Task, r: Report): int {
    if t.op.Remove? then t.op.fenceId else if r.result == OPERATION_SUCCESS then r.fenceId else t.before.fenceId
  }

  /** A running task that is alone: only its own report can have changed the fields since it began, and
      the latch is open only if that report is whole or the service has refused. */
  predicate RunningAlone(h: Host, i: nat, t: Task) {
    && i == |h.tasks| - 1
    && i <= |h.answers| <= i + 1
    && (forall j :: 0 <= j < i ==> h.tasks[j].place.Done? && h.answers[j].stage == Finished)
    && h.fields == (if |h.answers| == i then t.before else FieldsAt(t.before, h.answers[i]))
    && (t.place.Execute? || t.place.Wait? || t.place.Check? ==>
      h.count == 0 ==> t.err != ERRCODE_SUCCESS || Whole(h, i))
    && (t.place.Execute? ==> t.err == ERRCODE_SUCCESS)
    && (t.place.DropLatch? ==> t.err != ERRCODE_SUCCESS)
    && (t.place.Reset? || t.place.ReadType? ==> t.err != ERRCODE_SUCCESS || Whole(h, i))
    && (t.place.ReadResult? ==> Whole(h, i) && h.answers[i].report.opType == WantedType(t.op))
    && (t.place.ReadId? || t.place.Finish? ==> Granted(h, i, t) && t.err == ERRCODE_SUCCESS)
    && (t.place.Finish? ==> t.place.id == Told(t, h.answers[i].report))
    && ((t.place.ReadType? && t.err == ERRCODE_SUCCESS) || t.place.ReadResult? || t.place.ReadId? || t.place.Finish? ==>
      h.count == 1)
  }

  predicate TaskOk(h: Host, i: nat)
    requires i < |h.tasks|
  {
    var t := h.tasks[i];
    && (t.alone && !t.place.Done? ==> RunningAlone(h, i, t))
    && (t.alone && t.place.Done? && t.place.success.Some? ==>
      Granted(h, i, t) && t.err == ERRCODE_SUCCESS && t.place.success.value == Told(t, h.answers[i].report))
    && (t.alone && t.place == Done(None) && t.err == ERRCODE_SUCCESS ==>
      Whole(h, i) && h.answers[i].report.opType != WantedType(t.op))
    && (t.place.Execute? ==> t.reply == ERRCODE_SUCCESS)
    && (t.place.ReadId? ==> t.op.Add?)
    && (t.place.Finish? && t.op.Remove? ==> t.place.id == t.op.fenceId)
    && (t.place.Done? && t.place.success.Some? && t.op.Remove? ==> t.place.success.value == t.op.fenceId)
  }

  predicate AddIsDone(h: Host) {
    h.tasks != [] && h.tasks[0].op.Add? && h.tasks[0].place.Done? && h.tasks[0].place.success.Some?
  }

  /** Only the first task can be an add; another one joins only when that add has told an id. */
  ghost predicate HostInv(h: Host) {
    && 1 <= |h.tasks| && |h.answers| <= |h.tasks| && h.count <= 1
    && h.tasks[0].alone && h.tasks[0].before == NEW_FIELDS
    && (forall i :: 0 < i < |h.tasks| ==> h.tasks[i].op.Remove?)
    && (|h.tasks| > 1 ==> AddIsDone(h))
    && (forall i :: 0 <= i < |h.tasks| ==> TaskOk(h, i))
  }

  lemma MovedTaskIsOk(h: Host, i: nat, outside: Outside)
    requires i < |h.tasks| && TaskOk(h, i)
    ensures TaskOk(TaskStep(h, i, outside), i)
  {
    hide DealGeofenceOperationResult;
  }

  lemma OtherTaskIsOk(h: Host, i: nat, outside: Outside, k: nat)
    requires i < |h.tasks| && k < |h.tasks| && k != i && TaskOk(h, k)
    ensures TaskOk(TaskStep(h, i, outside), k)
  {
    var h', t := TaskStep(h, i, outside), h.tasks[k];
    assert h'.tasks[k] == t && h'.answers == h.answers;
    if t.alone && !t.place.Done? {
      assert h' == h;
    }
  }

  lemma TaskStepKeeps(h: Host, i: nat, outside: Outside)
    requires HostInv(h) && i < |h.tasks|
    ensures HostInv(TaskStep(h, i, outside))
  {
    hide TaskOk, DealGeofenceOperationResult;
    var h' := TaskStep(h, i, outside);
    forall k | 0 <= k < |h'.tasks|
      ensures TaskOk(h', k)
    {
      if k == i {
        MovedTaskIsOk(h, i, outside);
      } else {
        OtherTaskIsOk(h, i, outside, k);
      }
    }
  }

  lemma TaskStaysOk(h: Host, j: nat, k: nat)
    requires j < |h.answers| && k < |h.tasks| && h.count <= 1 && TaskOk(h, k)
    ensures TaskOk(AnswerStep(h, j), k)
  {
    hide Told, DealGeofenceOperationResult;
    var h', t := AnswerStep(h, j), h.tasks[k];
    assert h'.tasks == h.tasks && |h'.answers| == |h.answers|;
    assert forall i :: 0 <= i < |h.answers| ==> h'.answers[i].report == h.answers[i].report;
    if t.alone && !t.place.Done? {
      assert RunningAlone(h, k, t);
      assert j != k ==> h' == h;
    }
  }

  lemma AnswerStepKeeps(h: Host, j: nat)
    requires HostInv(h) && j < |h.answers|
    ensures HostInv(AnswerStep(h, j))
  {
    hide TaskOk;
    var h' := AnswerStep(h, j);
    forall k | 0 <= k < |h'.tasks|
      ensures TaskOk(h', k)
    {
      TaskStaysOk(h, j, k);
    }
  }

  lemma ArriveKeeps(h: Host, r: Report)
    requires HostInv(h)
    ensures HostInv(Arrive(h, r))
  {
    var h' := Arrive(h, r);
    forall k | 0 <= k < |h'.tasks|
      ensures TaskOk(h', k)
    {
      assert TaskOk(h, k);
    }
  }

  lemma JoinKeeps(h: Host, fenceId: int)
    requires HostInv(h) && AddIsDone(h)
    ensures HostInv(Join(h, Remove(fenceId)))
  {
    var h' := Join(h, Remove(fenceId));
    forall k | 0 <= k < |h'.tasks|
      ensures TaskOk(h', k)
    {
      if k < |h.tasks| {
        assert TaskOk(h, k);
      }
    }
  }

  lemma NewHostIsOk(op: Op)
    ensures HostInv(NewHost(op))
  {
  }

  // ---------- all of them ----------

  /** The id that the add on this callback object has told. */
  predicate AddTold(s: State, host: nat, id: int) {
    host < |s.hosts| && AddIsDone(s.hosts[host]) && s.hosts[host].tasks[0].place.success.value == id
  }

  predicate RemoveTold(s: State, host: nat, task: nat, id: int) {
    && host < |s.hosts| && task < |s.hosts[host].tasks|
    && s.hosts[host].tasks[task].op == Remove(id) && s.hosts[host].tasks[task].place == Done(Some(id))
  }

  ghost predicate Removed(s: State, id: int) {
    exists host: nat, task: nat :: RemoveTold(s, host, task, id)
  }

  /** The map holds ids that adds have told, each under its callback object; and a told id stays there
      until a remove of it succeeds. */
  ghost predicate FencesInv(s: State) {
    && (forall id :: id in s.fences ==> AddTold(s, s.fences[id], id))
    && (forall host: nat, id :: AddTold(s, host, id) ==> id in s.fences || Removed(s, id))
  }

  ghost predicate Inv(s: State) {
    (forall host :: 0 <= host < |s.hosts| ==> HostInv(s.hosts[host])) && FencesInv(s)
  }

  /** What is told stays told. */
  ghost predicate Keeps(s: State, s': State) {
    && (forall host: nat, id :: AddTold(s, host, id) ==> AddTold(s', host, id))
    && (forall host: nat, task: nat, id :: RemoveTold(s, host, task, id) ==> RemoveTold(s', host, task, id))
  }

  lemma StepKeepsHosts(s: State, step: Step)
    requires Inv(s)
    ensures forall host :: 0 <= host < |Apply(s, step).hosts| ==> HostInv(Apply(s, step).hosts[host])
  {
    hide HostInv, TaskStep, AnswerStep, Arrive, Join, NewHost;
    match step
    case AddFence => NewHostIsOk(Add);
    case RemoveFence(fenceId) =>
      NewHostIsOk(Remove(fenceId));
      if fenceId in s.fences {
        assert AddTold(s, s.fences[fenceId], fenceId);
        JoinKeeps(s.hosts[s.fences[fenceId]], fenceId);
      }
    case RunTask(host, task, outside) =>
      if host < |s.hosts| && task < |s.hosts[host].tasks| {
        TaskStepKeeps(s.hosts[host], task, outside);
      }
    case SendReport(host, report) =>
      if host < |s.hosts| {
        ArriveKeeps(s.hosts[host], report);
      }
    case RunAnswer(host, answer) =>
      if host < |s.hosts| && answer < |s.hosts[host].answers| {
        AnswerStepKeeps(s.hosts[host], answer);
      }
  }

  lemma StepKeepsWhatIsTold(s: State, step: Step)
    requires Inv(s)
    ensures Keeps(s, Apply(s, step))
  {
    hide HostInv, FencesInv;
  }

  lemma QuietStepTellsNothing(s: State, step: Step)
    requires Inv(s) && !step.RunTask?
    ensures forall host: nat, id :: AddTold(Apply(s, step), host, id) ==> AddTold(s, host, id)
  {
    hide HostInv, FencesInv;
  }

  /** The only telling statement puts the id into the map, or takes it out. */
  lemma FinishTells(s: State, host: nat, task: nat, outside: Outside)
    requires Inv(s) && host < |s.hosts| && task < |s.hosts[host].tasks|
    ensures
      var s' := Apply(s, RunTask(host, task, outside));
      && (forall id :: id in s'.fences ==>
        (id in s.fences && s'.fences[id] == s.fences[id]) || AddTold(s', s'.fences[id], id))
      && (forall id :: id in s.fences ==> id in s'.fences || RemoveTold(s', host, task, id))
      && (forall other: nat, id :: AddTold(s', other, id) ==> AddTold(s, other, id) || id in s'.fences)
  {
    hide FencesInv, RunningAlone, Granted;
    assert HostInv(s.hosts[host]);
    assert TaskOk(s.hosts[host], task);
  }

  lemma StepKeepsFences(s: State, step: Step)
    requires Inv(s)
    ensures FencesInv(Apply(s, step))
  {
    hide HostInv, AddTold, RemoveTold, TaskStep, AnswerStep, Arrive, Join, NewHost;
    var s' := Apply(s, step);
    StepKeepsWhatIsTold(s, step);
    if step.RunTask? && step.host < |s.hosts| && step.task < |s.hosts[step.host].tasks| {
      FinishTells(s, step.host, step.task, step.outside);
    } else if step.RunTask? {
      assert s' == s;
    } else {
      QuietStepTellsNothing(s, step);
      assert s'.fences == s.fences;
    }
    forall host: nat, id | AddTold(s', host, id)
      ensures id in s'.fences || Removed(s', id)
    {
      if AddTold(s, host, id) && Removed(s, id) {
        var other: nat, task: nat :| RemoveTold(s, other, task, id);
        assert RemoveTold(s', other, task, id);
      }
    }
  }

  lemma {:induction false} RunKeepsInv(s: State, steps: seq<Step>)
    requires Inv(s)
    ensures Inv(RunAll(s, steps))
    decreases |steps|
  {
    hide Apply;
    if steps == [] {
    } else {
      StepKeepsHosts(s, steps[0]);
      StepKeepsFences(s, steps[0]);
      RunKeepsInv(Apply(s, steps[0]), steps[1..]);
    }
  }

  // ---------- what a run promises ----------

  lemma EveryRunKeepsInv(steps: seq<Step>)
    ensures Inv(RunAll(INITIAL, steps))
  {
    RunKeepsInv(INITIAL, steps);
  }

  /** However tasks and reports interleave: an add tells a fence id only after the service's report has
      been stored whole, the report says that an add succeeded, and the id is the reported one; the
      initial id and the initial result are never taken for an outcome, unless the service sends a
      result code that is not declared, and then the initial id is what is told. */
  lemma AddTellsTheReport(steps: seq<Step>, host: nat, id: int)
    requires AddTold(RunAll(INITIAL, steps), host, id)
    ensures
      var h := RunAll(INITIAL, steps).hosts[host];
      && Whole(h, 0)
      && h.answers[0].report.opType == OPT_TYPE_ADD
      && (IsDeclared(h.answers[0].report.result) ==>
          h.answers[0].report.result == OPERATION_SUCCESS && id == h.answers[0].report.fenceId)
      && (!IsDeclared(h.answers[0].report.result) ==> id == NO_FENCE)
  {
    EveryRunKeepsInv(steps);
    var h := RunAll(INITIAL, steps).hosts[host];
    assert HostInv(h);
    assert TaskOk(h, 0);
    SucceedsExactly(h.answers[0].report.result);
  }

  // ---------- the map as a fold of what was told ----------

  datatype Telling = ToldAdd(id: int, host: nat) | ToldRemove(id: int)

  /** What a step tells, if it is the last statement of a task that succeeds. */
  function TellingOf(s: State, step: Step): seq<Telling> {
    if step.RunTask? && step.host < |s.hosts| && step.task < |s.hosts[step.host].tasks| then
      var t := s.hosts[step.host].tasks[step.task];
      if !t.place.Finish? then []
      else if t.op.Add? then [ToldAdd(t.place.id, step.host)]
      else [ToldRemove(t.op.fenceId)]
    else []
  }

  /** What a run tells, in order. */
  function Tellings(s: State, steps: seq<Step>): seq<Telling>
    decreases |steps|
  {
    if steps == [] then [] else TellingOf(s, steps[0]) + Tellings(Apply(s, steps[0]), steps[1..])
  }

  function Recorded(fences: map<int, nat>, t: Telling): map<int, nat> {
    match t
    case ToldAdd(id, host) => Inserted(fences, id, host)
    case ToldRemove(id) => fences - {id}
  }

  function Fold(fences: map<int, nat>, told: seq<Telling>): map<int, nat> {
    if told == [] then fences else Recorded(Fold(fences, told[..|told| - 1]), told[|told| - 1])
  }

  lemma {:induction false} FoldFront(fences: map<int, nat>, t: Telling, told: seq<Telling>)
    ensures Fold(fences, [t] + told) == Fold(Recorded(fences, t), told)
  {
    if told == [] {
      assert ([t] + told)[..0] == [];
    } else {
      var n := |told| - 1;
      assert ([t] + told)[..n + 1] == [t] + told[..n];
      FoldFront(fences, t, told[..n]);
    }
  }

  lemma {:induction false} MapIsTheFold(s: State, steps: seq<Step>)
    ensures RunAll(s, steps).fences == Fold(s.fences, Tellings(s, steps))
    decreases |steps|
  {
    if steps == [] {
    } else {
      var s', rest := Apply(s, steps[0]), Tellings(Apply(s, steps[0]), steps[1..]);
      MapIsTheFold(s', steps[1..]);
      StepRecords(s, steps[0]);
      if TellingOf(s, steps[0]) == [] {
        assert [] + rest == rest;
      } else {
        FoldFront(s.fences, TellingOf(s, steps[0])[0], rest);
      }
    }
  }

  lemma StepRecords(s: State, step: Step)
    ensures
      var told := TellingOf(s, step);
      && |told| <= 1
      && Apply(s, step).fences == if told == [] then s.fences else Recorded(s.fences, told[0])
  {
    hide TaskStep, AnswerStep, Arrive, Join, NewHost;
  }

  /** The add of `id` that counts: no remove of it follows, and an earlier add of it was removed before. */
  ghost predicate Counts(told: seq<Telling>, id: int, i: int) {
    && 0 <= i < |told| && told[i].ToldAdd? && told[i].id == id
    && (forall j :: i < j < |told| ==> told[j] != ToldRemove(id))
    && (forall j :: 0 <= j < i && told[j].ToldAdd? && told[j].id == id ==> RemovedBetween(told, id, j, i))
  }

  ghost predicate RemovedBetween(told: seq<Telling>, id: int, j: int, i: int) {
    exists k :: 0 <= j < k < i < |told| && told[k] == ToldRemove(id)
  }

  lemma {:induction false} FoldHoldsWhatCounts(told: seq<Telling>, id: int)
    ensures id in Fold(map[], told) <==> exists i :: Counts(told, id, i)
    ensures forall i :: Counts(told, id, i) ==> id in Fold(map[], told) && Fold(map[], told)[id] == told[i].host
  {
    if told == [] {
    } else {
      var n := |told| - 1;
      var before := told[..n];
      FoldHoldsWhatCounts(before, id);
      forall i | 0 <= i < n
        ensures Counts(told, id, i) <==> Counts(before, id, i) && told[n] != ToldRemove(id)
      {
        CountsBefore(told, id, i);
      }
      LastCounts(told, id);
    }
  }

  lemma CountsBefore(told: seq<Telling>, id: int, i: nat)
    requires i < |told| - 1
    ensures Counts(told, id, i) <==> Counts(told[..|told| - 1], id, i) && told[|told| - 1] != ToldRemove(id)
  {
    var before := told[..|told| - 1];
    assert forall j :: 0 <= j < i ==> (RemovedBetween(told, id, j, i) <==> RemovedBetween(before, id, j, i)) by {
      forall j | 0 <= j < i
        ensures RemovedBetween(told, id, j, i) <==> RemovedBetween(before, id, j, i)
      {
        assert forall k :: j < k < i ==> before[k] == told[k];
      }
    }
    assert forall j :: 0 <= j < |before| ==> before[j] == told[j];
  }

  /** The last telling counts exactly when it is an add of an id that is not in the map. */
  lemma LastCounts(told: seq<Telling>, id: int)
    requires told != []
    requires
      var before := told[..|told| - 1];
      id in Fold(map[], before) <==> exists i :: Counts(before, id, i)
    ensures
      var n := |told| - 1;
      Counts(told, id, n) <==> told[n].ToldAdd? && told[n].id == id && id !in Fold(map[], told[..n])
  {
    hide Fold;
    var n := |told| - 1;
    var before := told[..n];
    if told[n].ToldAdd? && told[n].id == id {
      if i :| Counts(before, id, i) {
        assert told[i] == before[i];
        assert forall k :: i < k < n ==> told[k] == before[k];
        assert !RemovedBetween(told, id, i, n);
      } else {
        forall j | 0 <= j < n && told[j].ToldAdd? && told[j].id == id
          ensures RemovedBetween(told, id, j, n)
        {
          SomeRemoveFollows(before, id, j);
          var k :| j < k < n && before[k] == ToldRemove(id);
          assert told[k] == ToldRemove(id);
        }
      }
    }
  }

  /** Where no add counts, every add has been removed later. */
  lemma {:induction false} SomeRemoveFollows(told: seq<Telling>, id: int, j: nat)
    requires j < |told| && told[j].ToldAdd? && told[j].id == id && !exists i :: Counts(told, id, i)
    ensures exists k :: j < k < |told| && told[k] == ToldRemove(id)
    decreases j
  {
    if forall k :: j < k < |told| ==> told[k] != ToldRemove(id) {
      assert !Counts(told, id, j);
      var i :| 0 <= i < j && told[i].ToldAdd? && told[i].id == id && !RemovedBetween(told, id, i, j);
      SomeRemoveFollows(told, id, i);
    }
  }

  /** The tellings are what tasks have told. */
  lemma StepTells(s: State, step: Step)
    requires Inv(s)
    ensures
      var s', told := Apply(s, step), TellingOf(s, step);
      && (forall host: nat, id :: AddTold(s', host, id) <==> AddTold(s, host, id) || ToldAdd(id, host) in told)
      && (forall id :: Removed(s', id) <==> Removed(s, id) || ToldRemove(id) in told)
  {
    hide FencesInv, HostInv, TaskOk;
    StepTellsAdds(s, step);
    StepTellsRemoves(s, step);
    StepKeepsWhatIsTold(s, step);
    var s', told := Apply(s, step), TellingOf(s, step);
    forall id
      ensures Removed(s', id) <==> Removed(s, id) || ToldRemove(id) in told
    {
      if Removed(s, id) {
        var host: nat, task: nat :| RemoveTold(s, host, task, id);
        assert RemoveTold(s', host, task, id);
      }
      if Removed(s', id) {
        var host: nat, task: nat :| RemoveTold(s', host, task, id);
        assert RemoveTold(s, host, task, id) || ToldRemove(id) in told;
      }
      if ToldRemove(id) in told {
        assert RemoveTold(s', step.host, step.task, id);
      }
    }
  }

  lemma StepTellsAdds(s: State, step: Step)
    requires Inv(s)
    ensures forall host: nat, id ::
      AddTold(Apply(s, step), host, id) <==> AddTold(s, host, id) || ToldAdd(id, host) in TellingOf(s, step)
  {
    hide FencesInv, RunningAlone, Granted;
    if step.RunTask? && step.host < |s.hosts| && step.task < |s.hosts[step.host].tasks| {
      assert HostInv(s.hosts[step.host]);
    }
  }

  lemma StepTellsRemoves(s: State, step: Step)
    requires Inv(s)
    ensures
      var s', told := Apply(s, step), TellingOf(s, step);
      && (forall host: nat, task: nat, id :: RemoveTold(s', host, task, id) ==>
        RemoveTold(s, host, task, id) || ToldRemove(id) in told)
      && (forall id :: ToldRemove(id) in told ==> step.RunTask? && RemoveTold(s', step.host, step.task, id))
  {
    hide FencesInv, RunningAlone, Granted;
    if step.RunTask? && step.host < |s.hosts| && step.task < |s.hosts[step.host].tasks| {
      assert HostInv(s.hosts[step.host]);
      assert TaskOk(s.hosts[step.host], step.task);
    }
  }

  lemma {:induction false} RunTells(s: State, steps: seq<Step>)
    requires Inv(s)
    ensures
      var end, told := RunAll(s, steps), Tellings(s, steps);
      && (forall host: nat, id :: AddTold(end, host, id) <==> AddTold(s, host, id) || ToldAdd(id, host) in told)
      && (forall id :: Removed(end, id) <==> Removed(s, id) || ToldRemove(id) in told)
    decreases |steps|
  {
    hide Apply, AddTold, Removed, TellingOf;
    if steps == [] {
    } else {
      StepTells(s, steps[0]);
      StepKeepsHosts(s, steps[0]);
      StepKeepsFences(s, steps[0]);
      RunTells(Apply(s, steps[0]), steps[1..]);
    }
  }

  /** Adds and removes enter the map in the order in which they are told.  An id is in the map exactly when
      some add of it counts, under the callback object of that add. */
  lemma MapHoldsWhatIsTold(steps: seq<Step>)
    ensures
      var s, told := RunAll(INITIAL, steps), Tellings(INITIAL, steps);
      && (forall host: nat, id :: AddTold(s, host, id) <==> ToldAdd(id, host) in told)
      && (forall id :: Removed(s, id) <==> ToldRemove(id) in told)
      && (forall id :: id in s.fences <==> exists i :: Counts(told, id, i))
      && (forall id, i :: Counts(told, id, i) ==> id in s.fences && s.fences[id] == told[i].host)
      && (forall id :: id in s.fences ==> AddTold(s, s.fences[id], id))
      && (forall host: nat, id :: AddTold(s, host, id) ==> id in s.fences || Removed(s, id))
  {
    hide Apply, AddTold, Removed, TellingOf, Fold;
    var told := Tellings(INITIAL, steps);
    EveryRunKeepsInv(steps);
    MapIsTheFold(INITIAL, steps);
    NothingToldYet();
    RunTells(INITIAL, steps);
    forall id
      ensures id in RunAll(INITIAL, steps).fences <==> exists i :: Counts(told, id, i)
    {
      FoldHoldsWhatCounts(told, id);
    }
    forall id, i | Counts(told, id, i)
      ensures id in RunAll(INITIAL, steps).fences && RunAll(INITIAL, steps).fences[id] == told[i].host
    {
      FoldHoldsWhatCounts(told, id);
    }
  }

  lemma NothingToldYet()
    ensures forall host: nat, id :: !AddTold(INITIAL, host, id)
    ensures forall id :: !Removed(INITIAL, id)
  {
  }

  /** A remove that met no other task and no stray report on its callback object takes the fence out only
      after its own report has been stored whole and says that a delete succeeded. */
  lemma LoneRemoveObeysItsReport(steps: seq<Step>, host: nat, task: nat, id: int)
    requires
      var s := RunAll(INITIAL, steps);
      RemoveTold(s, host, task, id) && s.hosts[host].tasks[task].alone
    ensures
      var h := RunAll(INITIAL, steps).hosts[host];
      && Whole(h, task)
      && h.answers[task].report.opType == OPT_TYPE_DELETE
      && (IsDeclared(h.answers[task].report.result) ==> h.answers[task].report.result == OPERATION_SUCCESS)
  {
    EveryRunKeepsInv(steps);
    var h := RunAll(INITIAL, steps).hosts[host];
    assert HostInv(h);
    assert TaskOk(h, task);
    SucceedsExactly(h.answers[task].report.result);
  }
}
