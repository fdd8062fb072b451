/**
 When a remove can be trusted.  Removes of one fence share the callback object of its add, so they can
 meet there.  A fence leaves the map on the strength of a stored report exactly as long as the service
 refuses no remove and reports success for deletes only: anything else opens the latch for the others.
 */
module GeofenceRemoves {
  import opened ErrorCodes
  import opened Wrappers
  import opened GeofenceRuns
  import opened GeofenceTasks

  // ---------- the answers stored on one callback object ----------

  /** Its handler has stored type and result. */
  predicate Stored(a: Answer) {
    a.stage.Open? || a.stage.Finished?
  }

  predicate Passes(result: int) {
    DealGeofenceOperationResult(result) == ERRCODE_SUCCESS
  }

  predicate StoredAt(h: Host, j: nat) {
    0 < j < |h.answers| && Stored(h.answers[j])
  }

  /** Some report after the one for the add has been stored. */
  ghost predicate AnyStored(h: Host) {
    exists j: nat :: StoredAt(h, j)
  }

  predicate SaysLast(h: Host, j: nat) {
    StoredAt(h, j) && h.answers[j].report.result == h.fields.last.result
  }

  predicate Grants(h: Host, j: nat) {
    j < |h.answers| && Stored(h.answers[j]) && h.answers[j].report.opType == OPT_TYPE_DELETE
    && Passes(h.answers[j].report.result)
  }

  /** A stored report says that a delete succeeded. */
  ghost predicate DeleteGranted(h: Host) {
    exists j: nat :: Grants(h, j)
  }

  /** The service has accepted every remove here that it has answered so far. */
  predicate AllAccepted(h: Host) {
    forall k :: 0 < k < |h.tasks| ==> h.tasks[k].reply == ERRCODE_SUCCESS
  }

  predicate PassesOnlyForDelete(r: Report) {
    Passes(r.result) ==> r.opType == OPT_TYPE_DELETE
  }

  /** After the add only reports about deletes pass for success. */
  predicate OnlyDeletesPass(h: Host) {
    forall j :: 0 < j < |h.answers| ==> PassesOnlyForDelete(h.answers[j].report)
  }

  ghost predicate RemoveOk(h: Host, k: nat)
    requires k < |h.tasks|
  {
    var t := h.tasks[k];
    && !t.place.DropLatch?
    && ((t.place.Reset? || t.place.ReadType?) && t.err == ERRCODE_SUCCESS ==> AnyStored(h))
    && (t.place.ReadResult? ==> AnyStored(h))
    && (t.place.Finish? || (t.place.Done? && t.place.success.Some?) ==> DeleteGranted(h))
  }

  /** With accepted removes only, the latch is open only after a stored report, the stored result is that
      of such a report, and a remove goes on only from there. */
  ghost predicate SharedOk(h: Host) {
    AddIsDone(h) && AllAccepted(h) && OnlyDeletesPass(h) ==>
      && (h.count == 0 ==> AnyStored(h))
      && (AnyStored(h) ==> exists j: nat :: SaysLast(h, j))
      && (forall k :: 0 < k < |h.tasks| ==> RemoveOk(h, k))
  }

  /** Stored reports stay stored. */
  ghost predicate KeepsAnswers(h: Host, h': Host) {
    && |h.answers| <= |h'.answers|
    && forall j :: 0 <= j < |h.answers| ==>
      h'.answers[j].report == h.answers[j].report && (Stored(h.answers[j]) ==> Stored(h'.answers[j]))
  }

  lemma AnswersStay(h: Host, h': Host)
    requires KeepsAnswers(h, h')
    ensures AnyStored(h) ==> AnyStored(h')
    ensures DeleteGranted(h) ==> DeleteGranted(h')
    ensures (exists j: nat :: SaysLast(h, j)) && h'.fields.last.result == h.fields.last.result ==>
      exists j: nat :: SaysLast(h', j)
  {
    if j: nat :| StoredAt(h, j) {
      assert StoredAt(h', j);
    }
    if j: nat :| Grants(h, j) {
      assert Grants(h', j);
    }
    if j: nat :| SaysLast(h, j) && h'.fields.last.result == h.fields.last.result {
      assert SaysLast(h', j);
    }
  }

  /** A result that passes, read after a stored report, comes from a report that grants. */
  lemma PassingResultGrants(h: Host)
    requires OnlyDeletesPass(h) && AnyStored(h) && (exists j: nat :: SaysLast(h, j)) && Passes(h.fields.last.result)
    ensures DeleteGranted(h)
  {
    var j: nat :| SaysLast(h, j);
    assert Grants(h, j);
  }

  lemma MovedRemoveIsOk(h: Host, i: nat, outside: Outside)
    requires 0 < i < |h.tasks| && TaskOk(h, i) && AddIsDone(h) && AllAccepted(h) && OnlyDeletesPass(h) && SharedOk(h)
    requires AllAccepted(TaskStep(h, i, outside)) && h.tasks[i].op.Remove?
    ensures RemoveOk(TaskStep(h, i, outside), i)
  {
    hide DealGeofenceOperationResult, RunningAlone, Granted;
    var h', t := TaskStep(h, i, outside), h.tasks[i];
    assert KeepsAnswers(h, h');
    AnswersStay(h, h');
    assert h'.tasks[i].reply == ERRCODE_SUCCESS;
    assert RemoveOk(h, i);
    if t.place.ReadResult? && Passes(h.fields.last.result) {
      PassingResultGrants(h);
    }
  }

  lemma OtherRemoveIsOk(h: Host, i: nat, outside: Outside, k: nat)
    requires i < |h.tasks| && k < |h.tasks| && k != i && RemoveOk(h, k)
    ensures RemoveOk(TaskStep(h, i, outside), k)
  {
    var h' := TaskStep(h, i, outside);
    assert KeepsAnswers(h, h') && h'.tasks[k] == h.tasks[k];
    AnswersStay(h, h');
  }

  /** When the add ends there is no other task and no other report yet, and the latch is closed. */
  lemma AddEndsClosed(h: Host, i: nat, outside: Outside)
    requires HostInv(h) && i < |h.tasks| && !AddIsDone(h) && AddIsDone(TaskStep(h, i, outside))
    ensures |h.tasks| == 1 && TaskStep(h, i, outside).count == 1
  {
    assert TaskOk(h, 0);
  }

  lemma TaskStepKeepsShared(h: Host, i: nat, outside: Outside)
    requires HostInv(h) && SharedOk(h) && i < |h.tasks|
    ensures SharedOk(TaskStep(h, i, outside))
  {
    hide TaskOk, RemoveOk, DealGeofenceOperationResult;
    var h' := TaskStep(h, i, outside);
    if AddIsDone(h') && AllAccepted(h') && OnlyDeletesPass(h') {
      if k: nat :| StoredAt(h', k) {
        assert StoredAt(h, k);
      }
      if !AddIsDone(h) {
        AddEndsClosed(h, i, outside);
      } else {
        RepliesWereAccepted(h, i, outside);
        assert KeepsAnswers(h, h');
        AnswersStay(h, h');
        CountAfterTask(h, i, outside);
        forall k | 0 < k < |h'.tasks|
          ensures RemoveOk(h', k)
        {
          if k == i {
            MovedRemoveIsOk(h, i, outside);
          } else {
            OtherRemoveIsOk(h, i, outside, k);
          }
        }
      }
    }
  }

  lemma RepliesWereAccepted(h: Host, i: nat, outside: Outside)
    requires HostInv(h) && i < |h.tasks| && AllAccepted(TaskStep(h, i, outside))
    ensures AllAccepted(h)
  {
    assert TaskOk(h, i);
    forall k | 0 < k < |h.tasks|
      ensures h.tasks[k].reply == ERRCODE_SUCCESS
    {
      assert TaskStep(h, i, outside).tasks[k].reply == ERRCODE_SUCCESS;
    }
  }

  /** An accepted task never opens the latch. */
  lemma CountAfterTask(h: Host, i: nat, outside: Outside)
    requires HostInv(h) && SharedOk(h) && AddIsDone(h) && AllAccepted(h) && OnlyDeletesPass(h) && i < |h.tasks|
    ensures
      var h' := TaskStep(h, i, outside);
      (h'.count == 0 ==> h.count == 0) && h'.fields == h.fields && h'.answers == h.answers
  {
    hide TaskOk;
    if i > 0 {
      assert RemoveOk(h, i);
    }
  }

  lemma AnswerStepKeepsShared(h: Host, j: nat)
    requires HostInv(h) && SharedOk(h) && j < |h.answers|
    ensures SharedOk(AnswerStep(h, j))
  {
    hide TaskOk, RemoveOk, DealGeofenceOperationResult;
    var h' := AnswerStep(h, j);
    if AddIsDone(h') && AllAccepted(h') && OnlyDeletesPass(h') {
      AddAnswerIsFinished(h);
      OnlyDeletesPassBefore(h, j);
      if k: nat :| StoredAt(h', k) {
        assert StoredAt(h, k) || (k == j && h.answers[j].stage.SetResult?);
      }
      assert KeepsAnswers(h, h');
      AnswersStay(h, h');
      if h.answers[j].stage.SetResult? {
        assert SaysLast(h', j);
      } else if h.answers[j].stage.Open? {
        assert StoredAt(h, j);
      }
      RemovesStayOk(h, h');
    }
  }

  lemma AddAnswerIsFinished(h: Host)
    requires HostInv(h) && AddIsDone(h)
    ensures h.answers != [] && h.answers[0].stage == Finished
  {
    assert TaskOk(h, 0);
  }

  lemma OnlyDeletesPassBefore(h: Host, j: nat)
    requires j < |h.answers| && OnlyDeletesPass(AnswerStep(h, j))
    ensures OnlyDeletesPass(h)
  {
    forall k | 0 < k < |h.answers|
      ensures PassesOnlyForDelete(h.answers[k].report)
    {
      assert AnswerStep(h, j).answers[k].report == h.answers[k].report;
    }
  }

  lemma RemovesStayOk(h: Host, h': Host)
    requires KeepsAnswers(h, h') && h'.tasks == h.tasks && forall k :: 0 < k < |h.tasks| ==> RemoveOk(h, k)
    ensures forall k :: 0 < k < |h'.tasks| ==> RemoveOk(h', k)
  {
    AnswersStay(h, h');
    forall k | 0 < k < |h'.tasks|
      ensures RemoveOk(h', k)
    {
      assert RemoveOk(h, k);
    }
  }

  lemma ArriveKeepsShared(h: Host, r: Report)
    requires HostInv(h) && SharedOk(h)
    ensures SharedOk(Arrive(h, r))
  {
    hide TaskOk, RemoveOk, DealGeofenceOperationResult;
    var h' := Arrive(h, r);
    if AddIsDone(h') && AllAccepted(h') && OnlyDeletesPass(h') && h' != h {
      forall k | 0 < k < |h.answers|
        ensures PassesOnlyForDelete(h.answers[k].report)
      {
        assert h'.answers[k] == h.answers[k];
      }
      assert KeepsAnswers(h, h');
      AnswersStay(h, h');
      RemovesStayOk(h, h');
      if j: nat :| StoredAt(h', j) {
        assert StoredAt(h, j);
      }
    }
  }

  lemma JoinKeepsShared(h: Host, fenceId: int)
    requires HostInv(h) && SharedOk(h) && AddIsDone(h)
    ensures SharedOk(Join(h, Remove(fenceId)))
  {
    hide TaskOk, RemoveOk, Settled, DealGeofenceOperationResult;
    var h' := Join(h, Remove(fenceId));
    if AllAccepted(h') && OnlyDeletesPass(h') {
      forall k | 0 < k < |h.tasks|
        ensures h.tasks[k].reply == ERRCODE_SUCCESS && h'.tasks[k] == Disturbed(h.tasks[k])
      {
        assert h'.tasks[k].reply == ERRCODE_SUCCESS;
      }
      assert KeepsAnswers(h, h');
      AnswersStay(h, h');
      JoinedRemovesAreOk(h, fenceId);
      if j: nat :| StoredAt(h', j) {
        assert StoredAt(h, j);
      }
    }
  }

  lemma JoinedRemovesAreOk(h: Host, fenceId: int)
    requires forall k :: 0 < k < |h.tasks| ==> RemoveOk(h, k)
    ensures
      var h' := Join(h, Remove(fenceId));
      forall k :: 0 < k < |h'.tasks| ==> RemoveOk(h', k)
  {
    hide Settled;
    var h' := Join(h, Remove(fenceId));
    assert KeepsAnswers(h, h');
    AnswersStay(h, h');
    forall k | 0 < k < |h'.tasks|
      ensures RemoveOk(h', k)
    {
      if k < |h.tasks| {
        assert RemoveOk(h, k);
      }
    }
  }

  lemma NewHostIsShared(op: Op)
    ensures SharedOk(NewHost(op))
  {
  }

  // ---------- without a report about a delete ----------

  predicate NoDeletes(h: Host) {
    forall j :: 0 < j < |h.answers| ==> h.answers[j].report.opType != OPT_TYPE_DELETE
  }

  predicate TakesNothingOut(t: Task) {
    !t.place.ReadResult? && !t.place.Finish? && !(t.place.Done? && t.place.success.Some?)
  }

  /** As long as nothing about a delete is reported, no remove gets past the type. */
  ghost predicate UnansweredOk(h: Host) {
    AddIsDone(h) && NoDeletes(h) ==>
      && h.fields.last.opType != OPT_TYPE_DELETE
      && forall k :: 0 < k < |h.tasks| ==> TakesNothingOut(h.tasks[k])
  }

  lemma TaskStepKeepsUnanswered(h: Host, i: nat, outside: Outside)
    requires HostInv(h) && UnansweredOk(h) && i < |h.tasks|
    ensures UnansweredOk(TaskStep(h, i, outside))
  {
    hide DealGeofenceOperationResult, RunningAlone;
    var h' := TaskStep(h, i, outside);
    if AddIsDone(h') && NoDeletes(h') {
      if AddIsDone(h) {
        assert h'.fields == h.fields && h'.answers == h.answers && NoDeletes(h);
        forall k | 0 < k < |h'.tasks|
          ensures TakesNothingOut(h'.tasks[k])
        {
          assert TakesNothingOut(h.tasks[k]) && h.tasks[k].op.Remove? && TaskOk(h, k);
        }
      } else {
        AddEndsWithItsType(h, i, outside);
      }
    }
  }

  lemma AddEndsWithItsType(h: Host, i: nat, outside: Outside)
    requires HostInv(h) && i < |h.tasks| && !AddIsDone(h) && AddIsDone(TaskStep(h, i, outside))
    ensures |h.tasks| == 1 && TaskStep(h, i, outside).fields.last.opType == OPT_TYPE_ADD
  {
    assert TaskOk(h, 0);
  }

  lemma AnswerStepKeepsUnanswered(h: Host, j: nat)
    requires HostInv(h) && UnansweredOk(h) && j < |h.answers|
    ensures UnansweredOk(AnswerStep(h, j))
  {
    hide TaskOk;
    var h' := AnswerStep(h, j);
    if AddIsDone(h') && NoDeletes(h') {
      AddAnswerIsFinished(h);
      assert forall k :: 0 <= k < |h.answers| ==> h'.answers[k].report == h.answers[k].report;
    }
  }

  lemma ArriveKeepsUnanswered(h: Host, r: Report)
    requires HostInv(h) && UnansweredOk(h)
    ensures UnansweredOk(Arrive(h, r))
  {
    hide TaskOk;
    assert forall k :: 0 <= k < |h.answers| ==> Arrive(h, r).answers[k] == h.answers[k];
  }

  lemma JoinKeepsUnanswered(h: Host, fenceId: int)
    requires HostInv(h) && UnansweredOk(h) && AddIsDone(h)
    ensures UnansweredOk(Join(h, Remove(fenceId)))
  {
    hide TaskOk, Settled;
    JoiningKeepsPlaces();
  }

  lemma NewHostIsUnanswered(op: Op)
    ensures UnansweredOk(NewHost(op))
  {
  }

  lemma JoiningKeepsPlaces()
    ensures forall t :: Disturbed(t).op == t.op && Disturbed(t).place == t.place && Disturbed(t).err == t.err
  {
  }

  // ---------- runs ----------

  ghost predicate AllShared(s: State) {
    forall host :: 0 <= host < |s.hosts| ==> SharedOk(s.hosts[host]) && UnansweredOk(s.hosts[host])
  }

  lemma StepKeepsShared(s: State, step: Step)
    requires Inv(s) && AllShared(s)
    ensures AllShared(Apply(s, step))
  {
    hide HostInv, SharedOk, UnansweredOk, TaskStep, AnswerStep, Arrive, Join, NewHost;
    match step
    case AddFence =>
      NewHostIsShared(Add);
      NewHostIsUnanswered(Add);
    case RemoveFence(fenceId) =>
      NewHostIsShared(Remove(fenceId));
      NewHostIsUnanswered(Remove(fenceId));
      if fenceId in s.fences {
        assert AddTold(s, s.fences[fenceId], fenceId);
        JoinKeepsShared(s.hosts[s.fences[fenceId]], fenceId);
        JoinKeepsUnanswered(s.hosts[s.fences[fenceId]], fenceId);
      }
    case RunTask(host, task, outside) =>
      if host < |s.hosts| && task < |s.hosts[host].tasks| {
        TaskStepKeepsShared(s.hosts[host], task, outside);
        TaskStepKeepsUnanswered(s.hosts[host], task, outside);
      }
    case SendReport(host, report) =>
      if host < |s.hosts| {
        ArriveKeepsShared(s.hosts[host], report);
        ArriveKeepsUnanswered(s.hosts[host], report);
      }
    case RunAnswer(host, answer) =>
      if host < |s.hosts| && answer < |s.hosts[host].answers| {
        AnswerStepKeepsShared(s.hosts[host], answer);
        AnswerStepKeepsUnanswered(s.hosts[host], answer);
      }
  }

  lemma {:induction false} RunKeepsShared(s: State, steps: seq<Step>)
    requires Inv(s) && AllShared(s)
    ensures AllShared(RunAll(s, steps))
    decreases |steps|
  {
    hide Apply;
    if steps == [] {
    } else {
      StepKeepsHosts(s, steps[0]);
      StepKeepsFences(s, steps[0]);
      StepKeepsShared(s, steps[0]);
      RunKeepsShared(Apply(s, steps[0]), steps[1..]);
    }
  }

  /** A fence that a remove has taken out of the map without any stored report that a delete succeeded: then
      some report about a delete has come, and the service has refused some remove on the same callback
      object or has reported a success there that is not about a delete. */
  lemma UngrantedRemoveMeansRefusal(steps: seq<Step>, host: nat, task: nat, id: int)
    requires RemoveTold(RunAll(INITIAL, steps), host, task, id)
    ensures
      var h := RunAll(INITIAL, steps).hosts[host];
      DeleteGranted(h) || (!NoDeletes(h) && (!AllAccepted(h) || !OnlyDeletesPass(h)))
  {
    hide HostInv, SharedOk, UnansweredOk;
    var s := RunAll(INITIAL, steps);
    EveryRunKeepsInv(steps);
    RunKeepsShared(INITIAL, steps);
    ToldRemoveIsGranted(s.hosts[host], task, id);
  }

  lemma ToldRemoveIsGranted(h: Host, task: nat, id: int)
    requires HostInv(h) && SharedOk(h) && UnansweredOk(h) && task < |h.tasks|
    requires h.tasks[task].op == Remove(id) && h.tasks[task].place == Done(Some(id))
    ensures DeleteGranted(h) || (!NoDeletes(h) && (!AllAccepted(h) || !OnlyDeletesPass(h)))
  {
    hide DealGeofenceOperationResult;
    assert TaskOk(h, task);
    if task == 0 {
      assert Grants(h, 0);
    } else if AllAccepted(h) && OnlyDeletesPass(h) {
      assert RemoveOk(h, task);
    }
  }

  // ---------- a refusal is enough ----------

  /** Task `i` waits for the answer to an accepted remove. */
  predicate Waits(h: Host, i: nat, id: int) {
    i < |h.tasks| && h.tasks[i].op == Remove(id) && h.tasks[i].place == Wait && h.tasks[i].err == ERRCODE_SUCCESS
  }

  /** Task `i` waits for the answer to an accepted remove, the call of task `k` has been refused, and the
      result stored last passes for success. */
  predicate CanBeDisturbed(h: Host, i: nat, k: nat, id: int) {
    && 0 < i && Waits(h, i, id) && k < |h.tasks| && k != i && |h.answers| < |h.tasks|
    && h.tasks[k].place == DropLatch
    && Passes(h.fields.last.result)
  }

  /** The report for a delete arrives, and its type is stored. */
  lemma TypeArrives(s: State, host: nat, r: Report, allowed: int -> bool) returns (s': State)
    requires Reachable(s, allowed) && host < |s.hosts| && |s.hosts[host].answers| < |s.hosts[host].tasks|
    requires r.opType == OPT_TYPE_DELETE
    ensures Reachable(s', allowed)
    ensures
      var h := s.hosts[host];
      s' == s.(hosts := s.hosts[host := h.(
        fields := h.fields.(last := h.fields.last.(opType := OPT_TYPE_DELETE)),
        answers := h.answers + [Answer(r, SetResult)])])
  {
    hide Reachable;
    var h, j := s.hosts[host], |s.hosts[host].answers|;
    s' := Go(s, SendReport(host, r), allowed);
    s' := GoAnswers(s', host, j, 2, allowed);
    TwoStatements(h.(answers := h.answers + [Answer(r, SetId)]), j);
    assert (h.answers + [Answer(r, SetId)])[j := Answer(r, SetResult)] == h.answers + [Answer(r, SetResult)];
  }

  lemma TwoStatements(h: Host, j: nat)
    requires j < |h.answers| && h.answers[j].stage == SetId && h.answers[j].report.opType == OPT_TYPE_DELETE
    ensures AnswerSteps(h, j, 2) ==
      h.(fields := h.fields.(last := h.fields.last.(opType := OPT_TYPE_DELETE)),
         answers := h.answers[j := Answer(h.answers[j].report, SetResult)])
  {
    var h1 := AnswerStep(h, j);
    assert AnswerSteps(h, j, 2) == AnswerSteps(h1, j, 1);
    assert AnswerSteps(h1, j, 1) == AnswerSteps(AnswerStep(h1, j), j, 0);
  }

  /** With an open latch a waiting remove takes the stored type and result for its outcome. */
  lemma WaitingRemoveEnds(s: State, host: nat, i: nat, id: int, allowed: int -> bool) returns (s': State)
    requires Reachable(s, allowed) && allowed(ERRCODE_SUCCESS) && host < |s.hosts|
    requires
      var h := s.hosts[host];
      && Waits(h, i, id) && h.count == 0 && h.fields.last.opType == OPT_TYPE_DELETE && Passes(h.fields.last.result)
    ensures Reachable(s', allowed) && s'.fences == s.fences - {id}
    ensures |s'.hosts| == |s.hosts| && s'.hosts == s.hosts[host := s'.hosts[host]]
    ensures RemoveTold(s', host, i, id) && s'.hosts[host].answers == s.hosts[host].answers
  {
    hide Reachable, DealGeofenceOperationResult;
    s' := GoTask(s, host, i, PATIENT, allowed);
    assert s'.hosts[host].tasks[i].place == Check;
    s' := GoTask(s', host, i, PATIENT, allowed);
    assert s'.hosts[host].tasks[i].place == Reset;
    s' := GoTask(s', host, i, PATIENT, allowed);
    assert s'.hosts[host].tasks[i].place == ReadType;
    s' := GoTask(s', host, i, PATIENT, allowed);
    assert s'.hosts[host].tasks[i].place == ReadResult;
    s' := GoTask(s', host, i, PATIENT, allowed);
    assert s'.hosts[host].tasks[i].place == Finish(id);
    s' := GoTask(s', host, i, PATIENT, allowed);
  }

  /** From every such state, whatever the report says that is on its way: the fence can leave the map before
      the result of that report is stored. */
  lemma RefusalTakesTheFenceOut(s: State, host: nat, i: nat, k: nat, id: int, r: Report, allowed: int -> bool)
    returns (s': State)
    requires Reachable(s, allowed) && allowed(ERRCODE_SUCCESS) && host < |s.hosts|
    requires CanBeDisturbed(s.hosts[host], i, k, id) && r.opType == OPT_TYPE_DELETE
    ensures Reachable(s', allowed) && RemoveTold(s', host, i, id) && id !in s'.fences
    ensures |s'.hosts| == |s.hosts| && s'.hosts == s.hosts[host := s'.hosts[host]]
    ensures s'.hosts[host].answers == s.hosts[host].answers + [Answer(r, SetResult)]
  {
    hide Reachable, DealGeofenceOperationResult;
    s' := TypeArrives(s, host, r, allowed);
    s' := GoTask(s', host, k, PATIENT, allowed);
    s' := WaitingRemoveEnds(s', host, i, id, allowed);
  }

  /** A remove of a fence in the map that the service accepts, as long as it waits. */
  lemma RemoveWaits(s: State, id: int, allowed: int -> bool) returns (s': State)
    requires Reachable(s, allowed) && allowed(ERRCODE_SUCCESS) && id in s.fences
    ensures Reachable(s', allowed) && s'.fences == s.fences && s.fences[id] < |s.hosts| == |s'.hosts|
    ensures
      var host := s.fences[id];
      var h, h' := s.hosts[host], s'.hosts[host];
      && s'.hosts == s.hosts[host := h'] && h'.fields == h.fields && h'.answers == h.answers
      && |h'.tasks| == |h.tasks| + 1 && |h.answers| <= |h.tasks| && Waits(h', |h.tasks|, id)
      && (forall k, other :: Waits(h, k, other) ==> Waits(h', k, other))
  {
    hide Reachable, DealGeofenceOperationResult, Settled, Disturbed;
    MapHoldsTold(s, id, allowed);
    var host, n := s.fences[id], |s.hosts[s.fences[id]].tasks|;
    JoiningKeepsPlaces();
    HostIsSound(s, host, allowed);
    s' := Go(s, RemoveFence(id), allowed);
    s' := GoTask(s', host, n, PATIENT, allowed);
  }

  /** Any fence that is in the map with a result that passes, as its add has left it, can be taken out that
      way, by two removes of which the service refuses one. */
  lemma TwoRemovesCanMeet(s: State, id: int, refusal: int, r: Report, allowed: int -> bool) returns (s': State)
    requires Reachable(s, allowed) && allowed(ERRCODE_SUCCESS) && allowed(refusal) && refusal != ERRCODE_SUCCESS
    requires id in s.fences && s.fences[id] < |s.hosts| && Passes(s.hosts[s.fences[id]].fields.last.result)
    requires r.opType == OPT_TYPE_DELETE
    ensures
      var host, n := s.fences[id], |s.hosts[s.fences[id]].tasks|;
      && Reachable(s', allowed) && RemoveTold(s', host, n, id) && id !in s'.fences
      && |s'.hosts| == |s.hosts| && s'.hosts == s.hosts[host := s'.hosts[host]]
      && s'.hosts[host].answers == s.hosts[host].answers + [Answer(r, SetResult)]
  {
    hide Reachable, DealGeofenceOperationResult, Settled, Disturbed;
    var host, n := s.fences[id], |s.hosts[s.fences[id]].tasks|;
    JoiningKeepsPlaces();
    HostIsSound(s, host, allowed);
    s' := RemoveWaits(s, id, allowed);
    s' := Go(s', RemoveFence(id), allowed);
    s' := GoTask(s', host, n + 1, Outside(refusal, false), allowed);
    assert s'.hosts[host].tasks[n + 1].place == DropLatch;
    var h := s'.hosts[host];
    assert Waits(h, n, id) && n > 0;
    assert |h.tasks| == n + 2 && h.answers == s.hosts[host].answers && h.fields == s.hosts[host].fields;
    s' := RefusalTakesTheFenceOut(s', host, n, n + 1, id, r, allowed);
  }

  // ---------- a stray success is enough ----------

  /** A report arrives, and its handler is not interrupted. */
  lemma ReportIsHandled(s: State, host: nat, r: Report, allowed: int -> bool) returns (s': State)
    requires Reachable(s, allowed) && host < |s.hosts| && |s.hosts[host].answers| < |s.hosts[host].tasks|
    ensures Reachable(s', allowed)
    ensures
      var h := s.hosts[host];
      s' == s.(hosts := s.hosts[host := h.(fields := FieldsAt(h.fields, Answer(r, Finished)), count := 0,
        answers := h.answers + [Answer(r, Finished)])])
  {
    hide Reachable, AnswerSteps;
    var h, j := s.hosts[host], |s.hosts[host].answers|;
    HostIsSound(s, host, allowed);
    s' := Go(s, SendReport(host, r), allowed);
    HandlerRuns(s'.hosts[host], j);
    s' := GoAnswers(s', host, j, 4, allowed);
    assert (h.answers + [Answer(r, SetId)])[j := Answer(r, Finished)] == h.answers + [Answer(r, Finished)];
  }

  /** With accepted removes only: when a report that passes opens the latch, whatever it is about, the type of
      a second report is all that a waiting remove needs. */
  lemma StrayReportTakesTheFenceOut(s: State, host: nat, i: nat, id: int, stray: Report, r: Report,
                                    allowed: int -> bool)
    returns (s': State)
    requires Reachable(s, allowed) && allowed(ERRCODE_SUCCESS) && host < |s.hosts|
    requires Waits(s.hosts[host], i, id) && |s.hosts[host].answers| + 2 <= |s.hosts[host].tasks|
    requires Passes(stray.result) && r.opType == OPT_TYPE_DELETE
    ensures Reachable(s', allowed) && RemoveTold(s', host, i, id) && id !in s'.fences
    ensures |s'.hosts| == |s.hosts| && s'.hosts == s.hosts[host := s'.hosts[host]]
    ensures s'.hosts[host].answers == s.hosts[host].answers + [Answer(stray, Finished), Answer(r, SetResult)]
  {
    hide Reachable, DealGeofenceOperationResult;
    s' := ReportIsHandled(s, host, stray, allowed);
    s' := TypeArrives(s', host, r, allowed);
    s' := WaitingRemoveEnds(s', host, i, id, allowed);
  }

  /** Two accepted removes of any fence in the map are enough to get there. */
  lemma StrayReportCanMeetRemoves(s: State, id: int, stray: Report, r: Report, allowed: int -> bool)
    returns (s': State)
    requires Reachable(s, allowed) && allowed(ERRCODE_SUCCESS) && id in s.fences
    requires Passes(stray.result) && r.opType == OPT_TYPE_DELETE
    ensures Reachable(s', allowed) && id !in s'.fences && s.fences[id] < |s.hosts| == |s'.hosts|
    ensures
      var host := s.fences[id];
      && RemoveTold(s', host, |s.hosts[host].tasks|, id)
      && s'.hosts == s.hosts[host := s'.hosts[host]]
      && s'.hosts[host].answers == s.hosts[host].answers + [Answer(stray, Finished), Answer(r, SetResult)]
  {
    hide Reachable, Passes;
    s' := RemoveWaits(s, id, allowed);
    var host, n := s.fences[id], |s.hosts[s.fences[id]].tasks|;
    s' := RemoveWaits(s', id, allowed);
    s' := StrayReportTakesTheFenceOut(s', host, n, id, stray, r, allowed);
  }

  /** The promise is not empty: from every reachable state a remove of a fence in the map that is answered in
      time with a granting report takes the fence out, and nothing else. */
  lemma GrantedRemoveSucceeds(s: State, id: int, r: Report, allowed: int -> bool) returns (s': State)
    requires Reachable(s, allowed) && allowed(ERRCODE_SUCCESS) && id in s.fences
    requires r.opType == OPT_TYPE_DELETE && Passes(r.result)
    ensures Reachable(s', allowed) && s'.fences == s.fences - {id} && s.fences[id] < |s.hosts| == |s'.hosts|
    ensures
      var host := s.fences[id];
      && RemoveTold(s', host, |s.hosts[host].tasks|, id) && DeleteGranted(s'.hosts[host])
      && s'.hosts == s.hosts[host := s'.hosts[host]]
      && s'.hosts[host].answers == s.hosts[host].answers + [Answer(r, Finished)]
  {
    hide Reachable, DealGeofenceOperationResult;
    s' := RemoveWaits(s, id, allowed);
    var host, n := s.fences[id], |s.hosts[s.fences[id]].tasks|;
    s' := ReportIsHandled(s', host, r, allowed);
    s' := WaitingRemoveEnds(s', host, n, id, allowed);
    assert Grants(s'.hosts[host], |s.hosts[host].answers|);
  }

  /** A remove of an id that is not in the map has a callback object of its own.  When it is answered in time with a
      granting report, it tells its success and leaves the map and all other objects as they are. */
  lemma UnknownRemoveSucceeds(s: State, id: int, r: Report, allowed: int -> bool) returns (s': State)
    requires Reachable(s, allowed) && allowed(ERRCODE_SUCCESS) && id !in s.fences
    requires r.opType == OPT_TYPE_DELETE && Passes(r.result)
    ensures Reachable(s', allowed) && s'.fences == s.fences && |s'.hosts| == |s.hosts| + 1
    ensures s'.hosts[..|s.hosts|] == s.hosts && RemoveTold(s', |s.hosts|, 0, id)
    ensures s'.hosts[|s.hosts|].answers == [Answer(r, Finished)]
  {
    hide Reachable, DealGeofenceOperationResult;
    var host := |s.hosts|;
    s' := Go(s, RemoveFence(id), allowed);
    s' := GoTask(s', host, 0, PATIENT, allowed);
    s' := ReportIsHandled(s', host, r, allowed);
    s' := WaitingRemoveEnds(s', host, 0, id, allowed);
  }

  lemma HostIsSound(s: State, host: nat, allowed: int -> bool)
    requires Reachable(s, allowed) && host < |s.hosts|
    ensures
      var h := s.hosts[host];
      |h.answers| <= |h.tasks| && h.tasks != [] && h.count <= 1
  {
    var steps :| Allows(steps, allowed) && RunAll(INITIAL, steps) == s;
    EveryRunKeepsInv(steps);
    assert HostInv(s.hosts[host]);
  }

  lemma MapHoldsTold(s: State, id: int, allowed: int -> bool)
    requires Reachable(s, allowed) && id in s.fences
    ensures AddTold(s, s.fences[id], id)
  {
    var steps :| Allows(steps, allowed) && RunAll(INITIAL, steps) == s;
    EveryRunKeepsInv(steps);
  }

  // ---------- the exact condition ----------

  /** After an add, the service only sends reports of these. */
  ghost predicate Sends(s: State, reports: Report -> bool) {
    forall host, j :: 0 <= host < |s.hosts| && 0 < j < |s.hosts[host].answers| ==>
      reports(s.hosts[host].answers[j].report)
  }

  /** Whatever happens with a service that answers and reports like that: a fence leaves the map only when a
      stored report says that a delete succeeded. */
  ghost predicate AlwaysGranted(allowed: int -> bool, reports: Report -> bool) {
    forall s, host: nat, task: nat, id ::
      Reachable(s, allowed) && Sends(s, reports) && RemoveTold(s, host, task, id) ==> DeleteGranted(s.hosts[host])
  }

  ghost predicate NeverRefuses(allowed: int -> bool) {
    forall c :: allowed(c) ==> c == ERRCODE_SUCCESS
  }

  /** The service never reports about deletes, or it refuses no call and reports success for deletes only. */
  ghost predicate IsTrustworthy(allowed: int -> bool, reports: Report -> bool) {
    || (forall r :: reports(r) ==> r.opType != OPT_TYPE_DELETE)
    || (NeverRefuses(allowed) && forall r :: reports(r) ==> PassesOnlyForDelete(r))
  }

  ghost predicate RepliesAllowed(s: State, allowed: int -> bool) {
    forall host, task :: 0 <= host < |s.hosts| && 0 <= task < |s.hosts[host].tasks| ==>
      allowed(s.hosts[host].tasks[task].reply)
  }

  lemma StepKeepsReplies(s: State, step: Step, allowed: int -> bool)
    requires RepliesAllowed(s, allowed) && allowed(ERRCODE_SUCCESS) && (step.RunTask? ==> allowed(step.outside.reply))
    ensures RepliesAllowed(Apply(s, step), allowed)
  {
    hide Settled, DealGeofenceOperationResult;
  }

  lemma {:induction false} RunKeepsReplies(s: State, steps: seq<Step>, allowed: int -> bool)
    requires RepliesAllowed(s, allowed) && allowed(ERRCODE_SUCCESS) && Allows(steps, allowed)
    ensures RepliesAllowed(RunAll(s, steps), allowed)
    decreases |steps|
  {
    hide Apply, RepliesAllowed;
    if steps == [] {
    } else {
      StepKeepsReplies(s, steps[0], allowed);
      RunKeepsReplies(Apply(s, steps[0]), steps[1..], allowed);
    }
  }

  /** That is the exact condition on what the service answers and reports. */
  lemma AlwaysGrantedExactlyWhenTrustworthy(allowed: int -> bool, reports: Report -> bool)
    requires allowed(ERRCODE_SUCCESS)
    ensures AlwaysGranted(allowed, reports) <==> IsTrustworthy(allowed, reports)
  {
    hide Reachable, PassesOnlyForDelete, DeleteGranted, Sends;
    if IsTrustworthy(allowed, reports) {
      forall s, host: nat, task: nat, id |
        Reachable(s, allowed) && Sends(s, reports) && RemoveTold(s, host, task, id)
        ensures DeleteGranted(s.hosts[host])
      {
        TrustworthyMeansGranted(s, host, task, id, allowed, reports);
      }
    } else {
      var r :| reports(r) && r.opType == OPT_TYPE_DELETE;
      if !NeverRefuses(allowed) {
        var c :| allowed(c) && c != ERRCODE_SUCCESS;
        var s := RefusedRemoveDisturbsAnother(c, r, allowed);
        OneAddAndMore(s, [Answer(r, SetResult)], reports);
      } else {
        var stray :| reports(stray) && !PassesOnlyForDelete(stray);
        var s := StraySuccessDisturbsRemove(stray, r, allowed);
        OneAddAndMore(s, [Answer(stray, Finished), Answer(r, SetResult)], reports);
      }
    }
  }

  lemma TrustworthyMeansGranted(s: State, host: nat, task: nat, id: int, allowed: int -> bool,
                                reports: Report -> bool)
    requires Reachable(s, allowed) && Sends(s, reports) && RemoveTold(s, host, task, id)
    requires allowed(ERRCODE_SUCCESS) && IsTrustworthy(allowed, reports)
    ensures DeleteGranted(s.hosts[host])
  {
    hide DeleteGranted, PassesOnlyForDelete;
    var steps :| Allows(steps, allowed) && RunAll(INITIAL, steps) == s;
    UngrantedRemoveMeansRefusal(steps, host, task, id);
    RunKeepsReplies(INITIAL, steps, allowed);
    assert NeverRefuses(allowed) ==> AllAccepted(s.hosts[host]);
  }

  /** A state of one callback object whose answers do not grant a delete. */
  lemma OneAddAndMore(s: State, more: seq<Answer>, reports: Report -> bool)
    requires |s.hosts| == 1 && s.hosts[0].answers == [Answer(GRANTED_ADD, Finished)] + more
    requires forall j :: 0 <= j < |more| ==> reports(more[j].report)
    requires forall j :: 0 <= j < |more| ==> !Stored(more[j]) || !PassesOnlyForDelete(more[j].report)
    ensures Sends(s, reports) && !DeleteGranted(s.hosts[0])
  {
    var answers := s.hosts[0].answers;
    assert answers[0].report == GRANTED_ADD && forall j :: 0 < j < |answers| ==> answers[j] == more[j - 1];
  }

  const GRANTED_ADD: Report := Report(5, OPT_TYPE_ADD, OPERATION_SUCCESS)

  /** A run for every refusal and every report of a delete, also one that says that the id is unknown: fence 5
      is added and then removed twice, the second remove is refused, and fence 5 leaves the map before the
      result of the only report of a delete is stored. */
  lemma RefusedRemoveDisturbsAnother(refusal: int, r: Report, allowed: int -> bool) returns (s: State)
    requires allowed(ERRCODE_SUCCESS) && allowed(refusal) && refusal != ERRCODE_SUCCESS && r.opType == OPT_TYPE_DELETE
    ensures Reachable(s, allowed) && RemoveTold(s, 0, 1, 5) && 5 !in s.fences && |s.hosts| == 1
    ensures s.hosts[0].answers == [Answer(GRANTED_ADD, Finished)] + [Answer(r, SetResult)]
    ensures !DeleteGranted(s.hosts[0])
  {
    hide Reachable;
    StartIsReachable(allowed);
    s := GrantedAddSucceeds(INITIAL, GRANTED_ADD, allowed);
    MapHoldsTold(s, 5, allowed);
    s := TwoRemovesCanMeet(s, 5, refusal, r, allowed);
  }

  /** The same without a refusal, when a report that passes is not about a delete. */
  lemma StraySuccessDisturbsRemove(stray: Report, r: Report, allowed: int -> bool) returns (s: State)
    requires allowed(ERRCODE_SUCCESS) && !PassesOnlyForDelete(stray) && r.opType == OPT_TYPE_DELETE
    ensures Reachable(s, allowed) && RemoveTold(s, 0, 1, 5) && 5 !in s.fences && |s.hosts| == 1
    ensures s.hosts[0].answers == [Answer(GRANTED_ADD, Finished)] + [Answer(stray, Finished), Answer(r, SetResult)]
    ensures !DeleteGranted(s.hosts[0])
  {
    hide Reachable;
    StartIsReachable(allowed);
    s := GrantedAddSucceeds(INITIAL, GRANTED_ADD, allowed);
    MapHoldsTold(s, 5, allowed);
    s := StrayReportCanMeetRemoves(s, 5, stray, r, allowed);
  }

  predicate IsAboutDelete(r: Report) {
    r.opType == OPT_TYPE_DELETE
  }

  /** For a service that reports about deletes after the add: exactly when it refuses no call. */
  lemma AlwaysGrantedExactlyWithoutRefusals(allowed: int -> bool)
    requires allowed(ERRCODE_SUCCESS)
    ensures AlwaysGranted(allowed, IsAboutDelete) <==> NeverRefuses(allowed)
  {
    AlwaysGrantedExactlyWhenTrustworthy(allowed, IsAboutDelete);
    assert IsAboutDelete(Report(5, OPT_TYPE_DELETE, OPERATION_SUCCESS));
  }
}
