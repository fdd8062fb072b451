/**
 What a single call of a script does when the service answers: a start begins a search, a stop ends it,
 a stop-all ends every search of its environment, and reports of a search reach its handler.
 */
module BluetoothCalls {
  import opened BluetoothSearch
  import opened CallbackManagers
  import opened ErrorCodes
  import opened Wrappers

  const OK := ERRCODE_SUCCESS

  // ---------- one thread ----------

  /** The statements of one thread, one after the other, with the answers they get. */
  function Steps(env: Env, replies: seq<int>): seq<Step> {
    if replies == [] then [] else [Advance(env, replies[0], 0)] + Steps(env, replies[1..])
  }

  /** Their effect on what is shared, and where the thread is then. */
  function Runs(s: Shared, env: Env, t: Thread, replies: seq<int>): Effect
    decreases |replies|
  {
    if replies == [] then Effect(s, t)
    else
      var effect := Statement(s, env, t, replies[0], 0);
      Runs(effect.shared, env, effect.next, replies[1..])
  }

  lemma RunsOne(s: Shared, env: Env, t: Thread, reply: int, rest: seq<int>)
    ensures
      var effect := Statement(s, env, t, reply, 0);
      Runs(s, env, t, [reply] + rest) == Runs(effect.shared, env, effect.next, rest)
  {
    hide Statement;
    assert ([reply] + rest)[1..] == rest;
  }

  lemma RunsNone(s: Shared, env: Env, t: Thread)
    ensures Runs(s, env, t, []) == Effect(s, t)
  {
  }

  /** A call, and then the statements of its thread while no other moves. */
  function Calling(w: World, call: Step, replies: seq<int>): World
    requires call.CallStart? || call.CallStop? || call.CallStopAll?
  {
    RunAll(w, [call] + Steps(call.env, replies))
  }

  /** Nothing but what is shared and the thread of `env` has changed. */
  ghost predicate OnlyThread(w: World, w': World, env: Env, effect: Effect) {
    && w'.shared == effect.shared && ThreadOf(w', env) == effect.next
    && (forall e :: e != env ==> ThreadOf(w', e) == ThreadOf(w, e))
    && w'.queue == w.queue && w'.called == w.called && w'.crashed == w.crashed
  }

  lemma {:induction false} StepsAreRuns(w: World, env: Env, replies: seq<int>)
    ensures OnlyThread(w, RunAll(w, Steps(env, replies)), env, Runs(w.shared, env, ThreadOf(w, env), replies))
    decreases |replies|
  {
    hide Statement;
    if replies == [] {
    } else {
      var w' := Apply(w, Advance(env, replies[0], 0));
      assert Steps(env, replies)[1..] == Steps(env, replies[1..]);
      StepsAreRuns(w', env, replies[1..]);
    }
  }

  lemma CallingRuns(w: World, call: Step, replies: seq<int>)
    requires (call.CallStart? || call.CallStop? || call.CallStopAll?) && ThreadOf(w, call.env) == Idle
    ensures
      OnlyThread(w, Calling(w, call, replies), call.env, Runs(w.shared, call.env, CalledAt(w.shared, call), replies))
  {
    hide Statement, CalledAt;
    var w' := Apply(w, call);
    assert ([call] + Steps(call.env, replies))[1..] == Steps(call.env, replies);
    StepsAreRuns(w', call.env, replies);
  }

  // ---------- starts ----------

  /** With a new reference, its callback object and its live entry. */
  function Made(s: Shared, env: Env, handler: Handler): Shared {
    s.(refs := s.refs[s.nextRef := Key(env, handler)], nextRef := s.nextRef + 1,
       hosts := s.hosts + [Host(env, s.nextRef)], live := s.live + [s.nextRef])
  }

  lemma SearchIsMade(s: Shared, env: Env, handler: Handler, rest: seq<int>)
    ensures Runs(s, env, CreateReference(handler), [OK] + ([OK] + ([OK] + ([OK] + rest)))) ==
      Runs(Made(s, env, handler), env, AskStart(handler, |s.hosts|), rest)
  {
    hide Runs, Without;
    var host, cb := |s.hosts|, s.nextRef;
    var s1 := s.(refs := s.refs[cb := Key(env, handler)], nextRef := cb + 1);
    var s2 := s1.(hosts := s.hosts + [Host(env, NULL_REF)]);
    var s3 := s1.(hosts := s.hosts + [Host(env, cb)]);
    assert (s.hosts + [Host(env, NULL_REF)])[host := Host(env, cb)] == s.hosts + [Host(env, cb)];
    RunsOne(s, env, CreateReference(handler), OK, [OK] + ([OK] + ([OK] + rest)));
    RunsOne(s1, env, NewHost(handler, cb), OK, [OK] + ([OK] + rest));
    RunsOne(s2, env, SetHandler(handler, host, cb), OK, [OK] + rest);
    RunsOne(s3, env, PushLive(handler, host, cb), OK, rest);
  }

  /** The shared state with a new search. */
  function Searching(s: Shared, env: Env, handler: Handler): Shared {
    var made := Made(s, env, handler);
    made.(held := s.held[Key(env, handler) := |s.hosts|], registered := s.registered + {|s.hosts|})
  }

  /** The answers to a start, when its first four statements succeed. */
  function MadeAnd(rest: seq<int>): seq<int> {
    [OK] + ([OK] + ([OK] + ([OK] + rest)))
  }

  /** A start of a new handler with good arguments, once its six statements succeed: the handler is held, its
      host registered, and its reference live; everything else is as it was. */
  lemma StartBegins(w: World, env: Env, handler: Handler)
    requires ThreadOf(w, env) == Idle && Key(env, handler) !in w.shared.held
    ensures
      var w' := Calling(w, CallStart(env, handler, true), MadeAnd([OK] + ([OK] + [])));
      OnlyThread(w, w', env, Effect(Searching(w.shared, env, handler), Idle))
  {
    hide Runs, Calling, OnlyThread;
    var s, made, host := w.shared, Made(w.shared, env, handler), |w.shared.hosts|;
    CallingRuns(w, CallStart(env, handler, true), MadeAnd([OK] + ([OK] + [])));
    SearchIsMade(s, env, handler, [OK] + ([OK] + []));
    RunsOne(made, env, AskStart(handler, host), OK, [OK] + []);
    RunsOne(made.(registered := s.registered + {host}), env, AddHeld(handler, host), OK, []);
    RunsNone(Searching(s, env, handler), env, Idle);
  }

  /** A start whose registration the service refuses: what it had made is gone again. */
  lemma RefusedStartLeavesNothing(w: World, env: Env, handler: Handler, code: int)
    requires Inv(w) && ThreadOf(w, env) == Idle && Key(env, handler) !in w.shared.held && code != OK
    ensures
      var s, w' := w.shared, Calling(w, CallStart(env, handler, true), MadeAnd([code] + ([OK] + ([OK] + []))));
      var after := s.(nextRef := s.nextRef + 1, hosts := s.hosts + [Host(env, NULL_REF)]);
      OnlyThread(w, w', env, Effect(after, Idle))
  {
    hide Runs, Calling, OnlyThread, Inv, Without;
    var s, made, host, cb := w.shared, Made(w.shared, env, handler), |w.shared.hosts|, w.shared.nextRef;
    NextIsUnused(w);
    LastIsTakenOut(s.live, cb);
    CallingRuns(w, CallStart(env, handler, true), MadeAnd([code] + ([OK] + ([OK] + []))));
    SearchIsMade(s, env, handler, [code] + ([OK] + ([OK] + [])));
    RunsOne(made, env, AskStart(handler, host), code, [OK] + ([OK] + []));
    RunsOne(made, env, EraseLive(host, None), OK, [OK] + []);
    RunsOne(made.(live := s.live), env, DeleteRef(host, None), OK, []);
    assert made.hosts[host := Host(env, NULL_REF)] == s.hosts + [Host(env, NULL_REF)];
    assert made.refs - {cb} == s.refs;
    RunsNone(s.(nextRef := s.nextRef + 1, hosts := s.hosts + [Host(env, NULL_REF)]), env, Idle);
  }

  lemma NextIsUnused(w: World)
    requires Inv(w)
    ensures w.shared.nextRef !in w.shared.refs && w.shared.nextRef !in w.shared.live
  {
    hide EnvInv;
  }

  lemma LastIsTakenOut(live: seq<Ref>, cb: Ref)
    requires cb !in live
    ensures Without(live + [cb], cb) == live
  {
    WithoutErasesTheFirst(live + [cb], cb, |live|);
    assert (live + [cb])[..|live|] + (live + [cb])[|live| + 1..] == live;
  }

  /** A start changes nothing when its arguments are bad, when its handler is searching already, or when no
      reference can be made. */
  lemma IgnoredStartChangesNothing(w: World, env: Env, handler: Handler, argumentsOk: bool, code: int)
    requires ThreadOf(w, env) == Idle && (!argumentsOk || Key(env, handler) in w.shared.held || code != OK)
    ensures
      var w' := Calling(w, CallStart(env, handler, argumentsOk), [code] + []);
      OnlyThread(w, w', env, Effect(w.shared, Idle))
  {
    hide Runs, Calling, OnlyThread;
    CallingRuns(w, CallStart(env, handler, argumentsOk), [code] + []);
    RunsOne(w.shared, env, CalledAt(w.shared, CallStart(env, handler, argumentsOk)), code, []);
    RunsNone(w.shared, env, Idle);
  }

  // ---------- stops ----------

  /** The shared state without the search of a held handler. */
  function Stopped(s: Shared, k: Key): Shared
    requires k in s.held && s.held[k] < |s.hosts|
  {
    var host := s.held[k];
    var cb := s.hosts[host].cb;
    s.(refs := s.refs - {cb}, hosts := s.hosts[host := Host(k.env, NULL_REF)], live := Without(s.live, cb),
       held := s.held - {k}, registered := s.registered - {host})
  }

  /** A stop of a held handler that the service accepts: the handler is no longer held, its host no longer
      registered, its reference deleted and not live; everything else is as it was. */
  lemma StopEnds(w: World, env: Env, handler: Handler)
    requires Inv(w) && ThreadOf(w, env) == Idle && Key(env, handler) in w.shared.held
    ensures
      var s, k := w.shared, Key(env, handler);
      var w' := Calling(w, CallStop(env, handler), [OK] + ([OK] + ([OK] + ([OK] + []))));
      && OwnedBy(s, s.held[k], k)
      && OnlyThread(w, w', env, Effect(Stopped(s, k), Idle))
      && s.hosts[s.held[k]].cb !in w'.shared.live
  {
    hide Runs, Calling, OnlyThread, Inv, Without;
    var s, k := w.shared, Key(env, handler);
    var host := s.held[k];
    HeldHasItsReference(w, k);
    CallingRuns(w, CallStop(env, handler), [OK] + ([OK] + ([OK] + ([OK] + []))));
    RunsOne(s, env, AskStop(handler, host), OK, [OK] + ([OK] + ([OK] + [])));
    var s1 := s.(registered := s.registered - {host});
    RunsOne(s1, env, DeleteHeld(handler, host), OK, [OK] + ([OK] + []));
    var s2 := s1.(held := s.held - {k});
    RunsOne(s2, env, EraseLive(host, None), OK, [OK] + []);
    var s3 := s2.(live := Without(s.live, s.hosts[host].cb));
    RunsOne(s3, env, DeleteRef(host, None), OK, []);
    RunsNone(Stopped(s, k), env, Idle);
    SharedAfter(w, Calling(w, CallStop(env, handler), [OK] + ([OK] + ([OK] + ([OK] + [])))), env,
      Effect(Stopped(s, k), Idle));
  }

  lemma SharedAfter(w: World, w': World, env: Env, effect: Effect)
    requires OnlyThread(w, w', env, effect)
    ensures w'.shared == effect.shared && ThreadOf(w', env) == effect.next
  {
  }

  lemma HeldHasItsReference(w: World, k: Key)
    requires Inv(w) && ThreadOf(w, k.env) == Idle && k in w.shared.held
    ensures
      var s := w.shared;
      var cb := s.hosts[s.held[k]].cb;
      && OwnedBy(s, s.held[k], k) && cb in s.live && cb != NULL_REF && s.held[k] in s.registered
      && cb !in Without(s.live, cb)
  {
    hide SharedInv, EnvInv;
    IdleParts(w, k.env);
    HeldIsWhole(w.shared, k);
    OwnersHaveReferences(w.shared, w.shared.held[k], k);
    EachLiveOnce(w.shared);
    WithoutDropsOnlyIt(w.shared.live, w.shared.hosts[w.shared.held[k]].cb);
  }

  /** A stop changes nothing when the service refuses it, or when its handler is not held. */
  lemma RefusedStopChangesNothing(w: World, env: Env, handler: Handler, code: int)
    requires ThreadOf(w, env) == Idle && (Key(env, handler) !in w.shared.held || code != OK)
    ensures
      var w' := Calling(w, CallStop(env, handler), [code] + []);
      OnlyThread(w, w', env, Effect(w.shared, Idle))
  {
    hide Runs, Calling, OnlyThread;
    CallingRuns(w, CallStop(env, handler), [code] + []);
    RunsOne(w.shared, env, CalledAt(w.shared, CallStop(env, handler)), code, []);
    RunsNone(w.shared, env, Idle);
  }

  // ---------- stop-alls ----------

  function Accepted(hosts: set<nat>, reply: nat -> int): set<nat> {
    set h | h in hosts && reply(h) == OK
  }

  lemma {:induction false} RunAppend(w: World, a: seq<Step>, b: seq<Step>)
    ensures RunAll(w, a + b) == RunAll(RunAll(w, a), b)
    decreases |a|
  {
    hide Apply;
    if a == [] {
      assert a + b == b;
    } else {
      assert (a + b)[1..] == a[1..] + b;
      RunAppend(Apply(w, a[0]), a[1..], b);
    }
  }

  lemma StepAppend(w: World, steps: seq<Step>, step: Step)
    ensures RunAll(w, steps + [step]) == Apply(RunAll(w, steps), step)
  {
    hide Apply;
    RunAppend(w, steps, [step]);
    var w' := RunAll(w, steps);
    assert RunAll(w', [step]) == RunAll(Apply(w', step), [step][1..]);
  }

  /** Only the thread of `env` has moved; the held hosts are as they were. */
  ghost predicate Moved(w: World, w': World, env: Env) {
    && (forall e :: e != env ==> ThreadOf(w', e) == ThreadOf(w, e))
    && w'.queue == w.queue && w'.called == w.called && w'.crashed == w.crashed && w'.shared.held == w.shared.held
  }

  /** The three statements that deal with one host of a stop-all. */
  lemma StopAllNext(w: World, env: Env, left: set<nat>, host: nat, code: int) returns (steps: seq<Step>)
    requires Inv(w) && ThreadOf(w, env) == StopEach(left) && host in left
    ensures
      var s, w' := w.shared, RunAll(w, steps);
      && Inv(w') && Moved(w, w', env) && ThreadOf(w', env) == StopEach(left - {host})
      && w'.shared.registered == (if code == OK then s.registered - {host} else s.registered)
      && w'.shared.abandoned == (if code == OK then s.abandoned else s.abandoned + {host})
  {
    hide Inv, Without;
    LeftAreHosts(w, env, left);
    steps := [Advance(env, code, host)] + [Advance(env, OK, 0)] + [Advance(env, OK, 0)];
    StepAppend(w, [], Advance(env, code, host));
    assert [] + [Advance(env, code, host)] == [Advance(env, code, host)];
    StepAppend(w, [Advance(env, code, host)], Advance(env, OK, 0));
    StepAppend(w, [Advance(env, code, host)] + [Advance(env, OK, 0)], Advance(env, OK, 0));
    var w1 := Apply(w, Advance(env, code, host));
    assert ThreadOf(w1, env) == EraseLive(host, Some(left - {host}));
    var w2 := Apply(w1, Advance(env, OK, 0));
    assert ThreadOf(w2, env) == DeleteRef(host, Some(left - {host}));
    StepKeepsInv(w, Advance(env, code, host));
    StepKeepsInv(w1, Advance(env, OK, 0));
    StepKeepsInv(w2, Advance(env, OK, 0));
  }

  lemma LeftAreHosts(w: World, env: Env, left: set<nat>)
    requires Inv(w) && ThreadOf(w, env) == StopEach(left)
    ensures forall h :: h in left ==> h < |w.shared.hosts|
  {
    hide HeldOk, RefOk, Accounted, AbandonedOk, HostsOk;
    assert EnvInv(w.shared, env, ThreadOf(w, env));
  }

  lemma {:induction false} StopAllRest(w: World, env: Env, left: set<nat>, reply: nat -> int)
    returns (steps: seq<Step>)
    requires Inv(w) && ThreadOf(w, env) == StopEach(left)
    ensures
      var s, w' := w.shared, RunAll(w, steps);
      && Inv(w') && Moved(w, w', env) && ThreadOf(w', env) == StopEach({})
      && w'.shared.registered == s.registered - Accepted(left, reply)
      && w'.shared.abandoned == s.abandoned + (left - Accepted(left, reply))
    decreases |left|
  {
    hide Inv, Apply;
    if left == {} {
      steps := [];
      assert Accepted(left, reply) == {};
    } else {
      var host :| host in left;
      var first := StopAllNext(w, env, left, host, reply(host));
      var rest := StopAllRest(RunAll(w, first), env, left - {host}, reply);
      steps := first + rest;
      RunAppend(w, first, rest);
      OneMoreAnswered(left, host, reply, w.shared.registered, w.shared.abandoned);
    }
  }

  lemma OneMoreAnswered(left: set<nat>, host: nat, reply: nat -> int, registered: set<nat>, abandoned: set<nat>)
    requires host in left
    ensures
      var rest := left - {host};
      if reply(host) == OK then
        && registered - {host} - Accepted(rest, reply) == registered - Accepted(left, reply)
        && abandoned + (rest - Accepted(rest, reply)) == abandoned + (left - Accepted(left, reply))
      else
        && registered - Accepted(rest, reply) == registered - Accepted(left, reply)
        && abandoned + {host} + (rest - Accepted(rest, reply)) == abandoned + (left - Accepted(left, reply))
  {
    assert Accepted(left, reply) == Accepted(left - {host}, reply) + if reply(host) == OK then {host} else {};
  }

  /** A stop-all of an idle environment, whatever the service answers for each host: nothing of the environment
      is held any more, none of its references is left, and exactly the hosts are registered still that the
      service did not let go. */
  lemma StopAllEnds(w: World, env: Env, reply: nat -> int) returns (steps: seq<Step>)
    requires Inv(w) && ThreadOf(w, env) == Idle
    ensures
      var s, w' := w.shared, RunAll(w, [CallStopAll(env)] + steps);
      && ThreadOf(w', env) == Idle && (forall e :: e != env ==> ThreadOf(w', e) == ThreadOf(w, e))
      && w'.queue == w.queue && w'.called == w.called && w'.crashed == w.crashed
      && w'.shared.held == ErasedEnv(s.held, env)
      && w'.shared.registered == s.registered - Accepted(HostsOf(s, env), reply)
      && w'.shared.abandoned == s.abandoned + (HostsOf(s, env) - Accepted(HostsOf(s, env), reply))
      && (forall cb :: cb in w'.shared.refs ==> w'.shared.refs[cb].env != env)
  {
    hide Inv, HostsOf, ErasedEnv, RunAll, Accepted;
    var w0 := Apply(w, CallStopAll(env));
    StepKeepsInv(w, CallStopAll(env));
    var each := StopAllRest(w0, env, HostsOf(w.shared, env), reply);
    var w1 := RunAll(w0, each);
    var last := StopAllLast(w1, env);
    steps := each + last;
    CallFirst(w, CallStopAll(env), steps);
    RunAppend(w0, each, last);
  }

  lemma CallFirst(w: World, call: Step, steps: seq<Step>)
    ensures RunAll(w, [call] + steps) == RunAll(Apply(w, call), steps)
  {
    hide Apply;
    assert ([call] + steps)[1..] == steps;
  }

  lemma StopAllLast(w: World, env: Env) returns (steps: seq<Step>)
    requires Inv(w) && ThreadOf(w, env) == StopEach({})
    ensures
      var s, w' := w.shared, RunAll(w, steps);
      && ThreadOf(w', env) == Idle && (forall e :: e != env ==> ThreadOf(w', e) == ThreadOf(w, e))
      && w'.queue == w.queue && w'.called == w.called && w'.crashed == w.crashed
      && w'.shared == s.(held := ErasedEnv(s.held, env))
      && (forall cb :: cb in w'.shared.refs ==> w'.shared.refs[cb].env != env)
  {
    hide Inv, RunAll;
    steps := [Advance(env, OK, 0)] + [Advance(env, OK, 0)];
    CallFirst(w, Advance(env, OK, 0), [Advance(env, OK, 0)]);
    var w1 := Apply(w, Advance(env, OK, 0));
    assert ThreadOf(w1, env) == DeleteEnv;
    assert [Advance(env, OK, 0)] + [] == [Advance(env, OK, 0)];
    CallFirst(w1, Advance(env, OK, 0), []);
    var w2 := Apply(w1, Advance(env, OK, 0));
    NothingMore(w2);
    StepKeepsInv(w, Advance(env, OK, 0));
    StepKeepsInv(w1, Advance(env, OK, 0));
    assert w2.shared.held == ErasedEnv(w2.shared.held, env);
    NoneHeldNoneLeft(w2, env);
  }

  lemma NothingMore(w: World)
    ensures RunAll(w, []) == w
  {
  }

  lemma NoneHeldNoneLeft(w: World, env: Env)
    requires Inv(w) && ThreadOf(w, env) == Idle && w.shared.held == ErasedEnv(w.shared.held, env)
    ensures forall cb :: cb in w.shared.refs ==> w.shared.refs[cb].env != env
  {
    hide SharedInv, EnvInv;
    IdleParts(w, env);
    forall cb | cb in w.shared.refs
      ensures w.shared.refs[cb].env != env
    {
      if w.shared.refs[cb].env == env {
        UndeletedIsHeld(w.shared, cb);
      }
    }
  }

  // ---------- results ----------

  /** A result for a held search is queued, and its delivery calls the handler. */
  lemma ReportReachesTheHandler(w: World, env: Env, handler: Handler)
    requires Inv(w) && ThreadOf(w, env) == Idle && Key(env, handler) in w.shared.held
    ensures
      var s, k := w.shared, Key(env, handler);
      var w' := Apply(Apply(w, Report(s.held[k])), Deliver(env, |w.queue|));
      && OwnedBy(s, s.held[k], k)
      && w'.called == w.called + [s.hosts[s.held[k]].cb]
      && w'.queue == w.queue && w'.shared == s && !w'.crashed
  {
    hide EnvInv, SharedInv;
    HeldHasItsReference(w, Key(env, handler));
    var work := Work(env, w.shared.hosts[w.shared.held[Key(env, handler)]].cb);
    assert (w.queue + [work])[..|w.queue|] + (w.queue + [work])[|w.queue| + 1..] == w.queue;
  }
}
