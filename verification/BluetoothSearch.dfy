/**
 Bluetooth searches from scripts.  Each script environment has its own thread; the service reports
 scan results from threads of its own.  A result is queued for the script thread together with the
 reference to the handler, which may be deleted before the queue is worked off.
 */
module BluetoothSearch {
  import opened ErrorCodes
  import opened Wrappers
  import opened CallbackManagers

  // ---------- the list of live references ----------

  /** `list` without the first occurrence of `cb`. */
  function Without(list: seq<Ref>, cb: Ref): seq<Ref> {
    if list == [] then [] else if list[0] == cb then list[1..] else [list[0]] + Without(list[1..], cb)
  }

  lemma {:induction false} WithoutTakesOneAway(list: seq<Ref>, cb: Ref)
    ensures multiset(Without(list, cb)) == multiset(list) - multiset{cb}
  {
    if list == [] {
    } else {
      assert list == [list[0]] + list[1..];
      if list[0] != cb {
        WithoutTakesOneAway(list[1..], cb);
      }
    }
  }

  lemma {:induction false} WithoutErasesTheFirst(list: seq<Ref>, cb: Ref, i: nat)
    requires i <= |list| && cb !in list[..i] && (i < |list| ==> list[i] == cb)
    ensures Without(list, cb) == if i < |list| then list[..i] + list[i + 1..] else list
  {
    if i == 0 {
    } else {
      var rest := list[1..];
      assert list[..i] == [list[0]] + rest[..i - 1];
      WithoutErasesTheFirst(rest, cb, i - 1);
      assert Without(list, cb) == [list[0]] + Without(rest, cb);
      assert i < |list| ==> list[i + 1..] == rest[i..];
      assert list == [list[0]] + rest;
    }
  }

  lemma WithoutDropsOnlyIt(list: seq<Ref>, cb: Ref)
    requires forall x :: multiset(list)[x] <= 1
    ensures forall x :: multiset(Without(list, cb))[x] <= 1
    ensures forall x :: x in Without(list, cb) <==> x in list && x != cb
  {
    WithoutTakesOneAway(list, cb);
    forall x
      ensures x in Without(list, cb) <==> x in list && x != cb
    {
      assert x in Without(list, cb) <==> x in multiset(Without(list, cb));
      assert x in list <==> x in multiset(list);
    }
  }

  class LiveReferences {
    var list: seq<Ref>

    constructor ()
      ensures list == []
    {
      list := [];
    }

    method Add(cb: Ref)
      modifies this
      ensures list == old(list) + [cb]
    {
      list := list + [cb];
    }

    method FindBlueToothCallback(cb: Ref) returns (found: bool)
      ensures found <==> cb in list
    {
      var i := 0;
      while i < |list| && list[i] != cb
        invariant 0 <= i <= |list| && cb !in list[..i]
      {
        i := i + 1;
      }
      return i != |list|;
    }

    method DeleteBlueToothCallback(cb: Ref)
      modifies this
      ensures list == Without(old(list), cb)
    {
      var i := 0;
      while i < |list|
        invariant 0 <= i <= |list| && list == old(list) && cb !in list[..i]
      {
        if list[i] == cb {
          WithoutErasesTheFirst(list, cb, i);
          list := list[..i] + list[i + 1..];
          return;
        }
        i := i + 1;
      }
      WithoutErasesTheFirst(list, cb, i);
    }
  }

  // ---------- the callback object ----------

  datatype Work = Work(env: Env, cb: Ref)

  /** The two fields of a callback object whose environment has been set. */
  datatype Host = Host(env: Env, cb: Ref)

  class ScanResultCallback {
    var env: Option<Env>
    var handlerCb: Ref

    constructor ()
      ensures env == None && handlerCb == NULL_REF
    {
      env, handlerCb := None, NULL_REF;
    }

    /** The object is host number `host` of the machine below. */
    predicate IsHost(s: Shared, host: nat)
      reads this
    {
      host < |s.hosts| && env == Some(s.hosts[host].env) && handlerCb == s.hosts[host].cb
    }

    method SetHandleCb(cb: Ref, live: LiveReferences)
      modifies this`handlerCb, live
      ensures handlerCb == cb && live.list == old(live.list) + [cb]
      ensures forall s, host :: old(IsHost(s, host)) && s.live == old(live.list) ==>
        IsHost(WithHandler(s, host, cb), host) && live.list == WithHandler(s, host, cb).live
    {
      handlerCb := cb;
      live.Add(cb);
    }

    method DeleteHandler(live: LiveReferences, engine: JsEngine)
      requires engine.Valid()
      modifies this`handlerCb, live, engine`refs
      ensures engine.Valid()
      ensures old(env).None? ==>
        handlerCb == old(handlerCb) && live.list == old(live.list) && engine.refs == old(engine.refs)
      ensures old(env).Some? ==>
        && handlerCb == NULL_REF && live.list == Without(old(live.list), old(handlerCb))
        && engine.refs == old(engine.refs) - {old(handlerCb)}
      ensures forall s, host ::
        old(IsHost(s, host)) && s.live == old(live.list) && s.refs.Keys == old(engine.refs.Keys) ==>
        var s' := WithoutHandler(s, host);
        IsHost(s', host) && live.list == s'.live && engine.refs.Keys == s'.refs.Keys
    {
      if env.None? {
        return;
      }
      live.DeleteBlueToothCallback(handlerCb);
      if handlerCb != NULL_REF {
        engine.DeleteReference(handlerCb);
        handlerCb := NULL_REF;
      } else {
        assert engine.refs - {NULL_REF} == engine.refs;
      }
    }

    /** A result for host number `host` is queued as the machine below queues it. */
    method OnBluetoothScanResultChange(queue: seq<Work>) returns (queue': seq<Work>)
      ensures queue' == if env.Some? && handlerCb != NULL_REF then queue + [Work(env.value, handlerCb)] else queue
      ensures forall w: World, host ::
        IsHost(w.shared, host) && w.queue == queue ==> queue' == QueueResult(w, host).queue
    {
      if env.None? || handlerCb == NULL_REF {
        return queue;
      }
      return queue + [Work(env.value, handlerCb)];
    }
  }

  // ---------- the searches of all environments ----------

  class BluetoothSearches {
    const manager: CallbackManager<ScanResultCallback>
    const live: LiveReferences
    const engine: JsEngine
    /** The callback objects the service sends results to. */
    var registered: set<ScanResultCallback>

    constructor ()
      ensures Valid() && manager.flat == map[] && live.list == [] && registered == {} && engine.refs == map[]
      ensures fresh(manager) && fresh(live) && fresh(engine)
    {
      var newEngine := new JsEngine();
      engine := newEngine;
      manager := new CallbackManager<ScanResultCallback>(newEngine);
      live := new LiveReferences();
      registered := {};
    }

    /** The callback objects of an environment. */
    ghost function CallbacksOf(env: Env): set<ScanResultCallback>
      reads this, manager
    {
      set r | Holds(manager.callbackMap, env, r) && r in manager.callbackMap[env] :: manager.callbackMap[env][r]
    }

    ghost predicate HoldsWhole(env: Env, r: Ref)
      requires Holds(manager.callbackMap, env, r)
      reads this, manager, manager.callbackMap[env][r]
    {
      var callback := manager.callbackMap[env][r];
      callback.env == Some(env) && callback.handlerCb == r
    }

    /** Every held callback object knows its environment and the reference it is held under, and no
        reference is held for two environments. */
    ghost predicate Valid()
      reads this, manager, engine, set env, r | Holds(manager.callbackMap, env, r) :: manager.callbackMap[env][r]
    {
      && manager.engine == engine && manager.Valid()
      && (forall env, r :: Holds(manager.callbackMap, env, r) ==> HoldsWhole(env, r))
      && OneEnvEach(manager.callbackMap)
    }

    lemma EnvironmentIsReady(env: Env)
      requires Valid()
      ensures
        var callbacks := InnerMap(manager.callbackMap, env);
        && (forall r :: r in callbacks ==> callbacks[r] in CallbacksOf(env) && callbacks[r].env == Some(env))
        && Remain(callbacks, callbacks.Keys) && EachItsOwn(callbacks)
    {
      var callbacks := InnerMap(manager.callbackMap, env);
      forall r | r in callbacks
        ensures callbacks[r] in CallbacksOf(env) && callbacks[r].env == Some(env) && callbacks[r].handlerCb == r
      {
        assert Holds(manager.callbackMap, env, r) && HoldsWhole(env, r);
      }
    }

    /** The service may refuse to let a callback object go; its handler is deleted all the same. */
    method StopOne(callback: ScanResultCallback, reply: int)
      requires engine.Valid() && callback.env.Some?
      modifies this`registered, live, engine`refs, callback`handlerCb
      ensures engine.Valid() && engine.refs == old(engine.refs) - {old(callback.handlerCb)}
      ensures multiset(live.list) == multiset(old(live.list)) - multiset{old(callback.handlerCb)}
      ensures registered == old(registered) - if reply == ERRCODE_SUCCESS then {callback} else {}
      ensures callback.handlerCb == NULL_REF
    {
      hide Without, WithoutHandler, ScanResultCallback.IsHost;
      if reply == ERRCODE_SUCCESS {
        registered := registered - {callback};
      }
      WithoutTakesOneAway(live.list, callback.handlerCb);
      callback.DeleteHandler(live, engine);
    }

    method StopNext(callbacks: map<Ref, ScanResultCallback>, r: Ref, callback: ScanResultCallback, reply: int,
                    ghost left: set<Ref>)
      requires engine.Valid() && r in callbacks && callbacks[r] == callback && callback.env.Some?
      requires Remain(callbacks, left) && r in left && EachItsOwn(callbacks)
      modifies this`registered, live, engine`refs, callback`handlerCb
      ensures engine.Valid() && engine.refs == old(engine.refs) - {r}
      ensures multiset(live.list) == multiset(old(live.list)) - multiset{r}
      ensures registered == old(registered) - if reply == ERRCODE_SUCCESS then {callback} else {}
      ensures Remain(callbacks, left - {r})
    {
      hide JsEngine.Valid;
      StopOne(callback, reply);
    }

    method StopEachCallback(env: Env, callbacks: map<Ref, ScanResultCallback>, reply: ScanResultCallback -> int,
                            ghost objects: set<ScanResultCallback>)
      requires engine.Valid()
      requires forall r :: r in callbacks ==> callbacks[r] in objects && callbacks[r].env == Some(env)
      requires Remain(callbacks, callbacks.Keys) && EachItsOwn(callbacks)
      modifies this`registered, live, engine`refs, objects`handlerCb
      ensures engine.Valid() && engine.refs == old(engine.refs) - callbacks.Keys
      ensures multiset(live.list) == multiset(old(live.list)) - multiset(callbacks.Keys)
      ensures registered == old(registered) - LetGo(callbacks, callbacks.Keys, reply)
      ensures Remain(callbacks, {})
    {
      hide *;
      NothingLetGo(callbacks, reply);
      var left := callbacks.Keys;
      ghost var done: set<Ref> := {};
      while left != {}
        invariant left + done == callbacks.Keys && left !! done
        invariant engine.Valid() && engine.refs == old(engine.refs) - done
        invariant multiset(live.list) == multiset(old(live.list)) - multiset(done)
        invariant registered == old(registered) - LetGo(callbacks, done, reply)
        invariant Remain(callbacks, left)
        decreases |left|
      {
        var r :| r in left;
        assert callbacks[r].env == Some(env);
        StopNext(callbacks, r, callbacks[r], reply(callbacks[r]), left);
        OneMoreLetGo(callbacks, done, r, reply, old(registered));
        OneMoreDone(old(engine.refs), multiset(old(live.list)), left, done, r);
        left, done := left - {r}, done + {r};
      }
    }

    /** The held callback objects that a stop-all of `env` does not touch. */
    ghost predicate OthersHoldWhole(env: Env)
      reads this, manager, set e, r | Holds(manager.callbackMap, e, r) :: manager.callbackMap[e][r]
    {
      forall e, r :: Holds(manager.callbackMap, e, r) && e != env ==> HoldsWhole(e, r)
    }

    method StopAllBluetoothSearchCallbacks(env: Env, reply: ScanResultCallback -> int)
      requires Valid()
      modifies this`registered, manager, live, engine`refs, CallbacksOf(env)`handlerCb
      ensures Valid() && manager.flat == ErasedEnv(old(manager.flat), env)
      ensures manager.callbackMap == old(manager.callbackMap) - {env}
      ensures
        var callbacks := InnerMap(old(manager.callbackMap), env);
        && engine.refs == old(engine.refs) - callbacks.Keys
        && multiset(live.list) == multiset(old(live.list)) - multiset(callbacks.Keys)
        && registered == old(registered) - LetGo(callbacks, callbacks.Keys, reply)
        && Remain(callbacks, {})
    {
      hide Refines, Remain, LetGo, EachItsOwn;
      ghost var before := engine.refs;
      var callbacks := InnerMap(manager.callbackMap, env);
      EnvironmentIsReady(env);
      StopEachCallback(env, callbacks, reply, CallbacksOf(env));
      OtherReferencesAreLive(manager.callbackMap, before, manager.flat, env);
      ghost var held := manager.callbackMap;
      assert OthersHoldWhole(env);
      manager.DeleteCallbackByEnv(env, before);
      forall e, r | Holds(manager.callbackMap, e, r)
        ensures HoldsWhole(e, r)
      {
        assert Holds(held, e, r) && e != env && held[e][r] == manager.callbackMap[e][r];
      }
      assert forall e, r :: Holds(manager.callbackMap, e, r) ==> Holds(held, e, r);
    }
  }

  /** A reference belongs to one environment. */
  ghost predicate OneEnvEach(callbacks: Callbacks<ScanResultCallback>) {
    forall e, f, r :: Holds(callbacks, e, r) && Holds(callbacks, f, r) ==> e == f
  }

  lemma OtherReferencesAreLive(callbacks: Callbacks<ScanResultCallback>, refs: map<Ref, Handler>,
                               flat: Flat<ScanResultCallback>, env: Env)
    requires Refines(callbacks, refs, flat) && OneEnvEach(callbacks)
    ensures
      var refs' := refs - InnerMap(callbacks, env).Keys;
      forall e, r :: Holds(callbacks, e, r) && e != env ==> r in refs' && refs'[r] == refs[r]
  {
    forall e, r | Holds(callbacks, e, r) && e != env
      ensures r !in InnerMap(callbacks, env)
    {
      assert Holds(callbacks, env, r) ==> e == env;
    }
  }

  function InnerMap(callbacks: Callbacks<ScanResultCallback>, env: Env): map<Ref, ScanResultCallback> {
    if env in callbacks then callbacks[env] else map[]
  }

  /** The callback objects behind `refs` that the service lets go. */
  ghost function LetGo(callbacks: map<Ref, ScanResultCallback>, refs: set<Ref>, reply: ScanResultCallback -> int)
    : set<ScanResultCallback>
  {
    set r | r in refs && r in callbacks && reply(callbacks[r]) == ERRCODE_SUCCESS :: callbacks[r]
  }

  /** The callback objects behind `left` have their references still, the others have none. */
  ghost predicate Remain(callbacks: map<Ref, ScanResultCallback>, left: set<Ref>)
    reads set r | r in callbacks :: callbacks[r]
  {
    forall r :: r in callbacks ==> callbacks[r].handlerCb == if r in left then r else NULL_REF
  }

  predicate EachItsOwn(callbacks: map<Ref, ScanResultCallback>) {
    forall q, r :: q in callbacks && r in callbacks && q != r ==> callbacks[q] != callbacks[r]
  }

  lemma OneMoreDone(refs: map<Ref, Handler>, list: multiset<Ref>, left: set<Ref>, done: set<Ref>, r: Ref)
    requires r in left && left !! done
    ensures (left - {r}) + (done + {r}) == left + done && (left - {r}) !! (done + {r})
    ensures refs - done - {r} == refs - (done + {r})
    ensures list - multiset(done) - multiset{r} == list - multiset(done + {r})
  {
  }

  lemma NothingLetGo(callbacks: map<Ref, ScanResultCallback>, reply: ScanResultCallback -> int)
    ensures LetGo(callbacks, {}, reply) == {}
  {
  }

  lemma OneMoreLetGo(callbacks: map<Ref, ScanResultCallback>, refs: set<Ref>, r: Ref, reply: ScanResultCallback -> int,
                     registered: set<ScanResultCallback>)
    requires r in callbacks
    ensures
      var gone := if reply(callbacks[r]) == ERRCODE_SUCCESS then {callbacks[r]} else {};
      registered - LetGo(callbacks, refs, reply) - gone == registered - LetGo(callbacks, refs + {r}, reply)
  {
  }

  // ---------- all threads together ----------

  /** Where a script thread stands; each value names what it does next.  `after` is what is left of a
      stop-all that goes on when the handler is deleted. */
  datatype Thread =
    | Idle
    | CreateReference(handler: Handler)
    | NewHost(handler: Handler, cb: Ref)
    | SetHandler(handler: Handler, host: nat, cb: Ref)
    | PushLive(handler: Handler, host: nat, cb: Ref)
    | AskStart(handler: Handler, host: nat)
    | AddHeld(handler: Handler, host: nat)
    | AskStop(handler: Handler, host: nat)
    | DeleteHeld(handler: Handler, host: nat)
    | EraseLive(host: nat, after: Option<set<nat>>)
    | DeleteRef(host: nat, after: Option<set<nat>>)
    | StopEach(left: set<nat>)
    | DeleteEnv

  /** `refs` tells for every reference that is not deleted whose handler it leads to; `held` is what
      the callback manager stands for; `abandoned` remembers the hosts that a stop-all dropped although
      the service had not let them go. */
  datatype Shared = Shared(
    refs: map<Ref, Key>,
    nextRef: Ref,
    hosts: seq<Host>,
    live: seq<Ref>,
    held: Flat<nat>,
    registered: set<nat>,
    abandoned: set<nat>)

  /** The whole: what the threads share, where each stands, the queued work, the references called so far. */
  datatype World = World(shared: Shared, threads: map<Env, Thread>, queue: seq<Work>, called: seq<Ref>, crashed: bool)

  const INITIAL: World := World(Shared(map[], 1, [], [], map[], {}, {}), map[], [], [], false)

  function ThreadOf(w: World, env: Env): Thread {
    if env in w.threads then w.threads[env] else Idle
  }

  datatype Step =
    | CallStart(env: Env, handler: Handler, argumentsOk: bool)
    | CallStop(env: Env, handler: Handler)
    | CallStopAll(env: Env)
    | Advance(env: Env, reply: int, pick: nat)
    | Report(host: nat)
    | Deliver(env: Env, index: nat)

  /** The effect of one statement, and where the thread goes on. */
  datatype Effect = Effect(shared: Shared, next: Thread)

  function HostsOf(s: Shared, env: Env): set<nat> {
    set k | k in s.held && k.env == env :: s.held[k]
  }

  function Continue(after: Option<set<nat>>): Thread {
    match after
    case None => Idle
    case Some(left) => StopEach(left)
  }

  /** The statement at which a script thread stands; `reply` is the answer of the engine or of the
      service, and `pick` says which host a stop-all comes to next. */
  function Statement(s: Shared, env: Env, t: Thread, reply: int, pick: nat): Effect {
    match t
    case Idle => Effect(s, Idle)
    case CreateReference(handler) =>
      if reply != ERRCODE_SUCCESS then Effect(s, Idle)
      else Effect(s.(refs := s.refs[s.nextRef := Key(env, handler)], nextRef := s.nextRef + 1),
        NewHost(handler, s.nextRef))
    case NewHost(handler, cb) =>
      Effect(s.(hosts := s.hosts + [Host(env, NULL_REF)]), SetHandler(handler, |s.hosts|, cb))
    case SetHandler(handler, host, cb) =>
      if host < |s.hosts| then Effect(s.(hosts := s.hosts[host := Host(env, cb)]), PushLive(handler, host, cb))
      else Effect(s, t)
    case PushLive(handler, host, cb) =>
      Effect(s.(live := s.live + [cb]), AskStart(handler, host))
    case AskStart(handler, host) =>
      if reply == ERRCODE_SUCCESS then Effect(s.(registered := s.registered + {host}), AddHeld(handler, host))
      else Effect(s, EraseLive(host, None))
    case AddHeld(handler, host) =>
      Effect(s.(held := s.held[Key(env, handler) := host]), Idle)
    case AskStop(handler, host) =>
      if reply == ERRCODE_SUCCESS then Effect(s.(registered := s.registered - {host}), DeleteHeld(handler, host))
      else Effect(s, Idle)
    case DeleteHeld(handler, host) =>
      Effect(s.(held := s.held - {Key(env, handler)}), EraseLive(host, None))
    case EraseLive(host, after) =>
      if host < |s.hosts| then Effect(s.(live := Without(s.live, s.hosts[host].cb)), DeleteRef(host, after))
      else Effect(s, t)
    case DeleteRef(host, after) =>
      if host < |s.hosts| then
        Effect(s.(refs := s.refs - {s.hosts[host].cb}, hosts := s.hosts[host := Host(s.hosts[host].env, NULL_REF)]),
               Continue(after))
      else Effect(s, t)
    case StopEach(left) =>
      if left == {} then Effect(s, DeleteEnv)
      else if pick !in left then Effect(s, t)
      else if reply == ERRCODE_SUCCESS then
        Effect(s.(registered := s.registered - {pick}), EraseLive(pick, Some(left - {pick})))
      else
        Effect(s.(abandoned := s.abandoned + {pick}), EraseLive(pick, Some(left - {pick})))
    case DeleteEnv =>
      Effect(s.(held := ErasedEnv(s.held, env)), Idle)
  }

  /** Where a call takes an idle thread.  A start with bad arguments or with a handler that is searching
      already, or a stop of an unknown handler, changes nothing. */
  function CalledAt(s: Shared, step: Step): Thread
    requires step.CallStart? || step.CallStop? || step.CallStopAll?
  {
    match step
    case CallStart(env, handler, argumentsOk) =>
      if argumentsOk && Key(env, handler) !in s.held then CreateReference(handler) else Idle
    case CallStop(env, handler) =>
      if Key(env, handler) in s.held then AskStop(handler, s.held[Key(env, handler)]) else Idle
    case CallStopAll(env) =>
      StopEach(HostsOf(s, env))
  }

  /** Queued work is done by the script thread when it does nothing else.  A reference that is not in
      the live list is left alone; using a deleted one would be a crash. */
  function DeliverWork(w: World, env: Env, index: nat): World {
    if ThreadOf(w, env) != Idle || index >= |w.queue| || w.queue[index].env != env then w
    else
      var cb := w.queue[index].cb;
      var w' := w.(queue := w.queue[..index] + w.queue[index + 1..]);
      if cb !in w.shared.live then w'
      else if cb !in w.shared.refs then w'.(crashed := true)
      else w'.(called := w.called + [cb])
  }

  function QueueResult(w: World, host: nat): World {
    if host < |w.shared.hosts| && w.shared.hosts[host].cb != NULL_REF then
      w.(queue := w.queue + [Work(w.shared.hosts[host].env, w.shared.hosts[host].cb)])
    else w
  }

  function Apply(w: World, step: Step): World {
    match step
    case Advance(env, reply, pick) =>
      var effect := Statement(w.shared, env, ThreadOf(w, env), reply, pick);
      w.(shared := effect.shared, threads := w.threads[env := effect.next])
    case Report(host) => QueueResult(w, host)
    case Deliver(env, index) => DeliverWork(w, env, index)
    case _ =>
      if ThreadOf(w, step.env) != Idle then w
      else w.(threads := w.threads[step.env := CalledAt(w.shared, step)])
  }

  function RunAll(w: World, steps: seq<Step>): World
    decreases |steps|
  {
    if steps == [] then w else RunAll(Apply(w, steps[0]), steps[1..])
  }

  // ---------- the methods of the callback object ----------

  /** `SetHandleCb` and `DeleteHandler` as effects on the machine. */
  function WithHandler(s: Shared, host: nat, cb: Ref): Shared
    requires host < |s.hosts|
  {
    s.(hosts := s.hosts[host := Host(s.hosts[host].env, cb)], live := s.live + [cb])
  }

  function WithoutHandler(s: Shared, host: nat): Shared
    requires host < |s.hosts|
  {
    var cb := s.hosts[host].cb;
    s.(live := Without(s.live, cb), refs := s.refs - {cb}, hosts := s.hosts[host := Host(s.hosts[host].env, NULL_REF)])
  }

  /** Two statements that are not interrupted are one call of a method. */
  lemma SetHandleCbIsTwoStatements(s: Shared, env: Env, handler: Handler, host: nat, cb: Ref, reply: int, pick: nat)
    requires host < |s.hosts| && s.hosts[host].env == env
    ensures
      var first := Statement(s, env, SetHandler(handler, host, cb), reply, pick);
      Statement(first.shared, env, first.next, reply, pick) == Effect(WithHandler(s, host, cb), AskStart(handler, host))
  {
  }

  lemma DeleteHandlerIsTwoStatements(s: Shared, env: Env, host: nat, after: Option<set<nat>>, reply: int, pick: nat)
    requires host < |s.hosts|
    ensures
      var first := Statement(s, env, EraseLive(host, after), reply, pick);
      Statement(first.shared, env, first.next, reply, pick) == Effect(WithoutHandler(s, host), Continue(after))
  {
  }

  // ---------- what every step keeps ----------

  /** The hosts that the thread is about to finish with. */
  function Doomed(t: Thread): set<nat> {
    match t
    case DeleteHeld(_, host) => {host}
    case EraseLive(host, after) => {host} + (if after.Some? then after.value else {})
    case DeleteRef(host, after) => {host} + (if after.Some? then after.value else {})
    case StopEach(left) => left
    case _ => {}
  }

  predicate StoppingAll(t: Thread) {
    || t.StopEach?
    || t.DeleteEnv?
    || (t.EraseLive? && t.after.Some?)
    || (t.DeleteRef? && t.after.Some?)
  }

  predicate OwnedBy(s: Shared, host: nat, owner: Key) {
    && host < |s.hosts| && s.hosts[host].env == owner.env
    && s.hosts[host].cb in s.refs && s.refs[s.hosts[host].cb] == owner
  }

  predicate Has(s: Shared, host: nat, cb: Ref) {
    host < |s.hosts| && s.hosts[host].cb == cb
  }

  /** The reference is being made or unmade by its thread. */
  predicate InHand(s: Shared, cb: Ref, t: Thread) {
    match t
    case NewHost(_, cb') => cb' == cb
    case SetHandler(_, _, cb') => cb' == cb
    case PushLive(_, _, cb') => cb' == cb
    case AskStart(_, host) => Has(s, host, cb)
    case AddHeld(_, host) => Has(s, host, cb)
    case EraseLive(host, _) => Has(s, host, cb)
    case DeleteRef(host, _) => Has(s, host, cb)
    case _ => false
  }

  predicate HeldFor(s: Shared, cb: Ref) {
    cb in s.refs && s.refs[cb] in s.held && Has(s, s.held[s.refs[cb]], cb)
  }

  /** An undeleted reference is live and held, unless its thread has it in hand. */
  predicate RefOk(s: Shared, cb: Ref, t: Thread) {
    (cb in s.live && HeldFor(s, cb)) || InHand(s, cb, t)
  }

  /** What holds of a held host, as far as its thread stands. */
  predicate HeldOk(s: Shared, k: Key, t: Thread)
    requires k in s.held
  {
    var host := s.held[k];
    && host < |s.hosts| && s.hosts[host].env == k.env
    && (if StoppingAll(t) && host !in Doomed(t) then s.hosts[host].cb == NULL_REF
        else OwnedBy(s, host, k) && ((t.DeleteRef? && t.host == host) || s.hosts[host].cb in s.live))
    && ((t.DeleteHeld? && t.host == host) || StoppingAll(t) || host in s.registered)
  }

  /** A registered host is held, or about to be, or was abandoned. */
  predicate Accounted(s: Shared, host: nat, t: Thread)
    requires host < |s.hosts|
  {
    || host in s.abandoned
    || (HeldFor(s, s.hosts[host].cb) && s.held[s.refs[s.hosts[host].cb]] == host)
    || (t.AddHeld? && t.host == host)
  }

  /** A host that a stop-all dropped against the service's will stays registered, with its reference
      deleted or about to be. */
  predicate AbandonedOk(s: Shared, host: nat, t: Thread)
    requires host < |s.hosts|
  {
    host in s.registered && (s.hosts[host].cb == NULL_REF || ((t.EraseLive? || t.DeleteRef?) && t.host == host))
  }

  predicate Fresh(s: Shared, env: Env, handler: Handler, cb: Ref) {
    && Key(env, handler) !in s.held && cb in s.refs && s.refs[cb] == Key(env, handler) && cb !in s.live
    && forall h :: 0 <= h < |s.hosts| && s.hosts[h].env == env ==> s.hosts[h].cb != cb
  }

  predicate Finishing(s: Shared, env: Env, host: nat, after: Option<set<nat>>) {
    && host < |s.hosts| && s.hosts[host].env == env && s.hosts[host].cb in s.refs && s.refs[s.hosts[host].cb].env == env
    && (if after.None? then s.refs[s.hosts[host].cb] !in s.held
        else host !in after.value &&
              host in HostsOf(s, env) && after.value <= HostsOf(s, env) && after.value <= s.registered)
    && (host in s.registered ==> host in s.abandoned)
  }

  predicate ThreadOk(s: Shared, env: Env, t: Thread) {
    match t
    case Idle => true
    case CreateReference(handler) => Key(env, handler) !in s.held
    case NewHost(handler, cb) => Fresh(s, env, handler, cb)
    case SetHandler(handler, host, cb) =>
      && Fresh(s, env, handler, cb)
      && host < |s.hosts| && s.hosts[host] == Host(env, NULL_REF) && host !in s.registered && host !in HostsOf(s, env)
    case PushLive(handler, host, cb) =>
      && Key(env, handler) !in s.held && OwnedBy(s, host, Key(env, handler)) && s.hosts[host].cb == cb && cb !in s.live
      && host !in s.registered
    case AskStart(handler, host) =>
      && Key(env, handler) !in s.held && OwnedBy(s, host, Key(env, handler)) && s.hosts[host].cb in s.live
      && host !in s.registered
    case AddHeld(handler, host) =>
      && Key(env, handler) !in s.held && OwnedBy(s, host, Key(env, handler)) && s.hosts[host].cb in s.live
      && host in s.registered
    case AskStop(handler, host) =>
      Key(env, handler) in s.held && s.held[Key(env, handler)] == host
    case DeleteHeld(handler, host) =>
      Key(env, handler) in s.held && s.held[Key(env, handler)] == host && host !in s.registered
    case EraseLive(host, after) => Finishing(s, env, host, after) && s.hosts[host].cb in s.live
    case DeleteRef(host, after) => Finishing(s, env, host, after) && s.hosts[host].cb !in s.live
    case StopEach(left) => left <= HostsOf(s, env) && left <= s.registered
    case DeleteEnv => true
  }

  /** The callback objects of an environment hold undeleted references of theirs, each its own. */
  ghost predicate HostsOk(s: Shared, env: Env) {
    && (forall h :: 0 <= h < |s.hosts| && s.hosts[h].env == env && s.hosts[h].cb != NULL_REF ==>
      s.hosts[h].cb in s.refs && s.refs[s.hosts[h].cb].env == env)
    && (forall h, g :: 0 <= h < g < |s.hosts| && s.hosts[h].env == env && s.hosts[g].env == env ==>
      s.hosts[h].cb == NULL_REF || s.hosts[h].cb != s.hosts[g].cb)
  }

  /** What concerns one script environment, whose thread stands at `t`. */
  ghost predicate EnvInv(s: Shared, env: Env, t: Thread) {
    && (forall cb :: cb in s.refs && s.refs[cb].env == env ==> RefOk(s, cb, t))
    && HostsOk(s, env)
    && (forall k :: k in s.held && k.env == env ==> HeldOk(s, k, t))
    && (forall h :: h in s.registered && h < |s.hosts| && s.hosts[h].env == env ==> Accounted(s, h, t))
    && (forall h :: h in s.abandoned && h < |s.hosts| && s.hosts[h].env == env ==> AbandonedOk(s, h, t))
    && ThreadOk(s, env, t)
  }

  ghost predicate RefsInv(s: Shared) {
    NULL_REF < s.nextRef && NULL_REF !in s.refs && forall cb :: cb in s.refs ==> cb < s.nextRef
  }

  ghost predicate LiveInv(s: Shared) {
    && (forall cb :: multiset(s.live)[cb] <= 1)
    && (forall cb :: cb in s.live ==> cb in s.refs)
  }

  ghost predicate RegisteredInv(s: Shared) {
    && (forall h :: h in s.registered ==> h < |s.hosts|)
    && (forall h :: h in s.abandoned ==> h < |s.hosts|)
  }

  ghost predicate SharedInv(s: Shared) {
    RefsInv(s) && LiveInv(s) && RegisteredInv(s)
  }

  ghost predicate QueueInv(s: Shared, queue: seq<Work>) {
    forall work :: work in queue ==>
      NULL_REF < work.cb < s.nextRef && (work.cb in s.refs ==> s.refs[work.cb].env == work.env)
  }

  ghost predicate Inv(w: World) {
    && !w.crashed
    && SharedInv(w.shared)
    && (forall env :: EnvInv(w.shared, env, ThreadOf(w, env)))
    && QueueInv(w.shared, w.queue)
  }

  // ---------- one environment at a time ----------

  ghost predicate SameRefs(s: Shared, s': Shared, env: Env) {
    && (forall cb :: cb in s.refs && s.refs[cb].env != env ==>
      cb in s'.refs && s'.refs[cb] == s.refs[cb] && (cb in s.live <==> cb in s'.live))
    && (forall cb :: cb in s'.refs && s'.refs[cb].env != env ==> cb in s.refs && s'.refs[cb] == s.refs[cb])
  }

  ghost predicate SameHosts(s: Shared, s': Shared, env: Env) {
    && |s.hosts| <= |s'.hosts|
    && (forall h :: 0 <= h < |s.hosts| && s.hosts[h].env != env ==> s'.hosts[h] == s.hosts[h])
    && (forall h :: 0 <= h < |s'.hosts| && s'.hosts[h].env != env ==> h < |s.hosts| && s'.hosts[h] == s.hosts[h])
  }

  ghost predicate SameHeld(s: Shared, s': Shared, env: Env) {
    && (forall k :: k in s.held && k.env != env ==> k in s'.held && s'.held[k] == s.held[k])
    && (forall k :: k in s'.held && k.env != env ==> k in s.held)
  }

  ghost predicate SameRegistered(s: Shared, s': Shared, env: Env) {
    forall h :: 0 <= h < |s.hosts| && s.hosts[h].env != env ==>
      (h in s.registered <==> h in s'.registered) && (h in s.abandoned <==> h in s'.abandoned)
  }

  /** A step of one script thread leaves everything of the others as it was. */
  ghost predicate SameElsewhere(s: Shared, s': Shared, env: Env) {
    SameRefs(s, s', env) && SameHosts(s, s', env) && SameHeld(s, s', env) && SameRegistered(s, s', env)
  }

  lemma OthersKeepTheirInvariant(s: Shared, s': Shared, env: Env, other: Env, t: Thread)
    requires SharedInv(s) && SameElsewhere(s, s', env) && other != env && EnvInv(s, other, t)
    ensures EnvInv(s', other, t)
  {
    hide RefOk, HeldOk, Accounted, AbandonedOk, ThreadOk, HostsOk, RefsInv, LiveInv, RegisteredInv;
    HostsOkElsewhere(s, s', env, other);
    forall cb | cb in s'.refs && s'.refs[cb].env == other
      ensures RefOk(s', cb, t)
    {
      RefStaysOk(s, s', env, cb, t);
    }
    forall h | h in s'.registered && h < |s'.hosts| && s'.hosts[h].env == other
      ensures Accounted(s', h, t)
    {
      HostStaysAccounted(s, s', env, h, t);
    }
    forall h | h in s'.abandoned && h < |s'.hosts| && s'.hosts[h].env == other
      ensures AbandonedOk(s', h, t)
    {
      assert AbandonedOk(s, h, t);
      HostStaysAbandoned(s, s', env, h, t);
    }
    forall k | k in s'.held && k.env == other
      ensures HeldOk(s', k, t)
    {
      HeldStaysOk(s, s', env, k, t);
    }
    ThreadStaysOk(s, s', env, other, t);
  }

  lemma HostsOkElsewhere(s: Shared, s': Shared, env: Env, other: Env)
    requires SameElsewhere(s, s', env) && other != env && HostsOk(s, other)
    ensures HostsOk(s', other)
  {
  }

  lemma HostStaysAbandoned(s: Shared, s': Shared, env: Env, host: nat, t: Thread)
    requires SameElsewhere(s, s', env) && host < |s.hosts| && s.hosts[host].env != env && AbandonedOk(s, host, t)
    ensures AbandonedOk(s', host, t)
  {
  }

  lemma RefStaysOk(s: Shared, s': Shared, env: Env, cb: Ref, t: Thread)
    requires SharedInv(s) && SameElsewhere(s, s', env) && cb in s.refs && s.refs[cb].env != env
    requires EnvInv(s, s.refs[cb].env, t)
    ensures RefOk(s', cb, t)
  {
    assert RefOk(s, cb, t);
    if HeldFor(s, cb) {
      assert HeldOk(s, s.refs[cb], t);
    }
  }

  lemma HostStaysAccounted(s: Shared, s': Shared, env: Env, host: nat, t: Thread)
    requires SharedInv(s) && SameElsewhere(s, s', env) && host < |s.hosts| && s.hosts[host].env != env
    requires host in s.registered && EnvInv(s, s.hosts[host].env, t)
    ensures Accounted(s', host, t)
  {
    assert Accounted(s, host, t);
  }

  lemma HeldStaysOk(s: Shared, s': Shared, env: Env, k: Key, t: Thread)
    requires SharedInv(s) && SameElsewhere(s, s', env) && k in s.held && k in s'.held && k.env != env
    requires HeldOk(s, k, t)
    ensures HeldOk(s', k, t)
  {
  }

  lemma ThreadStaysOk(s: Shared, s': Shared, env: Env, other: Env, t: Thread)
    requires SharedInv(s) && SameElsewhere(s, s', env) && other != env && EnvInv(s, other, t)
    ensures ThreadOk(s', other, t)
  {
    hide RefOk, Accounted;
    assert HostsOf(s', other) == HostsOf(s, other) by {
      assert forall k :: k in s.held && k.env == other <==> k in s'.held && k.env == other;
    }
    forall h | h in HostsOf(s, other)
      ensures h < |s.hosts| && s.hosts[h].env == other
    {
      var k :| k in s.held && k.env == other && s.held[k] == h;
      assert HeldOk(s, k, t);
    }
  }

  // ---------- statement by statement ----------

  ghost predicate EnvAfter(effect: Effect, env: Env) {
    EnvInv(effect.shared, env, effect.next)
  }

  lemma HostsStayOk(s: Shared, s': Shared, env: Env)
    requires HostsOk(s, env) && s'.hosts == s.hosts &&
      forall cb :: cb in s.refs ==> cb in s'.refs && s'.refs[cb] == s.refs[cb]
    ensures HostsOk(s', env)
  {
  }

  lemma NobodyHas(s: Shared, env: Env, cb: Ref)
    requires HostsOk(s, env) && cb !in s.refs && cb != NULL_REF
    ensures forall h :: 0 <= h < |s.hosts| && s.hosts[h].env == env ==> s.hosts[h].cb != cb
  {
  }

  lemma NewHostIsOk(s: Shared, env: Env)
    requires HostsOk(s, env)
    ensures HostsOk(s.(hosts := s.hosts + [Host(env, NULL_REF)]), env)
  {
  }

  lemma ClearedHostIsOk(s: Shared, env: Env, host: nat)
    requires HostsOk(s, env) && host < |s.hosts| && s.hosts[host].env == env && s.hosts[host].cb != NULL_REF
    ensures
      HostsOk(s.(refs := s.refs - {s.hosts[host].cb}, hosts := s.hosts[host := Host(s.hosts[host].env, NULL_REF)]), env)
  {
  }

  lemma RefsStayOk(s: Shared, env: Env, t: Thread, reply: int, pick: nat)
    requires RefsInv(s)
    ensures RefsInv(Statement(s, env, t, reply, pick).shared)
  {
    hide Without, HostsOf, LiveInv, RegisteredInv, ErasedEnv, Continue;
  }

  lemma PushedOnce(live: seq<Ref>, cb: Ref)
    requires cb !in live && forall x :: multiset(live)[x] <= 1
    ensures forall x :: multiset(live + [cb])[x] <= 1
  {
    assert cb !in multiset(live);
    assert forall x :: multiset(live + [cb])[x] == multiset(live)[x] + multiset{cb}[x];
  }

  lemma LiveStaysOk(s: Shared, env: Env, t: Thread, reply: int, pick: nat)
    requires LiveInv(s) && ThreadOk(s, env, t)
    ensures LiveInv(Statement(s, env, t, reply, pick).shared)
  {
    hide Without, HeldFor, HostsOf, RefsInv, RegisteredInv, ErasedEnv, Continue;
    if t.PushLive? {
      PushedOnce(s.live, t.cb);
    } else if t.EraseLive? && t.host < |s.hosts| {
      WithoutDropsOnlyIt(s.live, s.hosts[t.host].cb);
    }
  }

  lemma RegisteredStaysOk(s: Shared, env: Env, t: Thread, reply: int, pick: nat)
    requires RegisteredInv(s) && ThreadOk(s, env, t)
    ensures RegisteredInv(Statement(s, env, t, reply, pick).shared)
  {
    hide Without, HeldFor, HostsOf, RefsInv, LiveInv;
  }

  lemma RefsElsewhere(s: Shared, env: Env, t: Thread, reply: int, pick: nat)
    requires RefsInv(s) && LiveInv(s) && ThreadOk(s, env, t)
    ensures SameRefs(s, Statement(s, env, t, reply, pick).shared, env)
  {
    hide Without, HeldFor, HostsOf, RegisteredInv;
    if t.EraseLive? && t.host < |s.hosts| {
      WithoutDropsOnlyIt(s.live, s.hosts[t.host].cb);
    }
  }

  lemma HostsElsewhere(s: Shared, env: Env, t: Thread, reply: int, pick: nat)
    requires ThreadOk(s, env, t)
    ensures SameHosts(s, Statement(s, env, t, reply, pick).shared, env)
  {
    hide Without, HeldFor, HostsOf, RefsInv, LiveInv, RegisteredInv;
  }

  lemma HeldElsewhere(s: Shared, env: Env, t: Thread, reply: int, pick: nat)
    ensures SameHeld(s, Statement(s, env, t, reply, pick).shared, env)
  {
    hide Without, HeldFor, HostsOf, RefsInv, LiveInv, RegisteredInv;
  }

  lemma RegisteredElsewhere(s: Shared, env: Env, t: Thread, reply: int, pick: nat)
    requires EnvInv(s, env, t)
    ensures SameRegistered(s, Statement(s, env, t, reply, pick).shared, env)
  {
    hide Without, HeldFor, HostsOk, RefOk, Accounted, AbandonedOk, RefsInv, LiveInv, RegisteredInv;
  }

  lemma CreateReferenceKeeps(s: Shared, env: Env, t: Thread, reply: int, pick: nat)
    requires SharedInv(s) && EnvInv(s, env, t) && t.CreateReference?
    ensures EnvAfter(Statement(s, env, t, reply, pick), env)
  {
    hide HostsOk;
    if reply == ERRCODE_SUCCESS {
      NobodyHas(s, env, s.nextRef);
    }
    HostsStayOk(s, Statement(s, env, t, reply, pick).shared, env);
  }

  lemma NewHostKeeps(s: Shared, env: Env, t: Thread, reply: int, pick: nat)
    requires SharedInv(s) && EnvInv(s, env, t) && t.NewHost?
    ensures EnvAfter(Statement(s, env, t, reply, pick), env)
  {
    hide HostsOk;
    var grown := s.(hosts := s.hosts + [Host(env, NULL_REF)]);
    NewHostIsOk(s, env);
    HostsStayOk(grown, Statement(s, env, t, reply, pick).shared, env);
  }

  lemma SetHandlerKeeps(s: Shared, env: Env, t: Thread, reply: int, pick: nat)
    requires SharedInv(s) && EnvInv(s, env, t) && t.SetHandler?
    ensures EnvAfter(Statement(s, env, t, reply, pick), env)
  {
  }

  lemma PushLiveKeeps(s: Shared, env: Env, t: Thread, reply: int, pick: nat)
    requires SharedInv(s) && EnvInv(s, env, t) && t.PushLive?
    ensures EnvAfter(Statement(s, env, t, reply, pick), env)
  {
    hide HostsOk;
    HostsStayOk(s, Statement(s, env, t, reply, pick).shared, env);
  }

  lemma AskStartKeeps(s: Shared, env: Env, t: Thread, reply: int, pick: nat)
    requires SharedInv(s) && EnvInv(s, env, t) && t.AskStart?
    ensures EnvAfter(Statement(s, env, t, reply, pick), env)
  {
    hide HostsOk;
    HostsStayOk(s, Statement(s, env, t, reply, pick).shared, env);
  }

  lemma AddHeldKeeps(s: Shared, env: Env, t: Thread, reply: int, pick: nat)
    requires SharedInv(s) && EnvInv(s, env, t) && t.AddHeld?
    ensures EnvAfter(Statement(s, env, t, reply, pick), env)
  {
    hide HostsOk;
    HostsStayOk(s, Statement(s, env, t, reply, pick).shared, env);
  }

  lemma AskStopKeeps(s: Shared, env: Env, t: Thread, reply: int, pick: nat)
    requires SharedInv(s) && EnvInv(s, env, t) && t.AskStop?
    ensures EnvAfter(Statement(s, env, t, reply, pick), env)
  {
    hide HostsOk;
    HostsStayOk(s, Statement(s, env, t, reply, pick).shared, env);
  }

  lemma DeleteHeldKeeps(s: Shared, env: Env, t: Thread, reply: int, pick: nat)
    requires SharedInv(s) && EnvInv(s, env, t) && t.DeleteHeld?
    ensures EnvAfter(Statement(s, env, t, reply, pick), env)
  {
    hide HostsOk;
    HostsStayOk(s, Statement(s, env, t, reply, pick).shared, env);
  }

  lemma EraseLiveKeeps(s: Shared, env: Env, t: Thread, reply: int, pick: nat)
    requires SharedInv(s) && EnvInv(s, env, t) && t.EraseLive?
    ensures EnvAfter(Statement(s, env, t, reply, pick), env)
  {
    hide HostsOk, Without;
    var host := t.host;
    WithoutDropsOnlyIt(s.live, s.hosts[host].cb);
    HostsStayOk(s, Statement(s, env, t, reply, pick).shared, env);
  }

  lemma DeleteRefKeeps(s: Shared, env: Env, t: Thread, reply: int, pick: nat)
    requires SharedInv(s) && EnvInv(s, env, t) && t.DeleteRef?
    ensures EnvAfter(Statement(s, env, t, reply, pick), env)
  {
    hide HostsOk;
    var host := t.host;
    var cleared := s.(refs := s.refs - {s.hosts[host].cb}, hosts := s.hosts[host := Host(s.hosts[host].env, NULL_REF)]);
    ClearedHostIsOk(s, env, host);
    HostsStayOk(cleared, Statement(s, env, t, reply, pick).shared, env);
  }

  lemma PickKeeps(s: Shared, env: Env, t: Thread, reply: int, pick: nat)
    requires SharedInv(s) && EnvInv(s, env, t) && t.StopEach? && pick in t.left
    ensures EnvAfter(Statement(s, env, t, reply, pick), env)
  {
    hide HostsOk, Accounted, Without, ErasedEnv, Fresh, Continue;
    var Effect(s', t') := Statement(s, env, t, reply, pick);
    HostsStayOk(s, s', env);
    var key :| key in s.held && key.env == env && s.held[key] == pick;
    assert HeldOk(s, key, t);
    forall k | k in s'.held && k.env == env
      ensures HeldOk(s', k, t')
    {
      assert HeldOk(s, k, t);
    }
    forall h | h in s'.registered && h < |s'.hosts| && s'.hosts[h].env == env
      ensures Accounted(s', h, t')
    {
      PickedIsAccounted(s, env, t, reply, pick, h);
    }
    assert HostsOf(s', env) == HostsOf(s, env);
  }

  lemma PickedIsAccounted(s: Shared, env: Env, t: Thread, reply: int, pick: nat, h: nat)
    requires t.StopEach? && pick in t.left
    requires h < |s.hosts| && (h in s.registered ==> Accounted(s, h, t))
    ensures
      var Effect(s', t') := Statement(s, env, t, reply, pick);
      h in s'.registered ==> h < |s'.hosts| && Accounted(s', h, t')
  {
  }

  lemma StopEachKeeps(s: Shared, env: Env, t: Thread, reply: int, pick: nat)
    requires SharedInv(s) && EnvInv(s, env, t) && t.StopEach?
    ensures EnvAfter(Statement(s, env, t, reply, pick), env)
  {
    hide HostsOk;
    HostsStayOk(s, Statement(s, env, t, reply, pick).shared, env);
    var left := t.left;
    if left == {} {
    } else if pick in left {
      PickKeeps(s, env, t, reply, pick);
    }
  }

  lemma DeleteEnvKeeps(s: Shared, env: Env, t: Thread, reply: int, pick: nat)
    requires SharedInv(s) && EnvInv(s, env, t) && t.DeleteEnv?
    ensures EnvAfter(Statement(s, env, t, reply, pick), env)
  {
    hide HostsOk;
    HostsStayOk(s, Statement(s, env, t, reply, pick).shared, env);
  }

  lemma CallKeeps(s: Shared, step: Step)
    requires step.CallStart? || step.CallStop? || step.CallStopAll?
    requires SharedInv(s) && EnvInv(s, step.env, Idle)
    ensures EnvInv(s, step.env, CalledAt(s, step))
  {
    hide HostsOk;
  }

  lemma IdleKeeps(s: Shared, env: Env, t: Thread, reply: int, pick: nat)
    requires SharedInv(s) && EnvInv(s, env, t) && t.Idle?
    ensures EnvAfter(Statement(s, env, t, reply, pick), env)
  {
    hide EnvInv;
  }

  lemma ThreadPart(s: Shared, env: Env, t: Thread)
    requires EnvInv(s, env, t)
    ensures ThreadOk(s, env, t)
  {
  }

  lemma StatementKeeps(s: Shared, env: Env, t: Thread, reply: int, pick: nat)
    requires SharedInv(s) && EnvInv(s, env, t)
    ensures
      var effect := Statement(s, env, t, reply, pick);
      SharedInv(effect.shared) && EnvAfter(effect, env) && SameElsewhere(s, effect.shared, env)
  {
    hide RefsInv, LiveInv, RegisteredInv, EnvInv, EnvAfter, SameRefs, SameHosts, SameHeld, SameRegistered, Statement,
      ThreadOk;
    ThreadPart(s, env, t);
    RefsStayOk(s, env, t, reply, pick);
    LiveStaysOk(s, env, t, reply, pick);
    RegisteredStaysOk(s, env, t, reply, pick);
    RefsElsewhere(s, env, t, reply, pick);
    HostsElsewhere(s, env, t, reply, pick);
    HeldElsewhere(s, env, t, reply, pick);
    RegisteredElsewhere(s, env, t, reply, pick);
    match t
    case Idle => IdleKeeps(s, env, t, reply, pick);
    case CreateReference(_) => CreateReferenceKeeps(s, env, t, reply, pick);
    case NewHost(_, _) => NewHostKeeps(s, env, t, reply, pick);
    case SetHandler(_, _, _) => SetHandlerKeeps(s, env, t, reply, pick);
    case PushLive(_, _, _) => PushLiveKeeps(s, env, t, reply, pick);
    case AskStart(_, _) => AskStartKeeps(s, env, t, reply, pick);
    case AddHeld(_, _) => AddHeldKeeps(s, env, t, reply, pick);
    case AskStop(_, _) => AskStopKeeps(s, env, t, reply, pick);
    case DeleteHeld(_, _) => DeleteHeldKeeps(s, env, t, reply, pick);
    case EraseLive(_, _) => EraseLiveKeeps(s, env, t, reply, pick);
    case DeleteRef(_, _) => DeleteRefKeeps(s, env, t, reply, pick);
    case StopEach(_) => StopEachKeeps(s, env, t, reply, pick);
    case DeleteEnv => DeleteEnvKeeps(s, env, t, reply, pick);
  }

  /** Only a new reference appears; the others keep their owners. */
  lemma ReferencesKeepTheirOwners(s: Shared, env: Env, t: Thread, reply: int, pick: nat)
    ensures
      var s' := Statement(s, env, t, reply, pick).shared;
      && s.nextRef <= s'.nextRef
      && (forall cb :: cb in s'.refs && cb != s.nextRef ==> cb in s.refs && s'.refs[cb] == s.refs[cb])
  {
    hide Without;
  }

  // ---------- whole runs ----------

  lemma AdvanceKeepsInv(w: World, env: Env, reply: int, pick: nat)
    requires Inv(w)
    ensures Inv(Apply(w, Advance(env, reply, pick)))
  {
    hide SharedInv, EnvInv, Statement, SameElsewhere;
    var t := ThreadOf(w, env);
    var Effect(s', t') := Statement(w.shared, env, t, reply, pick);
    assert EnvInv(w.shared, env, t);
    StatementKeeps(w.shared, env, t, reply, pick);
    ReferencesKeepTheirOwners(w.shared, env, t, reply, pick);
    forall other
      ensures EnvInv(s', other, ThreadOf(Apply(w, Advance(env, reply, pick)), other))
    {
      assert EnvInv(w.shared, other, ThreadOf(w, other));
      if other != env {
        OthersKeepTheirInvariant(w.shared, s', env, other, ThreadOf(w, other));
      }
    }
  }

  lemma CallKeepsInv(w: World, step: Step)
    requires Inv(w) && (step.CallStart? || step.CallStop? || step.CallStopAll?)
    ensures Inv(Apply(w, step))
  {
    hide SharedInv, EnvInv, CalledAt;
    if ThreadOf(w, step.env) == Idle {
      assert EnvInv(w.shared, step.env, ThreadOf(w, step.env));
      CallKeeps(w.shared, step);
      forall other
        ensures EnvInv(w.shared, other, ThreadOf(Apply(w, step), other))
      {
        assert EnvInv(w.shared, other, ThreadOf(w, other));
      }
    }
  }

  lemma LiveIsUndeleted(s: Shared, cb: Ref)
    requires SharedInv(s) && cb in s.live
    ensures cb in s.refs
  {
  }

  lemma HostReference(s: Shared, host: nat, t: Thread)
    requires SharedInv(s) && host < |s.hosts| && EnvInv(s, s.hosts[host].env, t)
    ensures s.hosts[host].cb != NULL_REF ==>
      && s.hosts[host].cb in s.refs && s.hosts[host].cb < s.nextRef
      && s.refs[s.hosts[host].cb].env == s.hosts[host].env
  {
    hide RefOk, Accounted, AbandonedOk, ThreadOk, HeldOk;
  }

  lemma ReportKeepsInv(w: World, host: nat)
    requires Inv(w)
    ensures Inv(QueueResult(w, host))
  {
    hide EnvInv, SharedInv;
    if host < |w.shared.hosts| {
      var env := w.shared.hosts[host].env;
      assert EnvInv(w.shared, env, ThreadOf(w, env));
      HostReference(w.shared, host, ThreadOf(w, env));
    }
    assert forall env :: ThreadOf(QueueResult(w, host), env) == ThreadOf(w, env);
  }

  lemma DeliveryKeepsInv(w: World, env: Env, index: nat)
    requires Inv(w)
    ensures Inv(DeliverWork(w, env, index))
  {
    hide EnvInv, SharedInv;
    if index < |w.queue| && w.queue[index].cb in w.shared.live {
      LiveIsUndeleted(w.shared, w.queue[index].cb);
    }
    assert forall e :: ThreadOf(DeliverWork(w, env, index), e) == ThreadOf(w, e);
  }

  lemma StepKeepsInv(w: World, step: Step)
    requires Inv(w)
    ensures Inv(Apply(w, step))
  {
    hide EnvInv, SharedInv, Statement, CalledAt;
    match step
    case Advance(env, reply, pick) => AdvanceKeepsInv(w, env, reply, pick);
    case Report(host) => ReportKeepsInv(w, host);
    case Deliver(env, index) => DeliveryKeepsInv(w, env, index);
    case _ => CallKeepsInv(w, step);
  }

  lemma {:induction false} RunKeepsInv(w: World, steps: seq<Step>)
    requires Inv(w)
    ensures Inv(RunAll(w, steps))
    decreases |steps|
  {
    if steps == [] {
    } else {
      StepKeepsInv(w, steps[0]);
      RunKeepsInv(Apply(w, steps[0]), steps[1..]);
    }
  }

  // ---------- between calls ----------

  ghost predicate Quiet(w: World) {
    forall env :: ThreadOf(w, env) == Idle
  }

  /** The references that the callback manager holds. */
  function HeldRefs(s: Shared): set<Ref> {
    set k | k in s.held && s.held[k] < |s.hosts| :: s.hosts[s.held[k]].cb
  }

  function HeldHosts(s: Shared): set<nat> {
    set k | k in s.held :: s.held[k]
  }

  lemma UndeletedIsHeld(s: Shared, cb: Ref)
    requires SharedInv(s) && cb in s.refs && EnvInv(s, s.refs[cb].env, Idle)
    ensures cb in s.live && HeldFor(s, cb)
  {
    hide HostsOk;
    assert RefOk(s, cb, Idle);
  }

  lemma HeldIsWhole(s: Shared, k: Key)
    requires SharedInv(s) && k in s.held && EnvInv(s, k.env, Idle)
    ensures OwnedBy(s, s.held[k], k) && s.hosts[s.held[k]].cb in s.live && s.held[k] in s.registered
  {
    hide HostsOk;
    assert HeldOk(s, k, Idle);
  }

  lemma RegisteredIsHeldOrAbandoned(s: Shared, h: nat)
    requires SharedInv(s) && h < |s.hosts| && EnvInv(s, s.hosts[h].env, Idle)
    ensures h in s.registered ==> h in HeldHosts(s) + s.abandoned
    ensures h in s.abandoned ==> h in s.registered && s.hosts[h].cb == NULL_REF
  {
    hide HostsOk;
    assert h in s.registered ==> Accounted(s, h, Idle);
    assert h in s.abandoned ==> AbandonedOk(s, h, Idle);
  }

  lemma IdleParts(w: World, env: Env)
    requires Inv(w) && ThreadOf(w, env) == Idle
    ensures SharedInv(w.shared) && EnvInv(w.shared, env, Idle)
  {
    hide SharedInv, EnvInv;
    assert EnvInv(w.shared, env, ThreadOf(w, env));
  }

  lemma LiveIsHeld(w: World)
    requires Inv(w) && Quiet(w)
    ensures
      var s := w.shared;
      && (forall cb :: cb in s.refs ==> cb in s.live)
      && (forall cb :: cb in s.live ==> cb in s.refs && cb in HeldRefs(s))
      && (forall k :: k in s.held ==> OwnedBy(s, s.held[k], k) && s.hosts[s.held[k]].cb in s.live)
  {
    hide SharedInv, EnvInv;
    var s := w.shared;
    forall cb | cb in s.refs
      ensures cb in s.live && cb in HeldRefs(s)
    {
      IdleParts(w, s.refs[cb].env);
      UndeletedIsHeld(s, cb);
      assert s.refs[cb] in s.held;
    }
    forall cb | cb in s.live
      ensures cb in s.refs
    {
      LiveIsUndeleted(s, cb);
    }
    forall k | k in s.held
      ensures OwnedBy(s, s.held[k], k) && s.hosts[s.held[k]].cb in s.live
    {
      IdleParts(w, k.env);
      HeldIsWhole(s, k);
    }
  }

  lemma RegisteredIsKnown(w: World)
    requires Inv(w) && Quiet(w)
    ensures
      var s := w.shared;
      s.registered == HeldHosts(s) + s.abandoned && HeldHosts(s) !! s.abandoned
  {
    hide SharedInv, EnvInv, OwnedBy;
    var s := w.shared;
    forall h | h in s.registered + s.abandoned
      ensures h in HeldHosts(s) + s.abandoned
      ensures h in s.abandoned ==> h in s.registered && h < |s.hosts| && s.hosts[h].cb == NULL_REF
    {
      RegisteredAreHosts(s);
      assert h < |s.hosts|;
      IdleParts(w, s.hosts[h].env);
      RegisteredIsHeldOrAbandoned(s, h);
    }
    forall h | h in HeldHosts(s)
      ensures h in s.registered && h !in s.abandoned
    {
      var k :| k in s.held && s.held[k] == h;
      IdleParts(w, k.env);
      HeldIsWhole(s, k);
      RegisteredAreHosts(s);
      OwnersHaveReferences(s, h, k);
    }
  }

  lemma RegisteredAreHosts(s: Shared)
    requires SharedInv(s)
    ensures forall h :: h in s.registered + s.abandoned ==> h < |s.hosts|
  {
  }

  lemma OwnersHaveReferences(s: Shared, h: nat, k: Key)
    requires SharedInv(s) && OwnedBy(s, h, k)
    ensures s.hosts[h].cb != NULL_REF
  {
  }

  /** Whatever the scripts, the service and the queues have done: when no call is under way, the live
      list is exactly the held references, each once; no other reference is undeleted; and the service
      has exactly the held hosts and those that it refused to let go in a stop-all. */
  lemma BetweenCalls(steps: seq<Step>)
    requires Quiet(RunAll(INITIAL, steps))
    ensures
      var s := RunAll(INITIAL, steps).shared;
      && multiset(s.live) == multiset(HeldRefs(s))
      && s.refs.Keys == HeldRefs(s)
      && (forall k :: k in s.held ==> OwnedBy(s, s.held[k], k))
      && s.registered == HeldHosts(s) + s.abandoned && HeldHosts(s) !! s.abandoned
  {
    hide SharedInv, EnvInv, Apply;
    var w := RunAll(INITIAL, steps);
    var s := w.shared;
    InitialInv();
    RunKeepsInv(INITIAL, steps);
    LiveIsHeld(w);
    RegisteredIsKnown(w);
    EachLiveOnce(s);
    forall cb
      ensures multiset(s.live)[cb] == multiset(HeldRefs(s))[cb]
      ensures cb in s.refs <==> cb in HeldRefs(s)
    {
      assert cb in s.live <==> cb in multiset(s.live);
    }
  }

  lemma EachLiveOnce(s: Shared)
    requires SharedInv(s)
    ensures forall cb :: multiset(s.live)[cb] <= 1
  {
  }

  lemma InitialInv()
    ensures Inv(INITIAL)
  {
  }

  // ---------- deliveries ----------

  /** A queued result reaches the script exactly when its reference is still held. */
  lemma DeliveredExactlyWhenHeld(w: World, env: Env, index: nat)
    requires Inv(w) && ThreadOf(w, env) == Idle && index < |w.queue| && w.queue[index].env == env
    ensures
      var cb, w' := w.queue[index].cb, DeliverWork(w, env, index);
      !w'.crashed && w'.called == if cb in HeldRefs(w.shared) then w.called + [cb] else w.called
  {
    hide SharedInv, EnvInv;
    var s, cb := w.shared, w.queue[index].cb;
    IdleParts(w, env);
    if cb in s.live {
      LiveIsUndeleted(s, cb);
      UndeletedIsHeld(s, cb);
      assert s.refs[cb] in s.held;
    }
    if cb in HeldRefs(s) {
      var k :| k in s.held && s.held[k] < |s.hosts| && s.hosts[s.held[k]].cb == cb;
      HeldReference(w, k);
    }
  }

  /** The reference of a held host is deleted, or belongs to the environment that holds it. */
  lemma HeldReference(w: World, k: Key)
    requires Inv(w) && k in w.shared.held
    ensures
      var s := w.shared;
      && s.held[k] < |s.hosts|
      && (s.hosts[s.held[k]].cb == NULL_REF ||
          (s.hosts[s.held[k]].cb in s.refs && s.refs[s.hosts[s.held[k]].cb].env == k.env))
      && (ThreadOf(w, k.env) == Idle ==> s.hosts[s.held[k]].cb in s.live)
  {
    assert EnvInv(w.shared, k.env, ThreadOf(w, k.env));
    assert HeldOk(w.shared, k, ThreadOf(w, k.env));
  }

  /** The service has let the host of `cb` go, or a stop-all is on its way to it, or it is gone. */
  ghost predicate Leaving(w: World, env: Env, cb: Ref) {
    && cb < w.shared.nextRef
    && (cb in w.shared.refs ==>
      w.shared.refs[cb].env == env && exists h :: h in Doomed(ThreadOf(w, env)) && Has(w.shared, h, cb))
  }

  lemma DoomedStaysDoomed(s: Shared, env: Env, t: Thread, reply: int, pick: nat, h: nat, cb: Ref)
    requires RefsInv(s) && cb in s.refs && h in Doomed(t) && Has(s, h, cb)
    ensures
      var effect := Statement(s, env, t, reply, pick);
      cb in effect.shared.refs ==>
        effect.shared.refs[cb] == s.refs[cb] && h in Doomed(effect.next) && Has(effect.shared, h, cb)
  {
  }

  lemma HasStaysElsewhere(s: Shared, s': Shared, env: Env, other: Env, h: nat, cb: Ref)
    requires SameElsewhere(s, s', env) && other != env && h < |s.hosts| && s.hosts[h].env == other && Has(s, h, cb)
    requires cb in s.refs && s.refs[cb].env == other
    ensures cb in s'.refs && s'.refs[cb].env == other && Has(s', h, cb)
  {
  }

  lemma LeavingStays(w: World, step: Step, env: Env, cb: Ref)
    requires Inv(w) && Leaving(w, env, cb)
    ensures Leaving(Apply(w, step), env, cb)
  {
    hide SharedInv, EnvInv, RefsInv, Statement, CalledAt, SameElsewhere, Doomed, Has;
    var s := w.shared;
    IdleIsNotDoomed();
    if step.Advance? {
      var e, t := step.env, ThreadOf(w, step.env);
      assert EnvInv(s, e, t);
      StatementKeeps(s, e, t, step.reply, step.pick);
      ReferencesKeepTheirOwners(s, e, t, step.reply, step.pick);
      if cb in s.refs {
        var h :| h in Doomed(ThreadOf(w, env)) && Has(s, h, cb);
        if e == env {
          ReferencesPart(s);
          DoomedStaysDoomed(s, e, t, step.reply, step.pick, h, cb);
        } else {
          HostBelongsTo(w, h, cb);
          HasStaysElsewhere(s, Apply(w, step).shared, e, env, h, cb);
        }
      }
    }
  }

  lemma IdleIsNotDoomed()
    ensures Doomed(Idle) == {}
  {
  }

  lemma ReferencesPart(s: Shared)
    requires SharedInv(s)
    ensures RefsInv(s)
  {
  }

  lemma HostBelongsTo(w: World, h: nat, cb: Ref)
    requires Inv(w) && cb in w.shared.refs && Has(w.shared, h, cb)
    ensures h < |w.shared.hosts| && w.shared.hosts[h].env == w.shared.refs[cb].env
  {
    hide HeldOk, RefOk, ThreadOk;
    assert EnvInv(w.shared, w.shared.hosts[h].env, ThreadOf(w, w.shared.hosts[h].env));
  }

  lemma LeavingIsNotCalled(w: World, step: Step, env: Env, cb: Ref)
    requires Inv(w) && Leaving(w, env, cb)
    ensures multiset(Apply(w, step).called)[cb] == multiset(w.called)[cb]
  {
    hide SharedInv, EnvInv, Statement, CalledAt, Doomed, Has;
    IdleIsNotDoomed();
    if step.Deliver? && step.index < |w.queue| {
      var work := w.queue[step.index];
      assert work in w.queue;
      if work.cb in w.shared.live {
        LiveIsUndeleted(w.shared, work.cb);
      }
    }
  }

  lemma {:induction false} StoppedIsNeverCalledAgain(w: World, steps: seq<Step>, env: Env, cb: Ref)
    requires Inv(w) && Leaving(w, env, cb)
    ensures
      var end := RunAll(w, steps);
      && multiset(end.called)[cb] == multiset(w.called)[cb]
      && (ThreadOf(end, env) == Idle ==> cb !in end.shared.refs && cb !in end.shared.live)
    decreases |steps|
  {
    hide SharedInv, EnvInv, Apply, Doomed, Has;
    if steps == [] {
      IdleIsNotDoomed();
      if cb in w.shared.live {
        LiveIsUndeleted(w.shared, cb);
      }
    } else {
      StepKeepsInv(w, steps[0]);
      LeavingStays(w, steps[0], env, cb);
      LeavingIsNotCalled(w, steps[0], env, cb);
      StoppedIsNeverCalledAgain(Apply(w, steps[0]), steps[1..], env, cb);
    }
  }

  lemma AcceptedStopLeaves(w: World, env: Env, pick: nat)
    requires Inv(w) && ThreadOf(w, env).AskStop?
    ensures
      var host := ThreadOf(w, env).host;
      host < |w.shared.hosts| && Leaving(Apply(w, Advance(env, ERRCODE_SUCCESS, pick)), env, w.shared.hosts[host].cb)
  {
    var s, t := w.shared, ThreadOf(w, env);
    assert EnvInv(s, env, t);
    assert HeldOk(s, Key(env, t.handler), t);
    var w' := Apply(w, Advance(env, ERRCODE_SUCCESS, pick));
    assert ThreadOf(w', env) == DeleteHeld(t.handler, t.host);
    assert t.host in Doomed(ThreadOf(w', env)) && Has(w'.shared, t.host, s.hosts[t.host].cb);
  }

  lemma StopAllLeaves(w: World, env: Env, handler: Handler)
    requires Inv(w) && ThreadOf(w, env) == Idle && Key(env, handler) in w.shared.held
    ensures
      var host := w.shared.held[Key(env, handler)];
      host < |w.shared.hosts| && Leaving(Apply(w, CallStopAll(env)), env, w.shared.hosts[host].cb)
  {
    var s, k := w.shared, Key(env, handler);
    assert EnvInv(s, env, Idle);
    assert HeldOk(s, k, Idle);
    var t' := ThreadOf(Apply(w, CallStopAll(env)), env);
    assert t' == StopEach(HostsOf(s, env)) && k.env == env;
    assert s.held[k] in HostsOf(s, env);
    assert s.held[k] in Doomed(t') && Has(s, s.held[k], s.hosts[s.held[k]].cb);
  }

  /** From the moment the service has accepted a stop, the handler of that search is never called again,
      whatever is queued already or reported later; and when the call ends, its reference is deleted. */
  lemma AcceptedStopIsFinal(before: seq<Step>, env: Env, pick: nat, later: seq<Step>)
    requires ThreadOf(RunAll(INITIAL, before), env).AskStop?
    ensures
      var w := RunAll(INITIAL, before);
      var host := ThreadOf(w, env).host;
      var end := RunAll(Apply(w, Advance(env, ERRCODE_SUCCESS, pick)), later);
      && host < |w.shared.hosts|
      && multiset(end.called)[w.shared.hosts[host].cb] == multiset(w.called)[w.shared.hosts[host].cb]
      && (ThreadOf(end, env) == Idle ==> w.shared.hosts[host].cb !in end.shared.live)
      && !end.crashed
  {
    hide SharedInv, EnvInv, Leaving, ThreadOf, Statement;
    var w := RunAll(INITIAL, before);
    InitialInv();
    RunKeepsInv(INITIAL, before);
    AcceptedStopLeaves(w, env, pick);
    var w' := Apply(w, Advance(env, ERRCODE_SUCCESS, pick));
    StepKeepsInv(w, Advance(env, ERRCODE_SUCCESS, pick));
    RunKeepsInv(w', later);
    StoppedIsNeverCalledAgain(w', later, env, w.shared.hosts[ThreadOf(w, env).host].cb);
  }

  /** A stop-all silences every search of its environment at once, even those whose stop the service refuses. */
  lemma StopAllIsFinal(before: seq<Step>, env: Env, handler: Handler, later: seq<Step>)
    requires
      var w := RunAll(INITIAL, before);
      ThreadOf(w, env) == Idle && Key(env, handler) in w.shared.held
    ensures
      var w := RunAll(INITIAL, before);
      var host := w.shared.held[Key(env, handler)];
      var end := RunAll(Apply(w, CallStopAll(env)), later);
      && host < |w.shared.hosts|
      && multiset(end.called)[w.shared.hosts[host].cb] == multiset(w.called)[w.shared.hosts[host].cb]
      && (ThreadOf(end, env) == Idle ==> w.shared.hosts[host].cb !in end.shared.live)
      && !end.crashed
  {
    hide SharedInv, EnvInv, Leaving, ThreadOf, CalledAt;
    var w := RunAll(INITIAL, before);
    InitialInv();
    RunKeepsInv(INITIAL, before);
    StopAllLeaves(w, env, handler);
    var w' := Apply(w, CallStopAll(env));
    StepKeepsInv(w, CallStopAll(env));
    RunKeepsInv(w', later);
    StoppedIsNeverCalledAgain(w', later, env, w.shared.hosts[w.shared.held[Key(env, handler)]].cb);
  }
}
