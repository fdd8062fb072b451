/**
 The registry of script callbacks: for every script environment a map from references to callback
 objects, searched by the handler function behind a reference.  `flat` is what it stands for, a
 partial map from an environment and a handler to the callback object.
 */
module CallbackManagers {
  import opened Wrappers

  type Env = nat
  type Handler = nat
  type Ref = nat

  /** Null pointers. */
  const NULL_HANDLER: Handler := 0
  const NULL_REF: Ref := 0

  /** The script engine, as far as references go: which handler a live reference leads to.  A new
      reference is one that was never handed out before. */
  class JsEngine {
    var refs: map<Ref, Handler>
    ghost var used: set<Ref>
    var counter: nat

    ghost predicate Valid()
      reads this
    {
      && (forall r :: r in used ==> r <= counter)
      && refs.Keys <= used
      && NULL_REF in used && NULL_REF !in refs
      && forall r :: r in refs ==> refs[r] != NULL_HANDLER
    }

    constructor ()
      ensures Valid() && refs == map[]
    {
      refs, used, counter := map[], {NULL_REF}, 0;
    }

    method CreateReference(handler: Handler) returns (r: Ref)
      requires Valid() && handler != NULL_HANDLER
      modifies this
      ensures Valid() && r !in old(used) && refs == old(refs)[r := handler] && used == old(used) + {r}
    {
      counter := counter + 1;
      r := counter;
      refs := refs[r := handler];
      used := used + {r};
    }

    method DeleteReference(r: Ref)
      requires Valid()
      modifies this`refs
      ensures Valid() && refs == old(refs) - {r}
    {
      refs := refs - {r};
    }

    /** A dead or null reference equals no handler. */
    predicate IsCallbackEquals(handler: Handler, saved: Ref)
      reads this
    {
      saved != NULL_REF && handler != NULL_HANDLER && saved in refs && refs[saved] == handler
    }
  }

  // ---------- the nested map and what it stands for ----------

  type Callbacks<T> = map<Env, map<Ref, T>>

  datatype Key = Key(env: Env, handler: Handler)

  type Flat<T> = map<Key, T>

  predicate Holds<T>(callbacks: Callbacks<T>, env: Env, r: Ref) {
    env in callbacks && r in callbacks[env]
  }

  ghost predicate Leads<T>(callbacks: Callbacks<T>, refs: map<Ref, Handler>, k: Key) {
    exists r :: Holds(callbacks, k.env, r) && r in refs && refs[r] == k.handler
  }

  /** No empty inner map, live references only, different handlers under one environment, and `flat`
      holds exactly what the inner maps hold. */
  ghost predicate Refines<T>(callbacks: Callbacks<T>, refs: map<Ref, Handler>, flat: Flat<T>) {
    && (forall env :: env in callbacks ==> callbacks[env] != map[])
    && (forall env, r :: Holds(callbacks, env, r) ==>
      r != NULL_REF && r in refs && Key(env, refs[r]) in flat && flat[Key(env, refs[r])] == callbacks[env][r])
    && (forall env, r, q :: Holds(callbacks, env, r) && Holds(callbacks, env, q) && r != q ==> refs[r] != refs[q])
    && (forall k :: k in flat ==> Leads(callbacks, refs, k))
  }

  function Inserted<T>(callbacks: Callbacks<T>, env: Env, r: Ref, callback: T): Callbacks<T> {
    var inner: map<Ref, T> := if env in callbacks then callbacks[env] else map[];
    callbacks[env := inner[r := callback]]
  }

  function Erased<T>(callbacks: Callbacks<T>, env: Env, r: Ref): Callbacks<T>
    requires env in callbacks
  {
    var inner := callbacks[env] - {r};
    if inner == map[] then callbacks - {env} else callbacks[env := inner]
  }

  function ErasedEnv<T>(flat: Flat<T>, env: Env): Flat<T> {
    map k | k in flat && k.env != env :: flat[k]
  }

  lemma InsertRefines<T>(callbacks: Callbacks<T>, refs: map<Ref, Handler>, flat: Flat<T>, env: Env, r: Ref, callback: T)
    requires Refines(callbacks, refs, flat) && r != NULL_REF && r in refs && Key(env, refs[r]) !in flat
    ensures Refines(Inserted(callbacks, env, r, callback), refs, flat[Key(env, refs[r]) := callback])
  {
    var after := Inserted(callbacks, env, r, callback);
    assert forall e, q :: Holds(after, e, q) <==> Holds(callbacks, e, q) || (e == env && q == r);
    assert !Holds(callbacks, env, r);
    forall k | k in flat
      ensures Leads(after, refs, k)
    {
      var q :| Holds(callbacks, k.env, q) && q in refs && refs[q] == k.handler;
      assert Holds(after, k.env, q);
    }
    assert Holds(after, env, r);
  }

  /** The reference is live and its handler not registered in the environment. */
  ghost predicate IsNew<T>(refs: map<Ref, Handler>, flat: Flat<T>, env: Env, r: Ref) {
    r != NULL_REF && r in refs && Key(env, refs[r]) !in flat
  }

  /** A second reference to a registered handler, or a dead one, spoils the map. */
  lemma InsertOfKnownBreaks<T>(
      callbacks: Callbacks<T>, refs: map<Ref, Handler>, flat: Flat<T>, env: Env, r: Ref, callback: T)
    requires Refines(callbacks, refs, flat) && !IsNew(refs, flat, env, r) && !Holds(callbacks, env, r)
    ensures !Refines(Inserted(callbacks, env, r, callback), refs, flat)
  {
    var after := Inserted(callbacks, env, r, callback);
    assert Holds(after, env, r);
    if r != NULL_REF && r in refs {
      assert Leads(callbacks, refs, Key(env, refs[r]));
      var q :| Holds(callbacks, env, q) && q in refs && refs[q] == refs[r];
      assert Holds(after, env, q) && q != r;
    }
  }

  lemma NewHandlerIsNotHeld<T>(callbacks: Callbacks<T>, refs: map<Ref, Handler>, flat: Flat<T>, env: Env, r: Ref)
    requires Refines(callbacks, refs, flat) && r in refs && Key(env, refs[r]) !in flat
    ensures !(env in callbacks && r in callbacks[env])
  {
    assert !Holds(callbacks, env, r);
  }

  lemma EraseRefines<T>(callbacks: Callbacks<T>, refs: map<Ref, Handler>, flat: Flat<T>, env: Env, r: Ref)
    requires Refines(callbacks, refs, flat) && Holds(callbacks, env, r)
    ensures Refines(Erased(callbacks, env, r), refs, flat - {Key(env, refs[r])})
  {
    var after := Erased(callbacks, env, r);
    assert forall e, q :: Holds(after, e, q) <==> Holds(callbacks, e, q) && !(e == env && q == r) by {
      forall q | Holds(callbacks, env, q) && q != r
        ensures Holds(after, env, q)
      {
        assert q in callbacks[env] - {r};
      }
    }
    forall k | k in flat - {Key(env, refs[r])}
      ensures Leads(after, refs, k)
    {
      var q :| Holds(callbacks, k.env, q) && q in refs && refs[q] == k.handler;
      assert Holds(after, k.env, q);
    }
  }

  lemma EraseEnvRefines<T>(callbacks: Callbacks<T>, refs: map<Ref, Handler>, flat: Flat<T>, env: Env)
    requires Refines(callbacks, refs, flat)
    ensures Refines(callbacks - {env}, refs, ErasedEnv(flat, env))
  {
    var after := callbacks - {env};
    assert forall e, q :: Holds(after, e, q) <==> Holds(callbacks, e, q) && e != env;
    forall k | k in ErasedEnv(flat, env)
      ensures Leads(after, refs, k)
    {
      var q :| Holds(callbacks, k.env, q) && q in refs && refs[q] == k.handler;
      assert Holds(after, k.env, q);
    }
  }

  lemma NothingToErase<T>(callbacks: Callbacks<T>, env: Env)
    requires env !in callbacks
    ensures callbacks - {env} == callbacks
  {
  }

  /** The nested map determines the flat one. */
  lemma OneFlatMap<T>(callbacks: Callbacks<T>, refs: map<Ref, Handler>, a: Flat<T>, b: Flat<T>)
    requires Refines(callbacks, refs, a) && Refines(callbacks, refs, b)
    ensures a == b
  {
    forall k
      ensures k in a <==> k in b
      ensures k in a ==> a[k] == b[k]
    {
      if k in a || k in b {
        var r :| Holds(callbacks, k.env, r) && r in refs && refs[r] == k.handler;
        assert Key(k.env, refs[r]) == k;
      }
    }
  }

  /** References that no inner map holds may come and go. */
  lemma OtherReferencesDoNotMatter<T>(
      callbacks: Callbacks<T>, refs: map<Ref, Handler>, refs': map<Ref, Handler>, flat: Flat<T>)
    requires Refines(callbacks, refs, flat)
    requires forall env, r :: Holds(callbacks, env, r) ==> r in refs' && refs'[r] == refs[r]
    ensures Refines(callbacks, refs', flat)
  {
    forall k | k in flat
      ensures Leads(callbacks, refs', k)
    {
      var r :| Holds(callbacks, k.env, r) && r in refs && refs[r] == k.handler;
      assert Holds(callbacks, k.env, r) && refs'[r] == k.handler;
    }
  }

  class CallbackManager<T> {
    const engine: JsEngine
    var callbackMap: Callbacks<T>
    ghost var flat: Flat<T>

    ghost predicate Valid()
      reads this, engine
    {
      engine.Valid() && Refines(callbackMap, engine.refs, flat)
    }

    constructor (engine: JsEngine)
      requires engine.Valid()
      ensures Valid() && this.engine == engine && callbackMap == map[] && flat == map[]
    {
      this.engine, callbackMap, flat := engine, map[], map[];
    }

    /** The inner map is walked in some order; at most one of its references can match. */
    method FindReference(env: Env, handler: Handler) returns (found: Option<Ref>)
      requires Valid() && env in callbackMap
      ensures found.Some? ==>
        && found.value in callbackMap[env] && found.value in engine.refs && engine.refs[found.value] == handler
        && Key(env, handler) in flat && flat[Key(env, handler)] == callbackMap[env][found.value]
      ensures found.None? ==> Key(env, handler) !in flat
    {
      var left := callbackMap[env].Keys;
      while left != {}
        invariant left <= callbackMap[env].Keys
        invariant forall r :: Holds(callbackMap, env, r) ==> r in left || engine.refs[r] != handler
        decreases |left|
      {
        var r :| r in left;
        left := left - {r};
        assert Holds(callbackMap, env, r);
        if engine.IsCallbackEquals(handler, r) {
          return Some(r);
        }
      }
      return None;
    }

    method IsCallbackInMap(env: Env, handler: Handler) returns (b: bool)
      requires Valid()
      ensures b <==> Key(env, handler) in flat
    {
      if env !in callbackMap {
        return false;
      }
      var found := FindReference(env, handler);
      return found.Some?;
    }

    method GetCallbackPtr(env: Env, handler: Handler) returns (callback: Option<T>)
      requires Valid()
      ensures callback == if Key(env, handler) in flat then Some(flat[Key(env, handler)]) else None
    {
      if env !in callbackMap {
        return None;
      }
      var found := FindReference(env, handler);
      if found.Some? {
        return Some(callbackMap[env][found.value]);
      }
      return None;
    }

    /** Nothing is looked up first, so the map stands for a flat one afterwards exactly when the handler is
        new to the environment, or the reference is there already and nothing is inserted. */
    method AddCallback(env: Env, handlerRef: Ref, callback: T)
      requires Valid()
      modifies this
      ensures callbackMap ==
        if Holds(old(callbackMap), env, handlerRef) then old(callbackMap)
        else Inserted(old(callbackMap), env, handlerRef, callback)
      ensures
        var isNew := IsNew(engine.refs, old(flat), env, handlerRef);
        && (Valid() <==> isNew || Holds(old(callbackMap), env, handlerRef))
        && flat == if isNew then old(flat)[Key(env, engine.refs[handlerRef]) := callback] else old(flat)
    {
      hide Refines;
      if IsNew(engine.refs, flat, env, handlerRef) {
        NewHandlerIsNotHeld(callbackMap, engine.refs, flat, env, handlerRef);
        InsertRefines(callbackMap, engine.refs, flat, env, handlerRef, callback);
        flat := flat[Key(env, engine.refs[handlerRef]) := callback];
      } else if !Holds(callbackMap, env, handlerRef) {
        InsertOfKnownBreaks(callbackMap, engine.refs, flat, env, handlerRef, callback);
      }
      if env !in callbackMap {
        callbackMap := callbackMap[env := map[handlerRef := callback]];
      } else if handlerRef !in callbackMap[env] {
        var inner: map<Ref, T> := callbackMap[env];
        callbackMap := callbackMap[env := inner[handlerRef := callback]];
      }
    }

    method DeleteCallback(env: Env, handler: Handler)
      requires Valid()
      modifies this
      ensures Valid() && flat == old(flat) - {Key(env, handler)}
      ensures Key(env, handler) !in old(flat) ==> callbackMap == old(callbackMap)
      ensures Key(env, handler) in old(flat) ==> exists r ::
        && Holds(old(callbackMap), env, r) && engine.refs[r] == handler
        && callbackMap == Erased(old(callbackMap), env, r)
    {
      if env !in callbackMap {
        return;
      }
      var found := FindReference(env, handler);
      if found.Some? {
        EraseRefines(callbackMap, engine.refs, flat, env, found.value);
        flat := flat - {Key(env, handler)};
        var inner := callbackMap[env] - {found.value};
        if inner == map[] {
          callbackMap := callbackMap - {env};
        } else {
          callbackMap := callbackMap[env := inner];
        }
      }
    }

    /** Callers delete the references of the environment first, so the map need only have stood for the flat
        one with the references there were `before`. */
    method DeleteCallbackByEnv(env: Env, ghost before: map<Ref, Handler>)
      requires engine.Valid() && Refines(callbackMap, before, flat)
      requires forall e, r :: Holds(callbackMap, e, r) && e != env ==> r in engine.refs && engine.refs[r] == before[r]
      modifies this
      ensures Valid() && flat == ErasedEnv(old(flat), env)
      ensures callbackMap == old(callbackMap) - {env}
    {
      hide Refines;
      EraseEnvRefines(callbackMap, before, flat, env);
      flat := ErasedEnv(flat, env);
      if env !in callbackMap {
        NothingToErase(callbackMap, env);
      }
      ghost var left := callbackMap - {env};
      assert forall e, r :: Holds(left, e, r) ==> Holds(callbackMap, e, r) && e != env;
      OtherReferencesDoNotMatter(left, before, engine.refs, flat);
      if env !in callbackMap {
        return;
      }
      callbackMap := callbackMap - {env};
    }

    /** Registers a handler once: a second time, or with bad arguments, nothing changes.  `host` is the
        new callback object and `subscribed` whether the subscription went through. */
    method RegCallback(env: Env, argc: nat, isFunction: bool, handler: Handler, host: T, subscribed: bool)
      returns (ok: bool)
      requires Valid() && handler != NULL_HANDLER
      modifies this, engine
      ensures Valid()
      ensures ok == (argc == 2 && isFunction && Key(env, handler) !in old(flat) && subscribed)
      ensures flat == if ok then old(flat)[Key(env, handler) := host] else old(flat)
    {
      if argc != 2 || !isFunction {
        return false;
      }
      var known := IsCallbackInMap(env, handler);
      if known {
        return false;
      }
      var handlerRef := engine.CreateReference(handler);
      OtherReferencesDoNotMatter(callbackMap, old(engine.refs), engine.refs, flat);
      if !subscribed {
        return false;
      }
      AddCallback(env, handlerRef, host);
      return true;
    }
  }
}
