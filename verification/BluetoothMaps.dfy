/**
 The nested callback map beside the machine of all script threads.  The machine works on the flat map
 from handlers to callback objects; here every statement also acts on the nested map, by reference, as
 the callback manager does, and the nested map stands for the flat one through every run.
 */
module BluetoothMaps {
  import opened BluetoothSearch
  import opened CallbackManagers
  import opened Wrappers

  /** The handlers behind the undeleted references. */
  function HandlersOf(refs: map<Ref, Key>): map<Ref, Handler> {
    map r | r in refs :: refs[r].handler
  }

  /** The reference under which a look-up finds the handler. */
  predicate FoundAt(callbacks: Callbacks<nat>, refs: map<Ref, Key>, k: Key, r: Ref) {
    Holds(callbacks, k.env, r) && r in refs && refs[r].handler == k.handler
  }

  ghost predicate Finds(callbacks: Callbacks<nat>, refs: map<Ref, Key>, k: Key) {
    exists r :: FoundAt(callbacks, refs, k, r)
  }

  /** The callback objects that a stop-all walks over. */
  function Walked(callbacks: Callbacks<nat>, env: Env): set<nat> {
    set r | Holds(callbacks, env, r) && r in callbacks[env] :: callbacks[env][r]
  }

  // ---------- the operations, by reference ----------

  /** Nothing is inserted where the reference is there already. */
  function Added(callbacks: Callbacks<nat>, env: Env, r: Ref, host: nat): Callbacks<nat> {
    if Holds(callbacks, env, r) then callbacks else Inserted(callbacks, env, r, host)
  }

  /** The entry is looked up through its reference; where that fails nothing is erased. */
  ghost function Deleted(callbacks: Callbacks<nat>, refs: map<Ref, Key>, k: Key): Callbacks<nat> {
    if Finds(callbacks, refs, k) then
      var r :| FoundAt(callbacks, refs, k, r);
      Erased(callbacks, k.env, r)
    else callbacks
  }

  ghost function MapAfter(callbacks: Callbacks<nat>, w: World, step: Step): Callbacks<nat> {
    if !step.Advance? then callbacks
    else
      var s, env := w.shared, step.env;
      match ThreadOf(w, env)
      case AddHeld(_, host) => if host < |s.hosts| then Added(callbacks, env, s.hosts[host].cb, host) else callbacks
      case DeleteHeld(handler, _) => Deleted(callbacks, s.refs, Key(env, handler))
      case DeleteEnv => callbacks - {env}
      case _ => callbacks
  }

  ghost function MapAll(callbacks: Callbacks<nat>, w: World, steps: seq<Step>): Callbacks<nat>
    decreases |steps|
  {
    if steps == [] then callbacks
    else MapAll(MapAfter(callbacks, w, steps[0]), Apply(w, steps[0]), steps[1..])
  }

  // ---------- one environment ----------

  function Part(callbacks: Callbacks<nat>, env: Env): Callbacks<nat> {
    if env in callbacks then map[env := callbacks[env]] else map[]
  }

  function FlatPart(flat: Flat<nat>, env: Env): Flat<nat> {
    map k | k in flat && k.env == env :: flat[k]
  }

  ghost predicate OwnReferences(callbacks: Callbacks<nat>, refs: map<Ref, Key>, env: Env) {
    forall r :: Holds(callbacks, env, r) ==> r in refs && refs[r].env == env
  }

  /** The inner map of the environment stands for its part of the flat map. */
  ghost predicate PartStands(callbacks: Callbacks<nat>, s: Shared, env: Env) {
    && Refines(Part(callbacks, env), HandlersOf(s.refs), FlatPart(s.held, env))
    && OwnReferences(callbacks, s.refs, env)
  }

  /** It does, except while a stop-all has deleted references that the map still has. */
  ghost predicate EnvStands(callbacks: Callbacks<nat>, s: Shared, env: Env, t: Thread) {
    StoppingAll(t) || PartStands(callbacks, s, env)
  }

  ghost predicate AllStand(callbacks: Callbacks<nat>, w: World) {
    forall env :: EnvStands(callbacks, w.shared, env, ThreadOf(w, env))
  }

  /** References that the inner map does not hold may come and go. */
  lemma PartStaysStanding(callbacks: Callbacks<nat>, callbacks': Callbacks<nat>, s: Shared, s': Shared, env: Env)
    requires PartStands(callbacks, s, env) && Part(callbacks', env) == Part(callbacks, env)
    requires FlatPart(s'.held, env) == FlatPart(s.held, env)
    requires forall r :: Holds(callbacks, env, r) ==> r in s'.refs && s'.refs[r] == s.refs[r]
    ensures PartStands(callbacks', s', env)
  {
    hide Refines;
    var part := Part(callbacks, env);
    assert forall e, r :: Holds(part, e, r) ==> e == env && Holds(callbacks, env, r);
    assert forall r :: Holds(callbacks', env, r) ==> Holds(part, env, r) by {
      assert forall r :: Holds(callbacks', env, r) ==> Holds(Part(callbacks', env), env, r);
    }
    OtherReferencesDoNotMatter(part, HandlersOf(s.refs), HandlersOf(s'.refs), FlatPart(s.held, env));
  }

  lemma OtherPartsStay(callbacks: Callbacks<nat>, w: World, step: Step, other: Env)
    requires step.Advance? ==> step.env != other
    ensures Part(MapAfter(callbacks, w, step), other) == Part(callbacks, other)
  {
  }

  lemma OthersStand(callbacks: Callbacks<nat>, callbacks': Callbacks<nat>, s: Shared, s': Shared, env: Env, other: Env)
    requires other != env && SameElsewhere(s, s', env)
    requires PartStands(callbacks, s, other) && Part(callbacks', other) == Part(callbacks, other)
    ensures PartStands(callbacks', s', other)
  {
    hide Refines;
    assert FlatPart(s'.held, other) == FlatPart(s.held, other);
    PartStaysStanding(callbacks, callbacks', s, s', other);
  }

  // ---------- statement by statement ----------

  /** A start enters its callback object under a new handler. */
  lemma AddStands(callbacks: Callbacks<nat>, s: Shared, env: Env, handler: Handler, host: nat)
    requires RefsInv(s) && PartStands(callbacks, s, env) && ThreadOk(s, env, AddHeld(handler, host))
    ensures
      var s' := s.(held := s.held[Key(env, handler) := host]);
      PartStands(Added(callbacks, env, s.hosts[host].cb, host), s', env)
  {
    hide Refines;
    var r, part, flat, refs := s.hosts[host].cb, Part(callbacks, env), FlatPart(s.held, env), HandlersOf(s.refs);
    NewHandlerIsNotHeld(part, refs, flat, env, r);
    InsertRefines(part, refs, flat, env, r, host);
    assert Part(Inserted(callbacks, env, r, host), env) == Inserted(part, env, r, host);
    assert FlatPart(s.held[Key(env, handler) := host], env) == flat[Key(env, handler) := host];
    assert forall q :: Holds(Inserted(callbacks, env, r, host), env, q) ==> q == r || Holds(callbacks, env, q);
  }

  /** A stop finds its entry, because the reference is not deleted before. */
  lemma DeleteStands(callbacks: Callbacks<nat>, s: Shared, env: Env, handler: Handler)
    requires PartStands(callbacks, s, env) && Key(env, handler) in s.held
    ensures Finds(callbacks, s.refs, Key(env, handler))
    ensures
      var k := Key(env, handler);
      PartStands(Deleted(callbacks, s.refs, k), s.(held := s.held - {k}), env)
  {
    var k := Key(env, handler);
    LookUpFinds(callbacks, s, k);
    forall r | FoundAt(callbacks, s.refs, k, r)
      ensures PartStands(Erased(callbacks, env, r), s.(held := s.held - {k}), env)
    {
      EraseStands(callbacks, s, k, r);
    }
  }

  lemma EraseStands(callbacks: Callbacks<nat>, s: Shared, k: Key, r: Ref)
    requires PartStands(callbacks, s, k.env) && FoundAt(callbacks, s.refs, k, r)
    ensures PartStands(Erased(callbacks, k.env, r), s.(held := s.held - {k}), k.env)
  {
    hide Refines;
    var part := Part(callbacks, k.env);
    EraseRefines(part, HandlersOf(s.refs), FlatPart(s.held, k.env), k.env, r);
    assert Part(Erased(callbacks, k.env, r), k.env) == Erased(part, k.env, r);
    assert FlatPart(s.held - {k}, k.env) == FlatPart(s.held, k.env) - {k};
    assert forall q :: Holds(Erased(callbacks, k.env, r), k.env, q) ==> Holds(callbacks, k.env, q);
  }

  /** A look-up finds the entry of the flat map, or there is none. */
  lemma LookUpFinds(callbacks: Callbacks<nat>, s: Shared, k: Key)
    requires PartStands(callbacks, s, k.env)
    ensures Finds(callbacks, s.refs, k) <==> k in s.held
    ensures forall r :: FoundAt(callbacks, s.refs, k, r) ==> k in s.held && callbacks[k.env][r] == s.held[k]
  {
    var part, refs := Part(callbacks, k.env), HandlersOf(s.refs);
    if k in s.held {
      assert k in FlatPart(s.held, k.env) && Leads(part, refs, k);
      var r :| Holds(part, k.env, r) && r in refs && refs[r] == k.handler;
      assert FoundAt(callbacks, s.refs, k, r);
    }
    forall r | FoundAt(callbacks, s.refs, k, r)
      ensures k in s.held && callbacks[k.env][r] == s.held[k]
    {
      assert Holds(part, k.env, r) && Key(k.env, refs[r]) in FlatPart(s.held, k.env);
    }
  }

  /** The walk of a stop-all takes exactly the objects of the flat map. */
  lemma WalkIsHosts(callbacks: Callbacks<nat>, s: Shared, env: Env)
    requires PartStands(callbacks, s, env)
    ensures Walked(callbacks, env) == HostsOf(s, env)
  {
    var part, refs := Part(callbacks, env), HandlersOf(s.refs);
    forall r | Holds(callbacks, env, r)
      ensures callbacks[env][r] in HostsOf(s, env)
    {
      assert Holds(part, env, r) && Key(env, refs[r]) in FlatPart(s.held, env);
    }
    forall k | k in s.held && k.env == env
      ensures exists r :: Holds(callbacks, env, r) && callbacks[env][r] == s.held[k]
    {
      LookUpFinds(callbacks, s, k);
      var r :| FoundAt(callbacks, s.refs, k, r);
      assert Holds(callbacks, env, r);
    }
  }

  /** Were the reference deleted first, a stop would not find its entry: the entry would stay in the map, and
      the map would stand for no flat one any more. */
  lemma DeadReferenceLosesTheEntry(callbacks: Callbacks<nat>, s: Shared, k: Key, r: Ref, flat: Flat<nat>)
    requires PartStands(callbacks, s, k.env) && FoundAt(callbacks, s.refs, k, r)
    ensures
      var refs := s.refs - {r};
      && Deleted(callbacks, refs, k) == callbacks
      && !Refines(callbacks, HandlersOf(refs), flat)
  {
    var refs, part := s.refs - {r}, Part(callbacks, k.env);
    forall q | Holds(callbacks, k.env, q) && q != r
      ensures !FoundAt(callbacks, refs, k, q)
    {
      assert Holds(part, k.env, q) && Holds(part, k.env, r);
    }
    assert !Finds(callbacks, refs, k);
    assert Holds(callbacks, k.env, r) && r !in HandlersOf(refs);
  }

  /** What a deleted or a new reference leaves alone. */
  lemma ReferenceStatementStands(callbacks: Callbacks<nat>, s: Shared, env: Env, t: Thread, reply: int, pick: nat)
    requires RefsInv(s) && ThreadOk(s, env, t) && PartStands(callbacks, s, env)
    requires t.CreateReference? || (t.DeleteRef? && t.after.None?)
    ensures PartStands(callbacks, Statement(s, env, t, reply, pick).shared, env)
  {
    hide HostsOf, Without, LiveInv;
    var s' := Statement(s, env, t, reply, pick).shared;
    forall r | Holds(callbacks, env, r)
      ensures r in s'.refs && s'.refs[r] == s.refs[r]
    {
      assert Holds(Part(callbacks, env), env, r) && HandlersOf(s.refs)[r] == s.refs[r].handler;
      assert Key(env, s.refs[r].handler) == s.refs[r] && s.refs[r] in FlatPart(s.held, env);
    }
    PartStaysStanding(callbacks, callbacks, s, s', env);
  }

  lemma StoppedAllStands(callbacks: Callbacks<nat>, s: Shared, env: Env)
    ensures PartStands(callbacks - {env}, s.(held := ErasedEnv(s.held, env)), env)
  {
    assert FlatPart(ErasedEnv(s.held, env), env) == map[];
    assert Part(callbacks - {env}, env) == map[];
  }

  lemma StatementStands(callbacks: Callbacks<nat>, w: World, env: Env, reply: int, pick: nat)
    requires SharedInv(w.shared) && ThreadOk(w.shared, env, ThreadOf(w, env))
    requires EnvStands(callbacks, w.shared, env, ThreadOf(w, env))
    ensures
      var effect := Statement(w.shared, env, ThreadOf(w, env), reply, pick);
      EnvStands(MapAfter(callbacks, w, Advance(env, reply, pick)), effect.shared, env, effect.next)
  {
    hide PartStands, LiveInv, RegisteredInv, Without, HostsOf, Added, Deleted, ErasedEnv;
    var s, t := w.shared, ThreadOf(w, env);
    var s' := Statement(s, env, t, reply, pick).shared;
    if !StoppingAll(t) {
      if t.AddHeld? {
        AddStands(callbacks, s, env, t.handler, t.host);
      } else if t.DeleteHeld? {
        DeleteStands(callbacks, s, env, t.handler);
      } else if t.CreateReference? || t.DeleteRef? {
        ReferenceStatementStands(callbacks, s, env, t, reply, pick);
      } else {
        QuietStatementStands(callbacks, s, s', env);
      }
    } else if t.DeleteEnv? {
      StoppedAllStands(callbacks, s, env);
    }
  }

  lemma QuietStatementStands(callbacks: Callbacks<nat>, s: Shared, s': Shared, env: Env)
    requires PartStands(callbacks, s, env) && s'.refs == s.refs && s'.held == s.held
    ensures PartStands(callbacks, s', env)
  {
    hide Refines;
  }

  // ---------- whole runs ----------

  lemma StepStands(callbacks: Callbacks<nat>, w: World, step: Step)
    requires Inv(w) && AllStand(callbacks, w)
    ensures AllStand(MapAfter(callbacks, w, step), Apply(w, step))
  {
    hide PartStands, SharedInv, EnvInv, Statement, MapAfter, StoppingAll, SameElsewhere, CalledAt;
    if step.Advance? {
      AdvanceStands(callbacks, w, step.env, step.reply, step.pick);
    } else {
      QuietStepStands(callbacks, w, step);
    }
  }

  lemma AdvanceStands(callbacks: Callbacks<nat>, w: World, env: Env, reply: int, pick: nat)
    requires Inv(w) && AllStand(callbacks, w)
    ensures AllStand(MapAfter(callbacks, w, Advance(env, reply, pick)), Apply(w, Advance(env, reply, pick)))
  {
    hide PartStands, SharedInv, EnvInv, Statement, MapAfter, StoppingAll, SameElsewhere;
    var step := Advance(env, reply, pick);
    var callbacks', w' := MapAfter(callbacks, w, step), Apply(w, step);
    assert EnvInv(w.shared, env, ThreadOf(w, env)) && EnvStands(callbacks, w.shared, env, ThreadOf(w, env));
    ThreadPart(w.shared, env, ThreadOf(w, env));
    StatementStands(callbacks, w, env, reply, pick);
    StatementKeeps(w.shared, env, ThreadOf(w, env), reply, pick);
    forall other
      ensures EnvStands(callbacks', w'.shared, other, ThreadOf(w', other))
    {
      assert EnvStands(callbacks, w.shared, other, ThreadOf(w, other));
      if other != env {
        OtherPartsStay(callbacks, w, step, other);
        if PartStands(callbacks, w.shared, other) {
          OthersStand(callbacks, callbacks', w.shared, w'.shared, env, other);
        }
      }
    }
  }

  lemma QuietStepStands(callbacks: Callbacks<nat>, w: World, step: Step)
    requires AllStand(callbacks, w) && !step.Advance?
    ensures AllStand(MapAfter(callbacks, w, step), Apply(w, step))
  {
    hide PartStands, CalledAt, Statement;
    forall env
      ensures EnvStands(callbacks, Apply(w, step).shared, env, ThreadOf(Apply(w, step), env))
    {
      assert EnvStands(callbacks, w.shared, env, ThreadOf(w, env));
    }
  }

  lemma {:induction false} RunStands(callbacks: Callbacks<nat>, w: World, steps: seq<Step>)
    requires Inv(w) && AllStand(callbacks, w)
    ensures AllStand(MapAll(callbacks, w, steps), RunAll(w, steps))
    decreases |steps|
  {
    hide Inv, AllStand, Apply, MapAfter;
    if steps == [] {
    } else {
      StepKeepsInv(w, steps[0]);
      StepStands(callbacks, w, steps[0]);
      RunStands(MapAfter(callbacks, w, steps[0]), Apply(w, steps[0]), steps[1..]);
    }
  }

  lemma NothingStandsForNothing()
    ensures AllStand(map[], INITIAL)
  {
    assert forall env :: FlatPart(INITIAL.shared.held, env) == map[];
  }

  /** Through every run, a call that a script makes sees in the nested map what the machine says: a look-up
      finds exactly the held handlers, each with its callback object, and a stop-all walks over exactly the
      held callback objects of its environment. */
  lemma CallsSeeTheHeld(steps: seq<Step>, env: Env, handler: Handler)
    requires ThreadOf(RunAll(INITIAL, steps), env) == Idle
    ensures
      var s, callbacks, k := RunAll(INITIAL, steps).shared, MapAll(map[], INITIAL, steps), Key(env, handler);
      && (Finds(callbacks, s.refs, k) <==> k in s.held)
      && (forall r :: FoundAt(callbacks, s.refs, k, r) ==> callbacks[env][r] == s.held[k])
      && Walked(callbacks, env) == HostsOf(s, env)
  {
    hide Inv, PartStands, MapAll, RunAll, HostsOf;
    var w, callbacks := RunAll(INITIAL, steps), MapAll(map[], INITIAL, steps);
    InitialInv();
    NothingStandsForNothing();
    RunStands(map[], INITIAL, steps);
    assert EnvStands(callbacks, w.shared, env, ThreadOf(w, env));
    LookUpFinds(callbacks, w.shared, Key(env, handler));
    WalkIsHosts(callbacks, w.shared, env);
  }

  /** When no stop-all is under way, the whole nested map stands for the whole flat one. */
  lemma MapRefinesTheHeld(steps: seq<Step>)
    requires forall env :: !StoppingAll(ThreadOf(RunAll(INITIAL, steps), env))
    ensures
      var s := RunAll(INITIAL, steps).shared;
      Refines(MapAll(map[], INITIAL, steps), HandlersOf(s.refs), s.held)
  {
    hide Inv, PartStands, MapAll, RunAll, StoppingAll;
    var w, callbacks := RunAll(INITIAL, steps), MapAll(map[], INITIAL, steps);
    InitialInv();
    NothingStandsForNothing();
    RunStands(map[], INITIAL, steps);
    forall env
      ensures PartStands(callbacks, w.shared, env)
    {
      assert EnvStands(callbacks, w.shared, env, ThreadOf(w, env));
    }
    PartsMakeTheWhole(callbacks, w.shared);
  }

  lemma PartsMakeTheWhole(callbacks: Callbacks<nat>, s: Shared)
    requires forall env :: PartStands(callbacks, s, env)
    ensures Refines(callbacks, HandlersOf(s.refs), s.held)
  {
    var refs := HandlersOf(s.refs);
    forall env, r | Holds(callbacks, env, r)
      ensures r != NULL_REF && r in refs && Key(env, refs[r]) in s.held
      ensures s.held[Key(env, refs[r])] == callbacks[env][r]
    {
      assert PartStands(callbacks, s, env) && Holds(Part(callbacks, env), env, r);
      assert Key(env, refs[r]) in FlatPart(s.held, env);
    }
    forall env, r, q | Holds(callbacks, env, r) && Holds(callbacks, env, q) && r != q
      ensures refs[r] != refs[q]
    {
      assert PartStands(callbacks, s, env);
      assert Holds(Part(callbacks, env), env, r) && Holds(Part(callbacks, env), env, q);
    }
    forall env | env in callbacks
      ensures callbacks[env] != map[]
    {
      assert PartStands(callbacks, s, env) && env in Part(callbacks, env);
    }
    forall k | k in s.held
      ensures Leads(callbacks, refs, k)
    {
      assert PartStands(callbacks, s, k.env);
      LookUpFinds(callbacks, s, k);
      var r :| FoundAt(callbacks, s.refs, k, r);
      assert Holds(callbacks, k.env, r);
    }
  }
}
