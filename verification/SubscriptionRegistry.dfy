/**
 The client-side lists of callback hosts behind the `On…`, `Off…` and `Off…All` calls.  Location,
 error, switch, satellite, NMEA and country-code subscriptions all run the same loops, each over its
 own list and its own pair of service calls.
 */
module SubscriptionRegistry {
  import opened ErrorCodes
  import opened Wrappers

  /** A list element: a null pointer, or a host with the id its caller gave it. */
  datatype Entry = Null | Host(host: nat, callbackId: int)

  /** Hosts are numbered in the order in which they are created. */
  datatype State = State(list: seq<Entry>, registered: set<nat>, next: nat)

  const INITIAL: State := State([], {}, 0)

  /** What an Off call is about: the hosts of one callback id, or all of them. */
  datatype Target = Id(callbackId: int) | All

  predicate Selected(e: Entry, target: Target) {
    e.Host? && (target.All? || e.callbackId == target.callbackId)
  }

  /** The entries a finished Off leaves, in their order; null entries go as well. */
  function Kept(list: seq<Entry>, target: Target): seq<Entry> {
    if list == [] then []
    else
      var last := list[|list| - 1];
      var before := Kept(list[..|list| - 1], target);
      if last.Null? || Selected(last, target) then before else before + [last]
  }

  function Unsubscribed(list: seq<Entry>, target: Target): set<nat> {
    set i | 0 <= i < |list| && Selected(list[i], target) :: list[i].host
  }

  /** The first selected entry that the service refuses to let go, or the length of the list. */
  function Refusal(list: seq<Entry>, target: Target, reply: nat -> int): (k: nat)
    ensures k <= |list|
    ensures k < |list| ==> Selected(list[k], target) && reply(list[k].host) != ERRCODE_SUCCESS
    ensures forall i :: 0 <= i < k && Selected(list[i], target) ==> reply(list[i].host) == ERRCODE_SUCCESS
  {
    if list == [] then 0
    else if Selected(list[0], target) && reply(list[0].host) != ERRCODE_SUCCESS then 0
    else 1 + Refusal(list[1..], target, reply)
  }

  /** The effect of an Off call: everything selected before the refusal is gone, the rest is as it was. */
  function Off(s: State, target: Target, reply: nat -> int): State {
    var k := Refusal(s.list, target, reply);
    s.(list := Kept(s.list[..k], target) + s.list[k..],
       registered := s.registered - Unsubscribed(s.list[..k], target))
  }

  function OffCode(s: State, target: Target, reply: nat -> int): int {
    var k := Refusal(s.list, target, reply);
    if k < |s.list| then reply(s.list[k].host) else ERRCODE_SUCCESS
  }

  /** The effect of an On call whose checks and registration ended with `code`. */
  function On(s: State, callbackId: int, code: int): State {
    if code == ERRCODE_SUCCESS then
      State(s.list + [Host(s.next, callbackId)], s.registered + {s.next}, s.next + 1)
    else
      s.(next := s.next + 1)
  }

  // ---------- client and service agree ----------

  function Hosts(list: seq<Entry>): set<nat> {
    set i | 0 <= i < |list| && list[i].Host? :: list[i].host
  }

  ghost predicate Agree(s: State) {
    && (forall i :: 0 <= i < |s.list| ==> s.list[i].Host? && s.list[i].host < s.next)
    && (forall i, j :: 0 <= i < j < |s.list| ==> s.list[i].host != s.list[j].host)
    && Hosts(s.list) == s.registered
  }

  datatype Op = OnOp(callbackId: int, code: int) | OffOp(target: Target, reply: nat -> int)

  function Apply(s: State, op: Op): State {
    match op
    case OnOp(callbackId, code) => On(s, callbackId, code)
    case OffOp(target, reply) => Off(s, target, reply)
  }

  function RunAll(s: State, ops: seq<Op>): State
    decreases |ops|
  {
    if ops == [] then s else RunAll(Apply(s, ops[0]), ops[1..])
  }

  /** The positions of the entries that `Kept` keeps. */
  function Positions(list: seq<Entry>, target: Target): seq<nat> {
    if list == [] then []
    else
      var n := |list| - 1;
      var before := Positions(list[..n], target);
      if list[n].Null? || Selected(list[n], target) then before else before + [n]
  }

  /** `Kept` keeps the unselected hosts in their order ... */
  lemma {:induction false} KeptKeepsOrder(list: seq<Entry>, target: Target)
    ensures |Positions(list, target)| == |Kept(list, target)|
    ensures forall i, j :: 0 <= i < j < |Positions(list, target)| ==>
      Positions(list, target)[i] < Positions(list, target)[j]
    ensures forall i :: 0 <= i < |Positions(list, target)| ==>
      var p := Positions(list, target)[i];
      p < |list| && Kept(list, target)[i] == list[p] && list[p].Host? && !Selected(list[p], target)
  {
    if list == [] {
    } else {
      var n := |list| - 1;
      KeptKeepsOrder(list[..n], target);
      assert !(list[n].Null? || Selected(list[n], target)) ==>
        && Kept(list, target) == Kept(list[..n], target) + [list[n]]
        && Positions(list, target) == Positions(list[..n], target) + [n];
    }
  }

  /** ... and all of them. */
  lemma {:induction false} KeptKeepsAll(list: seq<Entry>, target: Target, j: nat)
    requires j < |list| && list[j].Host? && !Selected(list[j], target)
    ensures j in Positions(list, target)
  {
    if j < |list| - 1 {
      KeptKeepsAll(list[..|list| - 1], target, j);
    }
  }

  lemma {:induction false} KeptAppend(a: seq<Entry>, b: seq<Entry>, target: Target)
    ensures Kept(a + b, target) == Kept(a, target) + Kept(b, target)
  {
    if b == [] {
      assert a + b == a;
    } else {
      var n := |b| - 1;
      assert (a + b)[..|a + b| - 1] == a + b[..n];
      KeptAppend(a, b[..n], target);
    }
  }

  lemma {:induction false} KeptTwice(list: seq<Entry>, target: Target)
    ensures Kept(Kept(list, target), target) == Kept(list, target)
  {
    if list == [] {
    } else {
      var n := |list| - 1;
      var before := Kept(list[..n], target);
      KeptTwice(list[..n], target);
      if !(list[n].Null? || Selected(list[n], target)) {
        assert (before + [list[n]])[..|before|] == before;
      }
    }
  }

  /** An element of the list after Off comes from one that was there, in the same order. */
  function Origin(list: seq<Entry>, target: Target, k: nat, i: nat): nat
    requires k <= |list|
  {
    if i < |Positions(list[..k], target)| then Positions(list[..k], target)[i]
    else k + i - |Positions(list[..k], target)|
  }

  lemma OffComesFromBefore(list: seq<Entry>, target: Target, k: nat)
    requires k <= |list|
    ensures
      var after := Kept(list[..k], target) + list[k..];
      && (forall i :: 0 <= i < |after| ==>
        Origin(list, target, k, i) < |list| && after[i] == list[Origin(list, target, k, i)])
      && (forall i, j :: 0 <= i < j < |after| ==> Origin(list, target, k, i) < Origin(list, target, k, j))
      && (forall i :: 0 <= i < |after| && Origin(list, target, k, i) < k ==> !Selected(after[i], target))
  {
    KeptKeepsOrder(list[..k], target);
  }

  lemma OffKeepsTheRest(list: seq<Entry>, target: Target, k: nat, j: nat)
    requires k <= |list| && j < |list| && list[j].Host? && (j < k ==> !Selected(list[j], target))
    ensures list[j] in Kept(list[..k], target) + list[k..]
  {
    var after := Kept(list[..k], target) + list[k..];
    if j < k {
      assert list[..k][j] == list[j];
      KeptKeepsAll(list[..k], target, j);
      KeptKeepsOrder(list[..k], target);
      var i :| 0 <= i < |Positions(list[..k], target)| && Positions(list[..k], target)[i] == j;
      assert after[i] == list[j];
    } else {
      assert after[|Kept(list[..k], target)| + (j - k)] == list[j];
    }
  }

  lemma HostsAfterOff(list: seq<Entry>, target: Target, k: nat)
    requires k <= |list|
    requires forall i :: 0 <= i < |list| ==> list[i].Host?
    requires forall i, j :: 0 <= i < j < |list| ==> list[i].host != list[j].host
    ensures Hosts(Kept(list[..k], target) + list[k..]) == Hosts(list) - Unsubscribed(list[..k], target)
  {
    hide Kept, Origin;
    var after := Kept(list[..k], target) + list[k..];
    OffComesFromBefore(list, target, k);
    forall h
      ensures h in Hosts(after) <==> h in Hosts(list) - Unsubscribed(list[..k], target)
    {
      if h in Hosts(after) {
        var i :| 0 <= i < |after| && after[i].Host? && after[i].host == h;
        assert list[Origin(list, target, k, i)].host == h;
      }
      if h in Hosts(list) - Unsubscribed(list[..k], target) {
        var j :| 0 <= j < |list| && list[j].host == h;
        assert j < k ==> list[..k][j] == list[j];
        OffKeepsTheRest(list, target, k, j);
      }
    }
  }

  lemma OffKeepsAgreement(s: State, target: Target, reply: nat -> int)
    requires Agree(s)
    ensures Agree(Off(s, target, reply))
  {
    hide Kept, Unsubscribed, Refusal, Hosts, Origin;
    var k := Refusal(s.list, target, reply);
    OffComesFromBefore(s.list, target, k);
    HostsAfterOff(s.list, target, k);
  }

  lemma OnKeepsAgreement(s: State, callbackId: int, code: int)
    requires Agree(s)
    ensures Agree(On(s, callbackId, code))
  {
    if code == ERRCODE_SUCCESS {
      var s' := On(s, callbackId, code);
      forall h
        ensures h in Hosts(s'.list) <==> h in s'.registered
      {
        if h in Hosts(s.list) {
          var i :| 0 <= i < |s.list| && s.list[i].host == h;
          assert s'.list[i].host == h;
        }
        assert s'.list[|s.list|].host == s.next;
      }
    }
  }

  /** Through any run, with the service refusing wherever it likes, the hosts in the list are exactly
      those the service has registered, each once. */
  lemma {:induction false} RunsAgree(s: State, ops: seq<Op>)
    requires Agree(s)
    ensures Agree(RunAll(s, ops))
    decreases |ops|
  {
    if ops == [] {
    } else {
      match ops[0] {
        case OnOp(callbackId, code) => OnKeepsAgreement(s, callbackId, code);
        case OffOp(target, reply) => OffKeepsAgreement(s, target, reply);
      }
      RunsAgree(Apply(s, ops[0]), ops[1..]);
    }
  }

  lemma EveryRunAgrees(ops: seq<Op>)
    ensures Agree(RunAll(INITIAL, ops))
  {
    RunsAgree(INITIAL, ops);
  }

  // ---------- what one Off does, and what retrying does ----------

  /** An Off that reports success has removed exactly the selected hosts; one that reports a failure
      stopped at the first refusal and left everything from there on. */
  lemma OffRemovesExactly(s: State, target: Target, reply: nat -> int)
    ensures OffCode(s, target, reply) == ERRCODE_SUCCESS ==>
      && Off(s, target, reply).list == Kept(s.list, target)
      && Off(s, target, reply).registered == s.registered - Unsubscribed(s.list, target)
    ensures OffCode(s, target, reply) == ERRCODE_SUCCESS <==>
      forall i :: 0 <= i < |s.list| && Selected(s.list[i], target) ==> reply(s.list[i].host) == ERRCODE_SUCCESS
    ensures OffCode(s, target, reply) != ERRCODE_SUCCESS ==>
      exists k :: 0 <= k < |s.list|
        && Selected(s.list[k], target) && OffCode(s, target, reply) == reply(s.list[k].host)
        && (forall i :: 0 <= i < k && Selected(s.list[i], target) ==> reply(s.list[i].host) == ERRCODE_SUCCESS)
        && Off(s, target, reply).list == Kept(s.list[..k], target) + s.list[k..]
        && Off(s, target, reply).registered == s.registered - Unsubscribed(s.list[..k], target)
  {
    var k := Refusal(s.list, target, reply);
    assert s.list[..|s.list|] == s.list;
  }

  /** What a successful Off leaves. */
  function Cleared(s: State, target: Target): State {
    s.(list := Kept(s.list, target), registered := s.registered - Unsubscribed(s.list, target))
  }

  /** A failed attempt does not change where success leads. */
  lemma AttemptKeepsTheGoal(s: State, target: Target, reply: nat -> int)
    ensures Cleared(Off(s, target, reply), target) == Cleared(s, target)
  {
    var k := Refusal(s.list, target, reply);
    var a, b := s.list[..k], s.list[k..];
    assert s.list == a + b;
    KeptAppend(a, b, target);
    KeptAppend(Kept(a, target), b, target);
    KeptTwice(a, target);
    UnsubscribedAppend(a, b, target);
    UnsubscribedAppend(Kept(a, target), b, target);
    NothingLeftToUnsubscribe(a, target);
    assert s.registered - Unsubscribed(a, target) - Unsubscribed(b, target) ==
      s.registered - (Unsubscribed(a, target) + Unsubscribed(b, target));
  }

  lemma UnsubscribedAppend(a: seq<Entry>, b: seq<Entry>, target: Target)
    ensures Unsubscribed(a + b, target) == Unsubscribed(a, target) + Unsubscribed(b, target)
  {
    forall h
      ensures h in Unsubscribed(a + b, target) <==> h in Unsubscribed(a, target) || h in Unsubscribed(b, target)
    {
      if h in Unsubscribed(a, target) {
        var i :| 0 <= i < |a| && Selected(a[i], target) && a[i].host == h;
        assert (a + b)[i] == a[i];
      }
      if h in Unsubscribed(b, target) {
        var i :| 0 <= i < |b| && Selected(b[i], target) && b[i].host == h;
        assert (a + b)[|a| + i] == b[i];
      }
      if h in Unsubscribed(a + b, target) {
        var i :| 0 <= i < |a + b| && Selected((a + b)[i], target) && (a + b)[i].host == h;
        assert if i < |a| then (a + b)[i] == a[i] else (a + b)[i] == b[i - |a|];
      }
    }
  }

  lemma NothingLeftToUnsubscribe(list: seq<Entry>, target: Target)
    ensures Unsubscribed(Kept(list, target), target) == {}
  {
    KeptKeepsOrder(list, target);
  }

  function Retry(s: State, target: Target, replies: seq<nat -> int>): State
    decreases |replies|
  {
    if replies == [] then s else Retry(Off(s, target, replies[0]), target, replies[1..])
  }

  lemma {:induction false} RetriesKeepTheGoal(s: State, target: Target, replies: seq<nat -> int>)
    ensures Cleared(Retry(s, target, replies), target) == Cleared(s, target)
    decreases |replies|
  {
    if replies == [] {
    } else {
      AttemptKeepsTheGoal(s, target, replies[0]);
      RetriesKeepTheGoal(Off(s, target, replies[0]), target, replies[1..]);
    }
  }

  /** Retrying after any number of failures ends, at the first success, where one success would have. */
  lemma RetryingEndsAsOneSuccess(s: State, target: Target, failed: seq<nat -> int>, last: nat -> int)
    requires OffCode(Retry(s, target, failed), target, last) == ERRCODE_SUCCESS
    ensures Off(Retry(s, target, failed), target, last) == Cleared(s, target)
  {
    RetriesKeepTheGoal(s, target, failed);
    OffRemovesExactly(Retry(s, target, failed), target, last);
  }

  // ---------- which subscriptions are left ----------

  /** The Off call means the entries with this callback id. */
  predicate Means(target: Target, callbackId: int) {
    target == All || target == Id(callbackId)
  }

  /** A successful Off lets exactly those hosts go whose callback id it means. */
  lemma OffLetsGoExactly(s: State, target: Target, reply: nat -> int, i: nat)
    requires Agree(s) && i < |s.list| && OffCode(s, target, reply) == ERRCODE_SUCCESS
    ensures
      var e, s' := s.list[i], Off(s, target, reply);
      && (e.host in s'.registered <==> !Means(target, e.callbackId))
      && (e in s'.list <==> !Means(target, e.callbackId))
  {
    hide Kept, Hosts, Refusal;
    var e := s.list[i];
    OffRemovesExactly(s, target, reply);
    assert e.host in Hosts(s.list) by {
      EntryIsHost(s.list, i);
    }
    assert s.list[..|s.list|] == s.list;
    if Means(target, e.callbackId) {
      assert Selected(e, target);
      KeptHasNoSelected(s.list, target, e);
    } else {
      OffKeepsTheRest(s.list, target, |s.list|, i);
    }
  }

  lemma EntryIsHost(list: seq<Entry>, i: nat)
    requires i < |list| && list[i].Host?
    ensures list[i].host in Hosts(list)
  {
  }

  lemma KeptHasNoSelected(list: seq<Entry>, target: Target, e: Entry)
    requires Selected(e, target)
    ensures e !in Kept(list, target)
  {
    KeptKeepsOrder(list, target);
  }

  /** A subscription is registered, and a later Off that succeeds finds it by its callback id. */
  lemma SubscriptionIsFoundById(s: State, callbackId: int, target: Target, reply: nat -> int)
    requires Agree(s)
    requires OffCode(On(s, callbackId, ERRCODE_SUCCESS), target, reply) == ERRCODE_SUCCESS
    ensures
      var on := On(s, callbackId, ERRCODE_SUCCESS);
      && s.next in on.registered
      && (s.next in Off(on, target, reply).registered <==> !Means(target, callbackId))
  {
    OnKeepsAgreement(s, callbackId, ERRCODE_SUCCESS);
    OffLetsGoExactly(On(s, callbackId, ERRCODE_SUCCESS), target, reply, |s.list|);
  }

  /** Every Off of the run succeeds. */
  predicate OffsSucceed(s: State, ops: seq<Op>)
    decreases |ops|
  {
    ops == [] ||
    (&& (ops[0].OffOp? ==> OffCode(s, ops[0].target, ops[0].reply) == ERRCODE_SUCCESS)
     && OffsSucceed(Apply(s, ops[0]), ops[1..]))
  }

  /** No Off of the run means the callback id. */
  predicate NoneMeans(ops: seq<Op>, callbackId: int) {
    forall q :: 0 <= q < |ops| && ops[q].OffOp? ==> !Means(ops[q].target, callbackId)
  }

  lemma StepKeepsAgreement(s: State, op: Op)
    requires Agree(s)
    ensures Agree(Apply(s, op)) && Apply(s, op).next == s.next + (if op.OnOp? then 1 else 0)
  {
    match op
    case OnOp(callbackId, code) => OnKeepsAgreement(s, callbackId, code);
    case OffOp(target, reply) => OffKeepsAgreement(s, target, reply);
  }

  /** An entry stays until an Off means it. */
  lemma {:induction false} EntryStaysUntilMeant(s: State, ops: seq<Op>, e: Entry)
    requires Agree(s) && OffsSucceed(s, ops) && e in s.list
    ensures e.host in RunAll(s, ops).registered <==> NoneMeans(ops, e.callbackId)
    decreases |ops|
  {
    hide Off, OffCode, On, Agree;
    EntryIsRegistered(s, e);
    if ops == [] {
    } else {
      var s', op := Apply(s, ops[0]), ops[0];
      StepKeepsAgreement(s, op);
      NextStep(s, op, e);
      if op.OffOp? && Means(op.target, e.callbackId) {
        GoneStaysGone(s', ops[1..], e.host);
      } else {
        EntryStaysUntilMeant(s', ops[1..], e);
        assert NoneMeans(ops, e.callbackId) <==> NoneMeans(ops[1..], e.callbackId) by {
          assert forall q :: 0 <= q < |ops[1..]| ==> ops[1..][q] == ops[q + 1];
        }
      }
    }
  }

  lemma EntryIsRegistered(s: State, e: Entry)
    requires Agree(s) && e in s.list
    ensures e.Host? && e.host in s.registered && e.host < s.next
  {
  }

  lemma NextStep(s: State, op: Op, e: Entry)
    requires Agree(s) && e in s.list
    requires op.OffOp? ==> OffCode(s, op.target, op.reply) == ERRCODE_SUCCESS
    ensures e in Apply(s, op).list <==> !(op.OffOp? && Means(op.target, e.callbackId))
    ensures op.OffOp? && Means(op.target, e.callbackId) ==>
      e.host !in Apply(s, op).registered && e.host < Apply(s, op).next
  {
    if op.OffOp? {
      var i :| 0 <= i < |s.list| && s.list[i] == e;
      OffLetsGoExactly(s, op.target, op.reply, i);
    }
  }

  /** A number that was given and is not registered is never registered again. */
  lemma {:induction false} GoneStaysGone(s: State, ops: seq<Op>, h: nat)
    requires h < s.next && h !in s.registered
    ensures h !in RunAll(s, ops).registered
    decreases |ops|
  {
    if ops == [] {
    } else {
      GoneStaysGone(Apply(s, ops[0]), ops[1..], h);
    }
  }

  function Ons(ops: seq<Op>): nat {
    if ops == [] then 0 else (if ops[0].OnOp? then 1 else 0) + Ons(ops[1..])
  }

  /** What a run leaves registered, told from the calls alone when every Off succeeds: exactly the
      subscriptions that succeeded and whose callback id no later Off has meant. */
  lemma {:induction false} RegisteredExactly(s: State, ops: seq<Op>, p: nat)
    requires Agree(s) && OffsSucceed(s, ops) && p < |ops| && ops[p].OnOp?
    ensures s.next + Ons(ops[..p]) in RunAll(s, ops).registered <==>
      ops[p].code == ERRCODE_SUCCESS && NoneMeans(ops[p + 1..], ops[p].callbackId)
    decreases |ops|
  {
    hide Off, OffCode, Agree;
    var s', op := Apply(s, ops[0]), ops[0];
    StepKeepsAgreement(s, op);
    if p == 0 {
      NewHostIsUnknown(s);
      if op.code == ERRCODE_SUCCESS {
        assert s'.list[|s.list|] == Host(s.next, op.callbackId);
        EntryStaysUntilMeant(s', ops[1..], Host(s.next, op.callbackId));
      } else {
        GoneStaysGone(s', ops[1..], s.next);
      }
    } else {
      RegisteredExactly(s', ops[1..], p - 1);
      assert ops[1..][..p - 1] == ops[..p][1..] && ops[1..][p..] == ops[p + 1..];
    }
  }

  lemma NewHostIsUnknown(s: State)
    requires Agree(s)
    ensures s.next !in s.registered
  {
  }

  // ---------- the calls ----------

  /** One kind of registration at the service; its answers are given from outside. */
  class Service {
    var registered: set<nat>

    constructor ()
      ensures registered == {}
    {
      registered := {};
    }

    method Register(host: nat, answer: int) returns (code: int)
      modifies this
      ensures code == answer
      ensures registered == if answer == ERRCODE_SUCCESS then old(registered) + {host} else old(registered)
    {
      if answer == ERRCODE_SUCCESS {
        registered := registered + {host};
      }
      code := answer;
    }

    method Unregister(host: nat, answer: int) returns (code: int)
      modifies this
      ensures code == answer
      ensures registered == if answer == ERRCODE_SUCCESS then old(registered) - {host} else old(registered)
    {
      if answer == ERRCODE_SUCCESS {
        registered := registered - {host};
      }
      code := answer;
    }
  }

  class Callbacks {
    const service: Service
    var list: seq<Entry>
    var next: nat

    function View(): State
      reads this, service
    {
      State(list, service.registered, next)
    }

    constructor (service: Service)
      requires service.registered == {}
      ensures this.service == service && View() == INITIAL
    {
      this.service, list, next := service, [], 0;
    }

    /** `check` is the outcome of what a call checks before it registers, `answer` that of registering. */
    method Subscribe(callbackId: int, check: int, answer: int) returns (code: int)
      modifies this, service
      ensures code == if check != ERRCODE_SUCCESS then check else answer
      ensures View() == On(old(View()), callbackId, code)
    {
      var host := next;
      next := next + 1;
      if check != ERRCODE_SUCCESS {
        return check;
      }
      code := service.Register(host, answer);
      if code != ERRCODE_SUCCESS {
        return;
      }
      list := list + [Host(host, callbackId)];
    }

    /** Takes out the element at position i. */
    method Erase(i: nat)
      requires i < |list|
      modifies this`list
      ensures list == Without(old(list), i)
    {
      list := list[..i] + list[i + 1..];
    }

    method Unsubscribe(callbackId: int, proxyIsThere: bool, reply: nat -> int) returns (code: int)
      modifies this`list, service
      ensures !proxyIsThere ==> code == ERRCODE_MEMORY_ERROR && View() == old(View())
      ensures proxyIsThere ==>
        View() == Off(old(View()), Id(callbackId), reply) && code == OffCode(old(View()), Id(callbackId), reply)
    {
      hide Refusal, After, Position, Without, Off, OffCode;
      if !proxyIsThere {
        return ERRCODE_MEMORY_ERROR;
      }
      ghost var target := Id(callbackId);
      ghost var was, k := View(), Refusal(list, target, reply);
      ghost var seen := 0;
      NothingSeen(was, target);
      var i := 0;
      while i < |list|
        invariant seen <= k && i == Position(was, target, seen) <= |list|
        invariant View() == After(was, target, seen)
        decreases |list| - i
      {
        NextEntry(was, target, seen);
        if list[i].Null? {
          EntryGoes(was, target, seen);
          Erase(i);
          seen := seen + 1;
          continue;
        }
        if list[i].callbackId != callbackId {
          EntryStays(was, target, seen);
          i := i + 1;
          seen := seen + 1;
          continue;
        }
        var errorCode := service.Unregister(list[i].host, reply(list[i].host));
        if errorCode != ERRCODE_SUCCESS {
          OffStopsAt(was, target, reply, seen);
          return errorCode;
        }
        EntryGoes(was, target, seen);
        Erase(i);
        seen := seen + 1;
      }
      NextEntry(was, target, seen);
      OffStopsAt(was, target, reply, seen);
      return ERRCODE_SUCCESS;
    }

    method UnsubscribeAll(proxyIsThere: bool, reply: nat -> int) returns (code: int)
      modifies this`list, service
      ensures !proxyIsThere ==> code == ERRCODE_MEMORY_ERROR && View() == old(View())
      ensures proxyIsThere ==> View() == Off(old(View()), All, reply) && code == OffCode(old(View()), All, reply)
    {
      hide Refusal, After, Position, Without, Off, OffCode;
      if !proxyIsThere {
        return ERRCODE_MEMORY_ERROR;
      }
      ghost var target := All;
      ghost var was, k := View(), Refusal(list, target, reply);
      ghost var seen := 0;
      NothingSeen(was, target);
      var i := 0;
      while i < |list|
        invariant seen <= k && i == Position(was, target, seen) <= |list|
        invariant View() == After(was, target, seen)
        decreases |list| - i
      {
        NextEntry(was, target, seen);
        if list[i].Null? {
          EntryGoes(was, target, seen);
          Erase(i);
          seen := seen + 1;
          continue;
        }
        var errorCode := service.Unregister(list[i].host, reply(list[i].host));
        if errorCode != ERRCODE_SUCCESS {
          OffStopsAt(was, target, reply, seen);
          return errorCode;
        }
        EntryGoes(was, target, seen);
        Erase(i);
        seen := seen + 1;
      }
      NextEntry(was, target, seen);
      OffStopsAt(was, target, reply, seen);
      return ERRCODE_SUCCESS;
    }
  }

  /** Where an Off loop is after it has dealt with the first `seen` entries. */
  function After(s: State, target: Target, seen: nat): State
    requires seen <= |s.list|
  {
    s.(list := Kept(s.list[..seen], target) + s.list[seen..],
       registered := s.registered - Unsubscribed(s.list[..seen], target))
  }

  function Without(list: seq<Entry>, i: nat): (r: seq<Entry>)
    requires i < |list|
    ensures |r| == |list| - 1
  {
    list[..i] + list[i + 1..]
  }

  /** Where an Off loop stands before its next entry. */
  function Position(s: State, target: Target, seen: nat): nat
    requires seen <= |s.list|
  {
    |Kept(s.list[..seen], target)|
  }

  /** The next entry of the loop is the next one of the old list. */
  lemma NextEntry(s: State, target: Target, seen: nat)
    requires seen <= |s.list|
    ensures Position(s, target, seen) <= |After(s, target, seen).list|
    ensures Position(s, target, seen) < |After(s, target, seen).list| <==> seen < |s.list|
    ensures seen < |s.list| ==> After(s, target, seen).list[Position(s, target, seen)] == s.list[seen]
  {
  }

  lemma EntryGoes(s: State, target: Target, seen: nat)
    requires seen < |s.list| && (s.list[seen].Null? || Selected(s.list[seen], target))
    ensures
      var i := Position(s, target, seen);
      var now := After(s, target, seen);
      && i < |now.list|
      && Position(s, target, seen + 1) == i
      && After(s, target, seen + 1) == now.(list := Without(now.list, i),
           registered := now.registered - (if Selected(s.list[seen], target) then {s.list[seen].host} else {}))
  {
    assert s.list[..seen + 1][..seen] == s.list[..seen];
    assert s.list[..seen + 1] == s.list[..seen] + [s.list[seen]];
    UnsubscribedAppend(s.list[..seen], [s.list[seen]], target);
  }

  lemma EntryStays(s: State, target: Target, seen: nat)
    requires seen < |s.list| && s.list[seen].Host? && !Selected(s.list[seen], target)
    ensures Position(s, target, seen + 1) == Position(s, target, seen) + 1
    ensures After(s, target, seen + 1) == After(s, target, seen)
  {
    assert s.list[..seen + 1][..seen] == s.list[..seen];
    assert s.list[..seen + 1] == s.list[..seen] + [s.list[seen]];
    UnsubscribedAppend(s.list[..seen], [s.list[seen]], target);
  }

  /** The loop ends where the first refusal is, or at the end of the list. */
  lemma OffStopsAt(s: State, target: Target, reply: nat -> int, seen: nat)
    requires seen <= Refusal(s.list, target, reply)
    requires seen < |s.list| ==> Selected(s.list[seen], target) && reply(s.list[seen].host) != ERRCODE_SUCCESS
    ensures Off(s, target, reply) == After(s, target, seen)
    ensures OffCode(s, target, reply) == if seen < |s.list| then reply(s.list[seen].host) else ERRCODE_SUCCESS
  {
  }

  lemma NothingSeen(s: State, target: Target)
    ensures Position(s, target, 0) == 0 && After(s, target, 0) == s
  {
  }
}
