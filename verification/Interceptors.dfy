/**
  Starting and stopping an interceptor together with the factory interceptors that are
  bound to it (kedr_coi_interceptors.c).
*/
module Interceptors {
  import opened Options
  import opened Layers
  import opened Payloads

  datatype InterceptorState = Uninitialized | Initialized | Started

  /** What the environment does while something is started: the mutex, memory for arrays, the instrumentor. */
  datatype Outcome = Outcome(locked: bool, memory: nat, created: bool)

  /** How starting an interceptor by itself ends; to intercept everything is what factories do. */
  function StartStatus(s: PayloadsState, leaving: set<nat>, env: Outcome, all: bool): Status {
    if !env.locked then Interrupted
    else if env.memory < UseCost(s.operations, Fixed(Ready(s.elems, leaving)), all) then NoMemory
    else if all && |s.operations| != 1 then Crash
    else if !env.created then NoMemory
    else Done
  }

  /** Everything is there that starting an interceptor takes. */
  predicate CanStart(s: PayloadsState, leaving: set<nat>, env: Outcome, all: bool) {
    && env.locked && env.created && env.memory >= UseCost(s.operations, Fixed(Ready(s.elems, leaving)), all)
    && (all ==> |s.operations| == 1)
  }

  lemma StartsIf(s: PayloadsState, leaving: set<nat>, env: Outcome, all: bool)
    ensures var status := StartStatus(s, leaving, env, all);
      && (status == Done <==> CanStart(s, leaving, env, all))
      && (status == Interrupted <==> !env.locked)
      && (status == Crash ==> all && |s.operations| != 1)
      && status in {Done, Interrupted, NoMemory, Crash}
  {
  }

  lemma {:induction false} AllStartIf(fs: seq<PayloadsState>, leaving: set<nat>, fenv: seq<Outcome>, k: nat)
    requires k <= |fs| == |fenv|
    ensures FactoriesStatus(fs, leaving, fenv, k) == Done <==> forall i :: 0 <= i < k ==>
      CanStart(fs[i], leaving, fenv[i], true)
  {
    hide StartStatus, CanStart;
    if k > 0 {
      AllStartIf(fs, leaving, fenv, k - 1);
      StartsIf(fs[k - 1], leaving, fenv[k - 1], true);
    }
  }

  /** How starting the first `k` factories ends: as the first one that fails. */
  function FactoriesStatus(fs: seq<PayloadsState>, leaving: set<nat>, fenv: seq<Outcome>, k: nat): Status
    requires k <= |fs| == |fenv|
  {
    if k == 0 then Done
    else
      var before := FactoriesStatus(fs, leaving, fenv, k - 1);
      if before != Done then before else StartStatus(fs[k - 1], leaving, fenv[k - 1], true)
  }

  lemma {:induction false} StaysFailed(fs: seq<PayloadsState>, leaving: set<nat>, fenv: seq<Outcome>, k: nat, n: nat)
    requires k <= n <= |fs| == |fenv| && FactoriesStatus(fs, leaving, fenv, k) != Done
    ensures FactoriesStatus(fs, leaving, fenv, n) == FactoriesStatus(fs, leaving, fenv, k)
    decreases n - k
  {
    if k < n {
      StaysFailed(fs, leaving, fenv, k, n - 1);
    }
  }

  lemma NextStatus(fs: seq<PayloadsState>, leaving: set<nat>, fenv: seq<Outcome>, k: nat)
    requires k < |fs| == |fenv| && FactoriesStatus(fs, leaving, fenv, k) == Done
    ensures FactoriesStatus(fs, leaving, fenv, k + 1) == StartStatus(fs[k], leaving, fenv[k], true)
    ensures FactoriesStatus(fs, leaving, fenv, k + 1) != Done ==>
      FactoriesStatus(fs, leaving, fenv, |fs|) == FactoriesStatus(fs, leaving, fenv, k + 1)
  {
    if FactoriesStatus(fs, leaving, fenv, k + 1) != Done {
      StaysFailed(fs, leaving, fenv, k + 1, |fs|);
    }
  }

  lemma NoneStarted(fs: seq<PayloadsState>, leaving: set<nat>, fenv: seq<Outcome>, lists: seq<seq<Payload>>)
    requires |fs| == |fenv| && lists == []
    ensures FactoriesStatus(fs, leaving, fenv, 0) == Done && AllPins(lists) == multiset{}
  {
  }

  class FactoryInterceptor {
    var state: InterceptorState
    /** The replacements that the instrumentor works with. */
    var instrumentor: Option<Replacements>
    const payloads: OperationPayloads

    /** For a factory one operation at least has to be given. */
    constructor (intermediates: seq<Operation>)
      requires Distinct(intermediates) && intermediates != []
      ensures IsIdle(payloads.State()) && fresh(payloads)
      ensures SameOperations(intermediates, payloads.operations) && payloads.elems == []
    {
      state, instrumentor := Initialized, None;
      payloads := new OperationPayloads(intermediates);
    }

    ghost predicate IsIdle(s: PayloadsState)
      reads this, payloads
    {
      state == Initialized && instrumentor == None && payloads.Valid() && payloads.Idle() && payloads.State() == s
    }

    /** Started from an idle state with all its operations intercepted. */
    ghost predicate IsStarted(s: PayloadsState, leaving: set<nat>)
      reads this, payloads
    {
      && state == Started && instrumentor == Some(payloads.replacements) && payloads.Valid() && payloads.InUse(true)
      && payloads.elems == Ready(s.elems, leaving) && SameOperations(s.operations, payloads.operations)
    }

    method Start(ms: Modules, leaving: set<nat>, env: Outcome) returns (status: Status)
      requires IsIdle(payloads.State())
      modifies this, payloads, ms
      ensures status == Done ==>
        IsStarted(old(payloads.State()), leaving) && ms.pins == old(ms.pins) + PinsOf(payloads.used)
      ensures status != Done && status != Crash ==> IsIdle(old(payloads.State())) && ms.pins == old(ms.pins)
      ensures status == StartStatus(old(payloads.State()), leaving, env, true)
      ensures status == Done <==> CanStart(old(payloads.State()), leaving, env, true)
    {
      StartsIf(payloads.State(), leaving, env, true);
      status := payloads.Use(true, ms, leaving, env.locked, env.memory);
      if status != Done {
        return;
      }
      if !env.created {
        PinsBack(old(ms.pins), payloads.used);
        payloads.Unuse(ms);
        IdleAgain(old(payloads.State()), payloads.State(), leaving);
        return NoMemory;
      }
      instrumentor := Some(payloads.replacements);
      state := Started;
    }

    method Stop(ms: Modules, ghost s: PayloadsState, ghost leaving: set<nat>)
      requires IsStarted(s, leaving) && WasIdle(s) && PinsOf(payloads.used) <= ms.pins
      modifies this, payloads, ms
      ensures IsIdle(s) && ms.pins == old(ms.pins) - PinsOf(old(payloads.used))
    {
      state := Initialized;
      instrumentor := None;
      payloads.Unuse(ms);
      IdleAgain(s, payloads.State(), leaving);
    }
  }

  ghost predicate WasIdle(s: PayloadsState) {
    !s.isUsed && s.used == [] && s.replacements == [] && s.elems == Released(s.elems) && forall i ::
      0 <= i < |s.operations| ==> Blank(s.operations[i])
  }

  /** Used and not used any more: just as before. */
  lemma IdleAgain(s1: PayloadsState, s2: PayloadsState, leaving: set<nat>)
    requires WasIdle(s1) && WasIdle(s2) && SameOperations(s1.operations, s2.operations)
    requires s2.elems == Released(Ready(s1.elems, leaving))
    ensures s1 == s2
  {
    hide Blank;
    ReadyReleased(s1.elems, leaving);
    BlankSame(s1.operations, s2.operations);
  }

  /** The references that some lists of payloads hold. */
  function AllPins(lists: seq<seq<Payload>>): multiset<nat> {
    if lists == [] then multiset{} else AllPins(lists[..|lists| - 1]) + PinsOf(lists[|lists| - 1])
  }

  lemma AllPinsSnoc(lists: seq<seq<Payload>>, used: seq<Payload>)
    ensures AllPins(lists + [used]) == AllPins(lists) + PinsOf(used)
  {
    assert (lists + [used])[..|lists|] == lists;
  }

  class Interceptor {
    var state: InterceptorState
    var instrumentor: Option<Replacements>
    const payloads: OperationPayloads
    var factories: seq<FactoryInterceptor>

    constructor (intermediates: seq<Operation>)
      requires Distinct(intermediates)
      ensures IsIdle(payloads.State(), []) && factories == [] && fresh(payloads)
      ensures SameOperations(intermediates, payloads.operations) && payloads.elems == []
    {
      state, instrumentor, factories := Initialized, None, [];
      payloads := new OperationPayloads(intermediates);
    }

    /** A factory interceptor is bound to an interceptor that is not started. */
    method CreateFactory(intermediates: seq<Operation>) returns (f: FactoryInterceptor)
      requires IsIdle(payloads.State(), FactoryStates()) && Distinct(intermediates) && intermediates != []
      modifies this`factories
      ensures factories == old(factories) + [f] && fresh(f) && fresh(f.payloads)
      ensures SameOperations(intermediates, f.payloads.operations) && f.payloads.elems == []
      ensures IsIdle(old(payloads.State()), old(FactoryStates()) + [f.payloads.State()])
    {
      f := new FactoryInterceptor(intermediates);
      factories := factories + [f];
    }

    ghost function Objects(): set<object>
      reads this
    {
      {this, payloads} + (set f | f in factories) + (set f | f in factories :: f.payloads)
    }

    /** The factories and their payloads are different objects. */
    ghost predicate Separate()
      reads this
    {
      && (forall i, j :: 0 <= i < j < |factories| ==>
        factories[i] != factories[j] && factories[i].payloads != factories[j].payloads)
      && (forall f :: f in factories ==> f.payloads != payloads)
    }

    ghost function FactoryStates(): seq<PayloadsState>
      reads this, factories, set f | f in factories :: f.payloads
    {
      seq(|factories|, i requires 0 <= i < |factories| reads this, factories, set f | f in factories ::
        f.payloads => factories[i].payloads.State())
    }

    ghost predicate IsIdle(s: PayloadsState, fs: seq<PayloadsState>)
      reads Objects()
    {
      && Separate() && state == Initialized && instrumentor == None && payloads.Valid() && payloads.Idle() &&
        payloads.State() == s
      && |fs| == |factories| && forall i :: 0 <= i < |factories| ==> factories[i].IsIdle(fs[i])
    }

    ghost predicate IsStarted(s: PayloadsState, fs: seq<PayloadsState>, leaving: set<nat>)
      reads Objects()
    {
      && Separate() && OwnStarted(s, leaving)
      && |fs| == |factories| && forall i :: 0 <= i < |factories| ==>
        factories[i].IsStarted(fs[i], leaving) && WasIdle(fs[i])
    }

    ghost predicate OwnStarted(s: PayloadsState, leaving: set<nat>)
      reads this, payloads
    {
      && state == Started && instrumentor == Some(payloads.replacements) && payloads.Valid() &&
        payloads.InUse(false) && WasIdle(s)
      && payloads.elems == Ready(s.elems, leaving) && SameOperations(s.operations, payloads.operations)
    }

    /** The lists of payloads in use by the factories. */
    ghost function UsedLists(): seq<seq<Payload>>
      reads this, factories, set f | f in factories :: f.payloads
    {
      seq(|factories|, i requires 0 <= i < |factories| reads this, factories, set f | f in factories ::
        f.payloads => factories[i].payloads.used)
    }

    /** The first `k` factories are started, and so is the interceptor itself. */
    ghost predicate Upto(k: nat, s: PayloadsState, fs: seq<PayloadsState>, leaving: set<nat>, lists: seq<seq<Payload>>)
      reads Objects()
    {
      && Separate() && OwnStarted(s, leaving) && k <= |factories| == |fs| && |lists| == k
      && (forall i :: 0 <= i < |factories| ==> WasIdle(fs[i]))
      && (forall i :: 0 <= i < k ==> factories[i].IsStarted(fs[i], leaving) && factories[i].payloads.used == lists[i])
      && (forall i :: k <= i < |factories| ==> factories[i].IsIdle(fs[i]))
    }

    /**
      Start the interceptor and then its factories in order. If any of them cannot start,
      those that did are stopped again and everything is as it was: the state of all of them,
      handlers, flags and the references to modules.
    */
    method Start(ms: Modules, leaving: set<nat>, env: Outcome, fenv: seq<Outcome>) returns (status: Status)
      requires IsIdle(payloads.State(), FactoryStates()) && |fenv| == |factories|
      modifies this`state, this`instrumentor, payloads, factories, set f | f in factories :: f.payloads, ms
      ensures status == Done ==> IsStarted(old(payloads.State()), old(FactoryStates()), leaving)
      ensures status == Done ==> ms.pins == old(ms.pins) + PinsOf(payloads.used) + AllPins(UsedLists())
      ensures status != Done && status != Crash ==>
        IsIdle(old(payloads.State()), old(FactoryStates())) && ms.pins == old(ms.pins)
      ensures var own := StartStatus(old(payloads.State()), leaving, env, false);
        status == if own != Done then own else FactoriesStatus(old(FactoryStates()), leaving, fenv, |fenv|)
      ensures status == Done <==>
        && CanStart(old(payloads.State()), leaving, env, false)
        && forall i :: 0 <= i < |factories| ==> CanStart(old(FactoryStates())[i], leaving, fenv[i], true)
      ensures status == Crash ==> exists i :: 0 <= i < |factories| && |old(FactoryStates())[i].operations| != 1
      ensures status == Done ==> forall i :: 0 <= i < |factories| ==> |old(FactoryStates())[i].operations| == 1
    {
      hide Upto, From, OwnStarted, IsIdle, IsStarted, Separate, PinsOf, FactoryInterceptor.IsIdle,
        FactoryInterceptor.IsStarted, OperationPayloads.Valid, OperationPayloads.Idle;
      hide StartStatus, CanStart, FactoriesStatus;
      ghost var s, fs := payloads.State(), FactoryStates();
      StartsIf(s, leaving, env, false);
      AllStartIf(fs, leaving, fenv, |fenv|);
      status := StartFirst(ms, leaving, env);
      if status != Done {
        return;
      }
      status := StartFactories(ms, leaving, fenv, s, fs, old(ms.pins));
    }

    /** Start the factories in order; go back if one cannot be started. */
    method StartFactories(ms: Modules, leaving: set<nat>, fenv: seq<Outcome>, ghost s: PayloadsState,
        ghost fs: seq<PayloadsState>,
                          ghost pins: multiset<nat>) returns (status: Status)
      requires Upto(0, s, fs, leaving, []) && |fenv| == |factories| == |fs| && ms.pins == pins + PinsOf(payloads.used)
      modifies this`state, this`instrumentor, payloads, factories, set f | f in factories :: f.payloads, ms
      ensures status == Done ==> IsStarted(s, fs, leaving) && forall i :: 0 <= i < |fs| ==> |fs[i].operations| == 1
      ensures status == Done ==> ms.pins == pins + PinsOf(payloads.used) + AllPins(UsedLists())
      ensures status != Done && status != Crash ==> IsIdle(s, fs) && ms.pins == pins
      ensures status == FactoriesStatus(fs, leaving, fenv, |fs|)
      ensures status == Crash ==> exists i :: 0 <= i < |fs| && |fs[i].operations| != 1
    {
      hide StartStatus, FactoriesStatus, AllPins, FactoryStates, UsedLists;
      hide Upto, From, OwnStarted, IsIdle, IsStarted, Separate, PinsOf, FactoryInterceptor.IsIdle,
        FactoryInterceptor.IsStarted, OperationPayloads.Valid, OperationPayloads.Idle;
      status := Done;
      ghost var lists: seq<seq<Payload>> := [];
      NoneStarted(fs, leaving, fenv, lists);
      for k := 0 to |factories|
        invariant Upto(k, s, fs, leaving, lists)
        invariant ms.pins == pins + PinsOf(payloads.used) + AllPins(lists)
        invariant status == Done == FactoriesStatus(fs, leaving, fenv, k)
        invariant forall i :: 0 <= i < k ==> |fs[i].operations| == 1
      {
        status := StartNext(k, ms, leaving, fenv[k], s, fs, lists);
        NextStatus(fs, leaving, fenv, k);
        if status == Crash {
          return;
        }
        if status != Done {
          Rollback(k, ms, leaving, s, fs, lists, pins);
          return;
        }
        AllPinsSnoc(lists, factories[k].payloads.used);
        lists := lists + [factories[k].payloads.used];
      }
      AllStarted(s, fs, leaving, lists);
    }

    /** The interceptor itself is started; its factories are not yet. */
    method StartFirst(ms: Modules, leaving: set<nat>, env: Outcome) returns (status: Status)
      requires IsIdle(payloads.State(), FactoryStates())
      modifies this`state, this`instrumentor, payloads, ms
      ensures status == StartStatus(old(payloads.State()), leaving, env, false)
      ensures status == Done ==> Upto(0, old(payloads.State()), old(FactoryStates()), leaving, [])
      ensures status == Done ==> ms.pins == old(ms.pins) + PinsOf(payloads.used)
      ensures status != Done ==>
        status != Crash && IsIdle(old(payloads.State()), old(FactoryStates())) && ms.pins == old(ms.pins)
    {
      hide OwnStarted, PinsOf, OperationPayloads.Valid;
      status := StartOwn(ms, leaving, env);
    }

    lemma AllStarted(s: PayloadsState, fs: seq<PayloadsState>, leaving: set<nat>, lists: seq<seq<Payload>>)
      requires Upto(|factories|, s, fs, leaving, lists)
      ensures IsStarted(s, fs, leaving) && UsedLists() == lists
    {
    }

    method StartOwn(ms: Modules, leaving: set<nat>, env: Outcome) returns (status: Status)
      requires state == Initialized && instrumentor == None && payloads.Valid() && payloads.Idle()
      modifies this`state, this`instrumentor, payloads, ms
      ensures status == Done ==>
        OwnStarted(old(payloads.State()), leaving) && ms.pins == old(ms.pins) + PinsOf(payloads.used)
      ensures status != Done ==> state == Initialized && instrumentor == None && payloads.Valid() && payloads.Idle()
      ensures status != Done ==> payloads.State() == old(payloads.State()) && ms.pins == old(ms.pins)
      ensures status == StartStatus(old(payloads.State()), leaving, env, false)
    {
      ghost var s := payloads.State();
      status := payloads.Use(false, ms, leaving, env.locked, env.memory);
      if status != Done {
        return;
      }
      if !env.created {
        PinsBack(old(ms.pins), payloads.used);
        payloads.Unuse(ms);
        IdleAgain(s, payloads.State(), leaving);
        return NoMemory;
      }
      instrumentor := Some(payloads.replacements);
      state := Started;
    }

    method StartNext(k: nat, ms: Modules, leaving: set<nat>, env: Outcome, ghost s: PayloadsState,
        ghost fs: seq<PayloadsState>,
                     ghost lists: seq<seq<Payload>>) returns (status: Status)
      requires Upto(k, s, fs, leaving, lists) && k < |factories|
      modifies factories[k], factories[k].payloads, ms
      ensures status == Done ==> Upto(k + 1, s, fs, leaving, lists + [factories[k].payloads.used])
      ensures status == Done ==> ms.pins == old(ms.pins) + PinsOf(factories[k].payloads.used) && |fs[k].operations| == 1
      ensures status != Done && status != Crash ==> Upto(k, s, fs, leaving, lists) && ms.pins == old(ms.pins)
      ensures status == StartStatus(fs[k], leaving, env, true) && (status == Crash ==> |fs[k].operations| != 1)
      ensures payloads.used == old(payloads.used)
    {
      hide FactoryInterceptor.IsStarted, OwnStarted, WasIdle, OperationPayloads.Valid, OperationPayloads.Idle, PinsOf;
      status := factories[k].Start(ms, leaving, env);
    }

    /** The last of the factories that are started. */
    method StopLast(k: nat, ms: Modules, ghost leaving: set<nat>, ghost s: PayloadsState, ghost fs: seq<PayloadsState>,
                    ghost lists: seq<seq<Payload>>)
      requires Upto(k + 1, s, fs, leaving, lists) && PinsOf(lists[k]) <= ms.pins
      modifies factories[k], factories[k].payloads, ms
      ensures Upto(k, s, fs, leaving, lists[..k]) && ms.pins == old(ms.pins) - PinsOf(lists[k])
      ensures payloads.used == old(payloads.used)
    {
      hide FactoryInterceptor.IsStarted, FactoryInterceptor.IsIdle, OwnStarted, WasIdle, PinsOf;
      factories[k].Stop(ms, fs[k], leaving);
    }

    /** The factories from `k` on are still started. */
    ghost predicate From(k: nat, s: PayloadsState, fs: seq<PayloadsState>, leaving: set<nat>, lists: seq<seq<Payload>>)
      reads Objects()
    {
      && Separate() && OwnStarted(s, leaving) && k <= |factories| == |fs| == |lists|
      && (forall i :: 0 <= i < k ==> factories[i].IsIdle(fs[i]))
      && (forall i :: k <= i < |factories| ==>
        factories[i].IsStarted(fs[i], leaving) && WasIdle(fs[i]) && factories[i].payloads.used == lists[i])
    }

    method StopNext(k: nat, ms: Modules, ghost leaving: set<nat>, ghost s: PayloadsState, ghost fs: seq<PayloadsState>,
                    ghost lists: seq<seq<Payload>>)
      requires From(k, s, fs, leaving, lists) && k < |factories| && PinsOf(lists[k]) <= ms.pins
      modifies factories[k], factories[k].payloads, ms
      ensures From(k + 1, s, fs, leaving, lists) && ms.pins == old(ms.pins) - PinsOf(lists[k])
      ensures payloads.used == old(payloads.used)
    {
      hide FactoryInterceptor.IsStarted, FactoryInterceptor.IsIdle, OwnStarted, WasIdle, PinsOf;
      factories[k].Stop(ms, fs[k], leaving);
    }

    /** Stop the factories before the one that failed, the last of them first, and then the interceptor. */
    method Rollback(n: nat, ms: Modules, ghost leaving: set<nat>, ghost s: PayloadsState, ghost fs: seq<PayloadsState>,
                    ghost lists0: seq<seq<Payload>>, ghost pins: multiset<nat>)
      requires Upto(n, s, fs, leaving, lists0) && ms.pins == pins + PinsOf(payloads.used) + AllPins(lists0)
      modifies this`state, this`instrumentor, payloads, factories, set f | f in factories :: f.payloads, ms
      ensures IsIdle(s, fs) && ms.pins == pins
    {
      hide Upto, OwnStarted, IsIdle, PinsOf, AllPins, FactoryInterceptor.IsIdle, FactoryInterceptor.IsStarted,
        FactoriesIdle;
      var k: nat := n;
      UptoFacts(n, s, fs, leaving, lists0);
      ghost var lists := lists0;
      while k > 0
        invariant Upto(k, s, fs, leaving, lists)
        invariant ms.pins == pins + PinsOf(payloads.used) + AllPins(lists)
      {
        UptoFacts(k, s, fs, leaving, lists);
        k := k - 1;
        StopLast(k, ms, leaving, s, fs, lists);
        lists := lists[..k];
      }
      UptoFacts(0, s, fs, leaving, lists);
      Finish(ms, leaving, s, fs);
    }

    lemma UptoFacts(k: nat, s: PayloadsState, fs: seq<PayloadsState>, leaving: set<nat>, lists: seq<seq<Payload>>)
      requires Upto(k, s, fs, leaving, lists)
      ensures OwnStarted(s, leaving) && k <= |factories| && |lists| == k && (k == 0 ==> FactoriesIdle(fs))
      ensures AllPins(lists) == if k == 0 then multiset{} else AllPins(lists[..k - 1]) + PinsOf(lists[k - 1])
    {
      hide PinsOf, OwnStarted, WasIdle, FactoryInterceptor.IsIdle, FactoryInterceptor.IsStarted;
    }

    lemma FromFacts(k: nat, s: PayloadsState, fs: seq<PayloadsState>, leaving: set<nat>, lists: seq<seq<Payload>>)
      requires From(k, s, fs, leaving, lists)
      ensures OwnStarted(s, leaving) && k <= |factories| == |lists| && (k == |factories| ==> FactoriesIdle(fs))
      ensures k < |lists| ==> AllPins(lists[k..]) == PinsOf(lists[k]) + AllPins(lists[k + 1..])
      ensures k == |lists| ==> AllPins(lists[k..]) == multiset{}
    {
      if k < |lists| {
        AllPinsFirst(lists[k..]);
        assert lists[k..][1..] == lists[k + 1..];
      }
    }

    ghost predicate FactoriesIdle(fs: seq<PayloadsState>)
      reads Objects()
    {
      Separate() && |fs| == |factories| && forall i :: 0 <= i < |factories| ==> factories[i].IsIdle(fs[i])
    }

    /** All factories are stopped; the interceptor is the last. */
    method Finish(ms: Modules, ghost leaving: set<nat>, ghost s: PayloadsState, ghost fs: seq<PayloadsState>)
      requires OwnStarted(s, leaving) && FactoriesIdle(fs) && PinsOf(payloads.used) <= ms.pins
      modifies this`state, this`instrumentor, payloads, ms
      ensures IsIdle(s, fs) && ms.pins == old(ms.pins) - PinsOf(old(payloads.used))
    {
      hide OwnStarted, PinsOf, FactoryInterceptor.IsIdle;
      StopOwn(ms, leaving, s);
    }

    method StopOwn(ms: Modules, ghost leaving: set<nat>, ghost s: PayloadsState)
      requires OwnStarted(s, leaving) && PinsOf(payloads.used) <= ms.pins
      modifies this`state, this`instrumentor, payloads, ms
      ensures state == Initialized && instrumentor == None && payloads.Valid() && payloads.Idle()
      ensures payloads.State() == s
      ensures ms.pins == old(ms.pins) - PinsOf(old(payloads.used))
    {
      state := Initialized;
      instrumentor := None;
      payloads.Unuse(ms);
      IdleAgain(s, payloads.State(), leaving);
    }

    /** Stop the factories in order and then the interceptor: everything is as before the start. */
    method Stop(ms: Modules, ghost leaving: set<nat>, ghost s: PayloadsState, ghost fs: seq<PayloadsState>,
        ghost pins: multiset<nat>)
      requires IsStarted(s, fs, leaving) && ms.pins == pins + PinsOf(payloads.used) + AllPins(UsedLists())
      modifies this`state, this`instrumentor, payloads, factories, set f | f in factories :: f.payloads, ms
      ensures IsIdle(s, fs) && ms.pins == pins
    {
      hide Upto, From, OwnStarted, IsIdle, IsStarted, Separate, PinsOf, AllPins, FactoryInterceptor.IsIdle,
        FactoryInterceptor.IsStarted, OperationPayloads.Valid, OperationPayloads.Idle;
      ghost var lists := UsedLists();
      StartedFrom(s, fs, leaving);
      assert lists[0..] == lists;
      for k := 0 to |factories|
        invariant From(k, s, fs, leaving, lists)
        invariant ms.pins == pins + PinsOf(payloads.used) + AllPins(lists[k..])
      {
        FromFacts(k, s, fs, leaving, lists);
        StopNext(k, ms, leaving, s, fs, lists);
      }
      FromFacts(|factories|, s, fs, leaving, lists);
      Finish(ms, leaving, s, fs);
    }

    lemma StartedFrom(s: PayloadsState, fs: seq<PayloadsState>, leaving: set<nat>)
      requires IsStarted(s, fs, leaving)
      ensures From(0, s, fs, leaving, UsedLists())
    {
    }
  }

  /** A factory made with two operations, which is allowed, cannot be started, whatever memory there is. */
  method StartFactoryOfTwo(memory: nat) returns (status: Status)
    ensures memory > 0 ==> status == Crash
  {
    var two := [Operation(0, 98, 0, false, NO_USE, NO_USE), Operation(8, 99, 0, false, NO_USE, NO_USE)];
    var f := new FactoryInterceptor(two);
    var ms := new Modules();
    assert Ready(f.payloads.elems, {}) == [];
    assert UseCost(f.payloads.operations, [], true) == 1;
    status := f.Start(ms, {}, Outcome(true, memory, true));
  }

  lemma {:induction false} AllPinsFirst(lists: seq<seq<Payload>>)
    requires lists != []
    ensures AllPins(lists) == PinsOf(lists[0]) + AllPins(lists[1..])
  {
    var n := |lists| - 1;
    if n > 0 {
      AllPinsFirst(lists[..n]);
      assert lists[..n][1..] == lists[1..][..n - 1];
    } else {
      assert lists[..n] == [];
    }
  }
}
