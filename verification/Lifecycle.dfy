/**
 Component lifecycle: registration, start with reverse rollback, stop.

 The lifecycle log is read as a stack: a successful Start pushes its component, and a
 Stop must pop the component on top.
 */
module Lifecycle {
  import opened Options
  import opened GoStrings
  import opened Components

  datatype LifecycleEvent = Started(c: Component) | StartFailed(c: Component) | Stopped(c: Component)

  /** `started` is the list a later stop works on; `stopDone` is the consumed sync.Once. */
  datatype Run = Run(started: seq<Component>, stopDone: bool, log: seq<LifecycleEvent>)

  const FRESH := Run([], false, [])

  /** A start in which the components before `failAt` start and the one at `failAt`, if any, does not; or a stop. */
  datatype Call = Start(order: seq<Component>, failAt: nat) | Stop

  function StartEvents(order: seq<Component>): seq<LifecycleEvent> {
    if order == [] then []
    else StartEvents(order[..|order| - 1]) + [Started(order[|order| - 1])]
  }

  /** Stops in reverse order. */
  function StopEvents(started: seq<Component>): seq<LifecycleEvent> {
    if started == [] then []
    else [Stopped(started[|started| - 1])] + StopEvents(started[..|started| - 1])
  }

  function Called(r: Run, call: Call): Run {
    match call
    case Start(order, failAt) =>
      if order == [] then r
      else if failAt >= |order| then r.(started := order, log := r.log + StartEvents(order))
      else r.(log := r.log + StartEvents(order[..failAt]) + [StartFailed(order[failAt])] + StopEvents(order[..failAt]))
    case Stop =>
      if r.stopDone then r else r.(stopDone := true, log := r.log + StopEvents(r.started))
  }

  function CalledAll(calls: seq<Call>): Run {
    if calls == [] then FRESH else Called(CalledAll(calls[..|calls| - 1]), calls[|calls| - 1])
  }

  // --------------------------------------------------------------- the application

  datatype AddError = NameRequired | AlreadyRegistered | CheckRegistered

  class App {
    var components: seq<Component>
    var checks: set<string>
    var run: Run

    constructor ()
      ensures components == [] && checks == {} && run == FRESH
    {
      components, checks, run := [], {}, FRESH;
    }

    /** AddComponent keeps names unique, which the ordering relies on. */
    method AddComponent(c: Component, readyAware: bool) returns (error: Option<AddError>)
      requires UniqueNames(components)
      modifies this`components, this`checks
      ensures UniqueNames(components)
      ensures error == if TrimSpace(c.name) == "" then Some(NameRequired)
                       else if exists e :: e in old(components) && e.name == c.name then Some(AlreadyRegistered)
                       else if readyAware && ("component:" + TrimSpace(c.name)) in old(checks) then Some(CheckRegistered)
                       else None
      ensures components == if error.None? then old(components) + [c] else old(components)
      ensures checks == if error.None? && readyAware then old(checks) + {"component:" + TrimSpace(c.name)} else old(checks)
    {
      if TrimSpace(c.name) == "" {
        return Some(NameRequired);
      }
      for i := 0 to |components|
        invariant forall k :: 0 <= k < i ==> components[k].name != c.name
      {
        if components[i].name == c.name {
          assert components[i] in components;
          return Some(AlreadyRegistered);
        }
      }
      if readyAware {
        if ("component:" + TrimSpace(c.name)) in checks {
          return Some(CheckRegistered);
        }
        checks := checks + {"component:" + TrimSpace(c.name)};
      }
      components := components + [c];
      return None;
    }

    /** Whether a component's Start succeeds is up to the component. */
    method StartComponents(succeeds: Component -> bool) returns (ok: bool, order: seq<Component>, failAt: nat)
      requires UniqueNames(components)
      modifies this`run
      ensures run == Called(old(run), Start(order, failAt)) && DepsBefore(order)
      ensures order != [] ==> multiset(order) == multiset(components)
      ensures failAt <= |order| && (forall i :: 0 <= i < failAt ==> succeeds(order[i]))
      ensures failAt < |order| ==> !succeeds(order[failAt])
      ensures ok <==> components == [] || (order != [] && failAt == |order|)
      ensures order == [] && components != [] ==>
                !(AllKnown(ByName(components)) && Acyclic(ByName(components)))
    {
      if |components| == 0 {
        return true, [], 0;
      }
      var outcome := OrderComponents(components);
      if outcome.Failed? {
        return false, [], 0;
      }
      order := outcome.components;
      assert |multiset(order)| == |multiset(components)|;
      ok, failAt := StartInOrder(order, succeeds);
    }

    /** The start loop: roll back at the first failure, otherwise remember the list for the stop. */
    method StartInOrder(order: seq<Component>, succeeds: Component -> bool) returns (ok: bool, failAt: nat)
      requires order != []
      modifies this`run
      ensures run == Called(old(run), Start(order, failAt))
      ensures failAt <= |order| && (forall i :: 0 <= i < failAt ==> succeeds(order[i]))
      ensures failAt < |order| ==> !succeeds(order[failAt])
      ensures ok <==> failAt == |order|
    {
      failAt := 0;
      while failAt < |order|
        invariant failAt <= |order| && (forall i :: 0 <= i < failAt ==> succeeds(order[i]))
        invariant run == old(run).(log := old(run).log + StartEvents(order[..failAt]))
      {
        if !succeeds(order[failAt]) {
          run := run.(log := run.log + [StartFailed(order[failAt])]);
          StopAll(order[..failAt]);
          return false, failAt;
        }
        assert order[..failAt + 1][..failAt] == order[..failAt];
        run := run.(log := run.log + [Started(order[failAt])]);
        failAt := failAt + 1;
      }
      assert order[..|order|] == order;
      run := run.(started := order);
      return true, failAt;
    }

    method StopAll(started: seq<Component>)
      modifies this`run
      ensures run == old(run).(log := old(run).log + StopEvents(started))
    {
      var i: nat := |started|;
      assert started[..i] == started;
      while i > 0
        invariant i <= |started|
        invariant run == old(run).(log := run.log)
        invariant run.log + StopEvents(started[..i]) == old(run).log + StopEvents(started)
      {
        i := i - 1;
        assert started[..i + 1][..i] == started[..i];
        assert run.log + StopEvents(started[..i + 1]) == run.log + [Stopped(started[i])] + StopEvents(started[..i]);
        run := run.(log := run.log + [Stopped(started[i])]);
      }
      assert run.log + [] == run.log;
    }

    method StopComponents()
      modifies this`run
      ensures run == Called(old(run), Stop)
    {
      if !run.stopDone {
        run := run.(stopDone := true);
        StopAll(run.started);
      }
    }
  }

  // ----------------------------------------------------------------- the guarantees

  /** The components started and not yet stopped, or None when a Stop hit another component than the last started. */
  function Running(log: seq<LifecycleEvent>): Option<seq<Component>> {
    if log == [] then Some([])
    else
      var before := Running(log[..|log| - 1]);
      match log[|log| - 1]
      case StartFailed(_) => before
      case Started(c) => if before.Some? then Some(before.value + [c]) else None
      case Stopped(c) =>
        if before.Some? && before.value != [] && before.value[|before.value| - 1] == c
        then Some(before.value[..|before.value| - 1]) else None
  }

  ghost predicate Closed(running: seq<Component>) {
    forall c, d :: c in running && Needs(c, d) ==> exists e :: e in running && e.name == d
  }

  /** At every moment Stops went in reverse start order and every running component's dependencies run. */
  ghost predicate Safe(log: seq<LifecycleEvent>) {
    forall k :: 0 <= k <= |log| ==> Running(log[..k]).Some? && Closed(Running(log[..k]).value)
  }

  lemma SafeNext(log: seq<LifecycleEvent>, e: LifecycleEvent)
    requires Safe(log) && Running(log + [e]).Some? && Closed(Running(log + [e]).value)
    ensures Safe(log + [e])
  {
    var all := log + [e];
    forall k | 0 <= k <= |all| ensures Running(all[..k]).Some? && Closed(Running(all[..k]).value) {
      if k <= |log| {
        assert all[..k] == log[..k];
      } else {
        assert all[..k] == all;
      }
    }
  }

  lemma RunningNext(log: seq<LifecycleEvent>, e: LifecycleEvent)
    ensures (log + [e])[..|log + [e]| - 1] == log && (log + [e])[|log + [e]| - 1] == e
  {
  }

  lemma PrefixClosed(base: seq<Component>, order: seq<Component>, k: nat)
    requires Closed(base) && DepsBefore(order) && k <= |order|
    ensures Closed(base + order[..k])
  {
  }

  lemma {:induction false} StartingIsSafe(log: seq<LifecycleEvent>, base: seq<Component>, order: seq<Component>, k: nat)
    requires Safe(log) && Running(log) == Some(base) && Closed(base) && DepsBefore(order) && k <= |order|
    ensures Safe(log + StartEvents(order[..k])) && Running(log + StartEvents(order[..k])) == Some(base + order[..k])
  {
    if k == 0 {
      assert log + [] == log && base + [] == base;
    } else {
      assert order[..k][..k - 1] == order[..k - 1];
      StartingIsSafe(log, base, order, k - 1);
      var before := log + StartEvents(order[..k - 1]);
      assert log + StartEvents(order[..k]) == before + [Started(order[k - 1])];
      RunningNext(before, Started(order[k - 1]));
      assert base + order[..k - 1] + [order[k - 1]] == base + order[..k];
      PrefixClosed(base, order, k);
      SafeNext(before, Started(order[k - 1]));
    }
  }

  lemma {:induction false} StoppingIsSafe(log: seq<LifecycleEvent>, base: seq<Component>, order: seq<Component>, k: nat)
    requires k <= |order| && Safe(log) && Running(log) == Some(base + order[..k]) && Closed(base) && DepsBefore(order)
    ensures Safe(log + StopEvents(order[..k])) && Running(log + StopEvents(order[..k])) == Some(base)
    decreases k
  {
    if k == 0 {
      assert log + [] == log && base + [] == base;
    } else {
      var e := Stopped(order[k - 1]);
      assert order[..k][..k - 1] == order[..k - 1];
      var running := base + order[..k];
      RunningNext(log, e);
      assert running[|running| - 1] == order[k - 1] && running[..|running| - 1] == base + order[..k - 1];
      PrefixClosed(base, order, k - 1);
      SafeNext(log, e);
      StoppingIsSafe(log + [e], base, order, k - 1);
      assert log + StopEvents(order[..k]) == log + [e] + StopEvents(order[..k - 1]);
    }
  }

  predicate IsFullStart(call: Call) {
    call.Start? && call.order != [] && call.failAt >= |call.order|
  }

  /** While no stop has run, the last started list is on top of the running stack, over a closed rest. */
  ghost predicate RunInv(r: Run) {
    && Safe(r.log) && Running(r.log).Some? && DepsBefore(r.started)
    && (!r.stopDone ==> exists base :: Closed(base) && Running(r.log) == Some(base + r.started))
  }

  lemma CallKeeps(r: Run, call: Call)
    requires RunInv(r) && (call.Start? ==> DepsBefore(call.order))
    ensures RunInv(Called(r, call))
    ensures IsFullStart(call) ==> Running(Called(r, call).log) == Some(Running(r.log).value + call.order)
    ensures call.Start? && !IsFullStart(call) ==> Running(Called(r, call).log) == Running(r.log)
  {
    assert r.log[..|r.log|] == r.log;
    var running := Running(r.log).value;
    assert running + [] == running;
    match call
    case Start(order, failAt) =>
      if order != [] {
        var k := if failAt >= |order| then |order| else failAt;
        assert order[..|order|] == order;
        StartingIsSafe(r.log, running, order, k);
        var log := r.log + StartEvents(order[..k]);
        if failAt < |order| {
          RunningNext(log, StartFailed(order[failAt]));
          PrefixClosed(running, order, k);
          SafeNext(log, StartFailed(order[failAt]));
          StoppingIsSafe(log + [StartFailed(order[failAt])], running, order, k);
        }
      }
    case Stop =>
      if !r.stopDone {
        var base :| Closed(base) && Running(r.log) == Some(base + r.started);
        assert r.started[..|r.started|] == r.started;
        StoppingIsSafe(r.log, base, r.started, |r.started|);
      }
  }

  /**
   Lifecycle safety, for any sequence of starts (complete or failed) and stops: at every
   moment Stops hit running components in reverse start order, and the running
   components are closed under dependencies.
   */
  lemma {:induction false} LifecycleIsSafe(calls: seq<Call>)
    requires forall i :: 0 <= i < |calls| && calls[i].Start? ==> DepsBefore(calls[i].order)
    ensures Safe(CalledAll(calls).log) && RunInv(CalledAll(calls))
  {
    if calls == [] {
      assert [] + FRESH.started == [];
      assert Running(FRESH.log) == Some([] + FRESH.started);
      assert Closed([]);
    } else {
      LifecycleIsSafe(calls[..|calls| - 1]);
      CallKeeps(CalledAll(calls[..|calls| - 1]), calls[|calls| - 1]);
    }
  }

  // --------------------------------------------- every Start gets its Stop, exactly when

  /** Complete starts before and after the first stop, and whether there was one. */
  datatype Tally = Tally(before: nat, after: nat, stopped: bool)

  function TallyOf(calls: seq<Call>): Tally {
    if calls == [] then Tally(0, 0, false)
    else
      var t := TallyOf(calls[..|calls| - 1]);
      var last := calls[|calls| - 1];
      if last.Stop? then t.(stopped := true)
      else if !IsFullStart(last) then t
      else if t.stopped then t.(after := t.after + 1)
      else t.(before := t.before + 1)
  }

  ghost predicate Stacked(r: Run, t: Tally) {
    && RunInv(r) && r.stopDone == t.stopped
    && (t.stopped ==> (Running(r.log).value == [] <==> t.after == 0 && t.before <= 1))
    && (!t.stopped ==> t.after == 0 && (r.started == [] <==> t.before == 0) && exists base ::
          Closed(base) && Running(r.log) == Some(base + r.started) && (base == [] <==> t.before <= 1))
  }

  lemma CallStacked(r: Run, t: Tally, call: Call)
    requires Stacked(r, t) && (call.Start? ==> DepsBefore(call.order))
    ensures call.Stop? ==> Stacked(Called(r, call), t.(stopped := true))
    ensures call.Start? && !IsFullStart(call) ==> Stacked(Called(r, call), t)
    ensures IsFullStart(call) && t.stopped ==> Stacked(Called(r, call), t.(after := t.after + 1))
    ensures IsFullStart(call) && !t.stopped ==> Stacked(Called(r, call), t.(before := t.before + 1))
  {
    CallKeeps(r, call);
    var running := Running(r.log).value;
    assert running + [] == running;
    if call.Stop? && !t.stopped {
      var base :| Closed(base) && Running(r.log) == Some(base + r.started) && (base == [] <==> t.before <= 1);
      assert r.log[..|r.log|] == r.log && r.started[..|r.started|] == r.started;
      StoppingIsSafe(r.log, base, r.started, |r.started|);
    } else if IsFullStart(call) && !t.stopped {
      assert Running(Called(r, call).log) == Some(running + Called(r, call).started);
      assert r.log[..|r.log|] == r.log;
    }
  }

  lemma {:induction false} CallsStacked(calls: seq<Call>)
    requires forall i :: 0 <= i < |calls| && calls[i].Start? ==> DepsBefore(calls[i].order)
    ensures Stacked(CalledAll(calls), TallyOf(calls))
  {
    if calls == [] {
      LifecycleIsSafe([]);
      assert [] + FRESH.started == [];
      assert Closed([]) && Running(FRESH.log) == Some([] + FRESH.started);
    } else {
      CallsStacked(calls[..|calls| - 1]);
      CallStacked(CalledAll(calls[..|calls| - 1]), TallyOf(calls[..|calls| - 1]), calls[|calls| - 1]);
    }
  }

  /**
   Every successful Start has got its Stop exactly when no start completed, or one did
   and the first stop came after it: a second start overwrites the list of the first,
   and a stop that comes too early uses up the only chance to stop.
   */
  lemma EveryStartStopped(calls: seq<Call>)
    requires forall i :: 0 <= i < |calls| && calls[i].Start? ==> DepsBefore(calls[i].order)
    ensures var t := TallyOf(calls);
            Running(CalledAll(calls).log) == Some([])
            <==> t.after == 0 && (t.before == 0 || (t.before == 1 && t.stopped))
  {
    CallsStacked(calls);
    StackedEmpty(CalledAll(calls), TallyOf(calls));
  }

  lemma StackedEmpty(r: Run, t: Tally)
    requires Stacked(r, t)
    ensures Running(r.log) == Some([]) <==> t.after == 0 && (t.before == 0 || (t.before == 1 && t.stopped))
  {
    if !t.stopped {
      var base :| Closed(base) && Running(r.log) == Some(base + r.started) && (base == [] <==> t.before <= 1);
      assert |base + r.started| == |base| + |r.started|;
    }
  }
}
