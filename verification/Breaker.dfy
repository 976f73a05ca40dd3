/**
 The client-side circuit breaker.  Calls take a permit, run without the lock, and
 complete in any order, possibly epochs later; a call whose function panics never
 returns its permit.

 Times are clock readings in nanoseconds.  The generation counter is a uint64 and
 wraps; an epoch is the unbounded count of generation changes.
 */
module Breaker {
  import opened Options

  datatype Mode = Closed | Open | HalfOpen

  /** How a call ended, after the breaker's `shouldCount` has looked at its error. */
  datatype Result = Success | Counted | Uncounted

  datatype Permit = Permit(generation: nat, halfOpen: bool)

  datatype Config = Config(threshold: nat, cooldown: nat)

  datatype Fields = Fields(mode: Mode, failures: nat, openUntil: int, probe: bool, generation: nat)

  const U64 := 0x1_0000_0000_0000_0000
  const NEW := Fields(Closed, 0, 0, false, 0)

  function Bump(generation: nat): nat {
    (generation + 1) % U64
  }

  function Observed(b: Fields, now: int): Fields {
    if b.mode == Open && b.openUntil <= now then b.(mode := HalfOpen) else b
  }

  function Before(b: Fields, now: int): (Fields, Option<Permit>) {
    var o := Observed(b, now);
    match o.mode
    case Open => (o, None)
    case Closed => (o, Some(Permit(o.generation, false)))
    case HalfOpen => if o.probe then (o, None) else (o.(probe := true), Some(Permit(o.generation, true)))
  }

  function Opened(b: Fields, now: int, cfg: Config): Fields {
    b.(mode := Open, openUntil := now + cfg.cooldown, generation := Bump(b.generation))
  }

  function After(b: Fields, permit: Permit, result: Result, now: int, cfg: Config): Fields {
    if permit.generation != b.generation then b
    else if permit.halfOpen && b.mode == HalfOpen then
      if result == Success then Fields(Closed, 0, b.openUntil, false, Bump(b.generation))
      else Opened(b.(probe := false), now, cfg)
    else if b.mode != Closed then b
    else if result == Success then b.(failures := 0)
    else if result == Uncounted then b
    else
      var counted := b.(failures := b.failures + 1);
      if counted.failures >= cfg.threshold then Opened(counted, now, cfg) else counted
  }

  /** The breaker object; each method body runs under its mutex. */
  class Breaker {
    const threshold: nat
    const cooldown: nat
    var mode: Mode
    var failures: nat
    var openUntil: int
    var halfOpenProbe: bool
    var generation: nat

    function View(): Fields
      reads this
    {
      Fields(mode, failures, openUntil, halfOpenProbe, generation)
    }

    constructor (failureThreshold: int, cooldown: int)
      ensures threshold == (if failureThreshold <= 0 then 5 else failureThreshold)
      ensures this.cooldown == (if cooldown <= 0 then 30_000_000_000 else cooldown)
      ensures View() == NEW
    {
      threshold := if failureThreshold <= 0 then 5 else failureThreshold;
      this.cooldown := if cooldown <= 0 then 30_000_000_000 else cooldown;
      mode, failures, openUntil, halfOpenProbe, generation := Closed, 0, 0, false, 0;
    }

    method CurrentState(now: int) returns (state: Mode)
      modifies this`mode
      ensures View() == Observed(old(View()), now) && state == mode
    {
      if mode == Open && openUntil <= now {
        mode := HalfOpen;
      }
      state := mode;
    }

    method TakePermit(now: int) returns (permit: Option<Permit>)
      modifies this
      ensures (View(), permit) == Before(old(View()), now)
    {
      var state := CurrentState(now);
      if state == Open {
        return None;
      }
      var halfOpen := false;
      if mode == HalfOpen {
        if halfOpenProbe {
          return None;
        }
        halfOpenProbe := true;
        halfOpen := true;
      }
      return Some(Permit(generation, halfOpen));
    }

    method ReturnPermit(permit: Permit, result: Result, now: int)
      modifies this
      ensures View() == After(old(View()), permit, result, now, Config(threshold, cooldown))
    {
      if permit.generation != generation {
        return;
      }
      if permit.halfOpen && mode == HalfOpen {
        halfOpenProbe := false;
        if result == Success {
          failures := 0;
          mode := Closed;
          generation := (generation + 1) % U64;
          return;
        }
        mode := Open;
        openUntil := now + cooldown;
        generation := (generation + 1) % U64;
        return;
      }
      if mode != Closed {
        return;
      }
      if result == Success {
        failures := 0;
        mode := Closed;
        return;
      }
      if result == Uncounted {
        return;
      }
      failures := failures + 1;
      if failures >= threshold {
        mode := Open;
        openUntil := now + cooldown;
        generation := (generation + 1) % U64;
      }
    }
  }

  // ------------------------------------------------------- any number of calls

  type CallId = nat

  /** A permit in use, and the epoch in which it was taken. */
  datatype Ticket = Ticket(permit: Permit, epoch: nat)

  /** `results` are those of the current epoch's completed calls, oldest first. */
  datatype System = System(b: Fields, epoch: nat, tickets: map<CallId, Ticket>, results: seq<Result>)

  const START := System(NEW, 0, map[], [])

  datatype Step =
    | Admit(call: CallId, now: int)
    | Complete(call: CallId, result: Result, now: int)
    | Observe(now: int)

  predicate Enabled(s: System, step: Step) {
    match step
    case Admit(call, _) => call !in s.tickets
    case Complete(call, _, _) => call in s.tickets
    case Observe(_) => true
  }

  function Next(s: System, step: Step, cfg: Config): System
    requires Enabled(s, step)
  {
    match step
    case Observe(now) => s.(b := Observed(s.b, now))
    case Admit(call, now) =>
      var (b, permit) := Before(s.b, now);
      if permit.Some? then s.(b := b, tickets := s.tickets[call := Ticket(permit.value, s.epoch)]) else s.(b := b)
    case Complete(call, result, now) =>
      var ticket := s.tickets[call];
      var b := After(s.b, ticket.permit, result, now, cfg);
      var tickets := s.tickets - {call};
      if b.generation != s.b.generation then System(b, s.epoch + 1, tickets, [])
      else System(b, s.epoch, tickets, if ticket.epoch == s.epoch then s.results + [result] else s.results)
  }

  /** The step does not return a permit whole multiples of 2^64 epochs old. */
  predicate NoWrap(s: System, step: Step) {
    step.Complete? && step.call in s.tickets && s.tickets[step.call].epoch < s.epoch ==>
      (s.epoch - s.tickets[step.call].epoch) % U64 != 0
  }

  ghost predicate IsRun(s: System, run: seq<Step>, cfg: Config)
    decreases |run|
  {
    run != [] ==> Enabled(s, run[0]) && NoWrap(s, run[0]) && IsRun(Next(s, run[0], cfg), run[1..], cfg)
  }

  function Exec(s: System, run: seq<Step>, cfg: Config): System
    requires IsRun(s, run, cfg)
    decreases |run|
  {
    if run == [] then s else Exec(Next(s, run[0], cfg), run[1..], cfg)
  }

  /** Counted errors since the last success; uncounted ones are transparent. */
  function CountedSinceSuccess(results: seq<Result>): nat {
    if results == [] then 0
    else
      match results[|results| - 1]
      case Success => 0
      case Counted => CountedSinceSuccess(results[..|results| - 1]) + 1
      case Uncounted => CountedSinceSuccess(results[..|results| - 1])
  }

  predicate Current(s: System, call: CallId) {
    call in s.tickets && s.tickets[call].epoch == s.epoch
  }

  ghost predicate Inv(s: System, cfg: Config) {
    && s.b.generation == s.epoch % U64
    && (forall c :: c in s.tickets ==>
          s.tickets[c].epoch <= s.epoch && s.tickets[c].permit.generation == s.tickets[c].epoch % U64)
    && (match s.b.mode
        case Closed =>
          && !s.b.probe && s.b.failures == CountedSinceSuccess(s.results) < cfg.threshold
          && (forall c :: Current(s, c) ==> !s.tickets[c].permit.halfOpen)
        case Open => !s.b.probe && forall c :: !Current(s, c)
        case HalfOpen =>
          && (s.b.probe <==> exists c :: Current(s, c))
          && (forall c :: Current(s, c) ==> s.tickets[c].permit.halfOpen)
          && (forall c, d :: Current(s, c) && Current(s, d) ==> c == d))
  }

  /** An older permit looks current exactly when whole multiples of 2^64 epochs have passed. */
  lemma LooksCurrent(epoch: nat, older: nat)
    requires older <= epoch
    ensures older % U64 == epoch % U64 <==> (epoch - older) % U64 == 0
  {
  }

  lemma BumpIsNext(epoch: nat)
    ensures Bump(epoch % U64) == (epoch + 1) % U64 && Bump(epoch % U64) != epoch % U64
  {
    assert epoch == U64 * (epoch / U64) + epoch % U64;
  }

  /** A permit of an older generation changes no field. */
  lemma StalePermitIgnored(s: System, call: CallId, result: Result, now: int, cfg: Config)
    requires Inv(s, cfg) && call in s.tickets && !Current(s, call) && NoWrap(s, Complete(call, result, now))
    ensures After(s.b, s.tickets[call].permit, result, now, cfg) == s.b
  {
    LooksCurrent(s.epoch, s.tickets[call].epoch);
  }

  lemma CompleteKeeps(s: System, call: CallId, result: Result, now: int, cfg: Config)
    requires Inv(s, cfg) && cfg.threshold > 0 && call in s.tickets && NoWrap(s, Complete(call, result, now))
    ensures Inv(Next(s, Complete(call, result, now), cfg), cfg)
  {
    var r := Next(s, Complete(call, result, now), cfg);
    BumpIsNext(s.epoch);
    if !Current(s, call) {
      StalePermitIgnored(s, call, result, now, cfg);
      assert forall c :: Current(r, c) <==> Current(s, c);
    } else {
      assert (s.results + [result])[..|s.results|] == s.results;
      assert forall c :: Current(r, c) ==> Current(s, c) && c != call;
    }
  }

  lemma AdmitKeeps(s: System, call: CallId, now: int, cfg: Config)
    requires Inv(s, cfg) && call !in s.tickets
    ensures Inv(Next(s, Admit(call, now), cfg), cfg)
  {
    var r := Next(s, Admit(call, now), cfg);
    assert forall c :: c != call ==> (Current(r, c) <==> Current(s, c));
    assert call in r.tickets ==> Current(r, call);
    if exists c :: Current(s, c) {
      var c :| Current(s, c);
      assert Current(r, c);
    }
  }

  lemma {:induction false} RunKeeps(s: System, run: seq<Step>, cfg: Config)
    requires Inv(s, cfg) && cfg.threshold > 0 && IsRun(s, run, cfg)
    ensures Inv(Exec(s, run, cfg), cfg)
    decreases |run|
  {
    if run != [] {
      match run[0] {
        case Admit(call, now) => AdmitKeeps(s, call, now, cfg);
        case Complete(call, result, now) => CompleteKeeps(s, call, result, now, cfg);
        case Observe(now) =>
          assert forall c :: Current(Next(s, run[0], cfg), c) <==> Current(s, c);
      }
      RunKeeps(Next(s, run[0], cfg), run[1..], cfg);
    }
  }

  /**
   Breaker epochs, over every interleaving: permits of the current generation are all
   ordinary while closed, none while open, at most one while half-open, a probe,
   present exactly when `halfOpenProbe` is set; and `failures` is below the threshold
   while closed and counts the epoch's errors since its last success.
   */
  lemma BreakerEpochs(run: seq<Step>, cfg: Config)
    requires cfg.threshold > 0 && IsRun(START, run, cfg)
    ensures var s := Exec(START, run, cfg);
            && (s.b.mode == Closed ==> forall c :: Current(s, c) ==> !s.tickets[c].permit.halfOpen)
            && (s.b.mode == Closed ==> s.b.failures == CountedSinceSuccess(s.results) < cfg.threshold)
            && (s.b.mode == Open ==> forall c :: !Current(s, c))
            && (s.b.mode == HalfOpen ==> forall c, d :: Current(s, c) && Current(s, d) ==> c == d)
            && (s.b.mode == HalfOpen ==> (s.b.probe <==> exists c :: Current(s, c)))
            && (forall c :: Current(s, c) && s.b.mode == HalfOpen ==> s.tickets[c].permit.halfOpen)
  {
    assert forall c :: !Current(START, c);
    RunKeeps(START, run, cfg);
  }

  /**
   A completion in a closed epoch opens the breaker exactly when it is the counted
   error that makes the count since the last success equal to the threshold; and a
   current permit never meets the "not closed" exit of `after`.
   */
  lemma OpensAtThreshold(run: seq<Step>, call: CallId, result: Result, now: int, cfg: Config)
    requires cfg.threshold > 0 && IsRun(START, run, cfg) && Current(Exec(START, run, cfg), call)
    ensures var s := Exec(START, run, cfg);
            var b := After(s.b, s.tickets[call].permit, result, now, cfg);
            && (s.b.mode == Closed || (s.b.mode == HalfOpen && s.tickets[call].permit.halfOpen))
            && (s.b.mode == Closed ==>
                  (b.mode == Open <==> result == Counted && CountedSinceSuccess(s.results) + 1 == cfg.threshold))
            && (s.b.mode == HalfOpen ==> b.mode == (if result == Success then Closed else Open))
            && (b.mode == Open ==> b.openUntil == now + cfg.cooldown)
  {
    assert forall c :: !Current(START, c);
    RunKeeps(START, run, cfg);
  }

  /** Every clock reading of the run is before `t`. */
  ghost predicate AllBefore(run: seq<Step>, t: int) {
    forall i :: 0 <= i < |run| ==> run[i].now < t
  }

  /** An open breaker admits a call exactly when its clock reading has reached `openUntil`. */
  lemma OpenAdmitsFrom(b: Fields, now: int)
    requires b.mode == Open && !b.probe
    ensures Before(b, now).1.Some? <==> now >= b.openUntil
    ensures Before(b, now).1.Some? ==> Before(b, now).1.value == Permit(b.generation, true)
  {
  }

  /** No attempt of the run gets a permit. */
  ghost predicate NoneAdmitted(s: System, run: seq<Step>, cfg: Config)
    requires IsRun(s, run, cfg)
    decreases |run|
  {
    run != [] ==> (run[0].Admit? ==> Before(s.b, run[0].now).1 == None) && NoneAdmitted(Next(s, run[0], cfg), run[1..], cfg)
  }

  /** Whatever completes late, an open epoch admits no call before a reading reaches `openUntil`. */
  lemma {:induction false} OpenStaysShut(s: System, run: seq<Step>, cfg: Config)
    requires Inv(s, cfg) && cfg.threshold > 0 && s.b.mode == Open && IsRun(s, run, cfg)
    requires AllBefore(run, s.b.openUntil)
    ensures Exec(s, run, cfg).b == s.b && Exec(s, run, cfg).tickets.Keys <= s.tickets.Keys
    ensures NoneAdmitted(s, run, cfg)
    decreases |run|
  {
    if run != [] {
      assert run[0].now < s.b.openUntil;
      var r := Next(s, run[0], cfg);
      match run[0] {
        case Complete(call, result, now) =>
          StalePermitIgnored(s, call, result, now, cfg);
          CompleteKeeps(s, call, result, now, cfg);
        case Admit(call, now) => AdmitKeeps(s, call, now, cfg);
        case Observe(_) =>
      }
      OpenStaysShut(r, run[1..], cfg);
    }
  }

  /**
   A probe that never returns its permit (a panic in the call) shuts the breaker for
   good: no later call is admitted, whatever the clock says.
   */
  lemma {:induction false} LostProbeShutsBreaker(s: System, probe: CallId, run: seq<Step>, cfg: Config)
    requires Inv(s, cfg) && cfg.threshold > 0 && s.b.mode == HalfOpen && Current(s, probe) && IsRun(s, run, cfg)
    requires forall i :: 0 <= i < |run| && run[i].Complete? ==> run[i].call != probe
    ensures Exec(s, run, cfg).b == s.b && Exec(s, run, cfg).tickets.Keys <= s.tickets.Keys
    ensures NoneAdmitted(s, run, cfg)
    decreases |run|
  {
    if run != [] {
      var r := Next(s, run[0], cfg);
      match run[0] {
        case Complete(call, result, now) =>
          assert !Current(s, call);
          StalePermitIgnored(s, call, result, now, cfg);
          CompleteKeeps(s, call, result, now, cfg);
        case Admit(call, now) => AdmitKeeps(s, call, now, cfg);
        case Observe(_) =>
      }
      LostProbeShutsBreaker(r, probe, run[1..], cfg);
    }
  }

  // ------------------------------------------------------------ who gets a permit

  /**
   In every reachable state an attempt gets a permit exactly when the breaker is closed,
   or open with its time up, or half-open with no probe out; the permit is of the current
   generation, and ordinary exactly when the breaker is closed.
   */
  lemma AdmitsExactly(run: seq<Step>, now: int, cfg: Config)
    requires cfg.threshold > 0 && IsRun(START, run, cfg)
    ensures var s := Exec(START, run, cfg);
            var permit := Before(s.b, now).1;
            && (permit.Some? <==>
                  || s.b.mode == Closed
                  || (s.b.mode == Open && now >= s.b.openUntil)
                  || (s.b.mode == HalfOpen && forall c :: !Current(s, c)))
            && (permit.Some? ==> permit.value == Permit(s.epoch % U64, s.b.mode != Closed))
  {
    assert forall c :: !Current(START, c);
    RunKeeps(START, run, cfg);
  }

  /** Every attempt of the run gets a permit. */
  ghost predicate AllAdmitted(s: System, run: seq<Step>, cfg: Config)
    requires IsRun(s, run, cfg)
    decreases |run|
  {
    run != [] ==> (run[0].Admit? ==> Before(s.b, run[0].now).1.Some?) && AllAdmitted(Next(s, run[0], cfg), run[1..], cfg)
  }

  /** The counted errors of the run. */
  function CountedIn(run: seq<Step>): nat
    decreases |run|
  {
    if run == [] then 0
    else (if run[0].Complete? && run[0].result == Counted then 1 else 0) + CountedIn(run[1..])
  }

  lemma {:induction false} FewErrorsKeepClosed(s: System, run: seq<Step>, cfg: Config)
    requires s.b.mode == Closed && s.b.failures + CountedIn(run) < cfg.threshold && IsRun(s, run, cfg)
    ensures AllAdmitted(s, run, cfg) && Exec(s, run, cfg).b.mode == Closed
    decreases |run|
  {
    if run != [] {
      FewErrorsKeepClosed(Next(s, run[0], cfg), run[1..], cfg);
    }
  }

  /** A new breaker admits every call as long as there are fewer counted errors than the threshold. */
  lemma FewErrorsAdmitAll(run: seq<Step>, cfg: Config)
    requires CountedIn(run) < cfg.threshold && IsRun(START, run, cfg)
    ensures AllAdmitted(START, run, cfg) && Exec(START, run, cfg).b.mode == Closed
  {
    FewErrorsKeepClosed(START, run, cfg);
  }

  /** `n` calls one after another, each ending in a counted error. */
  function Failing(n: nat, call: CallId, now: int): seq<Step> {
    if n == 0 then [] else [Admit(call, now), Complete(call, Counted, now)] + Failing(n - 1, call, now)
  }

  /** From a closed breaker, as many counted errors in a row as are missing to the threshold open it. */
  lemma {:induction false} FailuresOpen(s: System, n: nat, call: CallId, now: int, cfg: Config)
    requires s.b.mode == Closed && call !in s.tickets && n > 0 && s.b.failures + n == cfg.threshold
    ensures IsRun(s, Failing(n, call, now), cfg)
    ensures var b := Exec(s, Failing(n, call, now), cfg).b;
            b.mode == Open && b.openUntil == now + cfg.cooldown && b.generation == Bump(s.b.generation)
    decreases n
  {
    var run := Failing(n, call, now);
    var s1 := Next(s, Admit(call, now), cfg);
    var s2 := Next(s1, Complete(call, Counted, now), cfg);
    assert run[0] == Admit(call, now) && run[1..][0] == Complete(call, Counted, now);
    assert run[1..][1..] == Failing(n - 1, call, now);
    assert s2.b == (if n == 1 then Opened(s.b.(failures := cfg.threshold), now, cfg) else s.b.(failures := s.b.failures + 1));
    if n > 1 {
      FailuresOpen(s2, n - 1, call, now, cfg);
    }
    assert Exec(s, run, cfg) == Exec(s1, run[1..], cfg) == Exec(s2, Failing(n - 1, call, now), cfg);
  }
}
