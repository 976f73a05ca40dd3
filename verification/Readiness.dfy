/**
 The readiness evaluator: concurrent probes share a cache, an evaluation mutex and a
 counter of check goroutines.  Every lock acquisition, cache access, goroutine launch,
 result and counter update is one step, so probes and checks interleave freely; a
 check that ignores its context may return arbitrarily late.
 */
module Readiness {
  import opened Options

  type ProbeId = nat
  type CheckId = nat

  /** Where an answer came from; an evaluation is named by its number. */
  datatype Source = NoChecks | Evaluation(number: nat)

  datatype Why = Fresh(source: Source) | Cached(source: Source, age: int, ttl: int) | Busy(outstanding: nat) | GaveUp

  datatype Answer = Answer(ok: bool, why: Why)

  /** `source` is a history variable: the program stores the time and the verdict. */
  datatype Cache = Cache(at: int, ok: bool, source: Source)

  datatype Probe =
    | Reading(now: int)
    | Queued(ttl: int)
    | Rechecking(ttl: int)
    | Deciding
    | Launching(left: nat)
    | Collecting(remaining: nat, ok: bool)

  datatype State = State(
    ttl: int,
    cache: Option<Cache>,
    checks: nat,
    holder: Option<ProbeId>,      // who holds the evaluation mutex
    inFlight: nat,                // the atomic counter
    running: set<CheckId>,        // goroutines inside their check
    leaving: set<CheckId>,        // result sent, counter not yet decremented
    number: nat,                  // evaluations launched so far
    size: nat,                    // checks of the latest one
    nils: nat,                    // its results in the channel
    errors: nat,
    nilsReturned: nat,            // its checks that returned nil
    errorsReturned: nat,          // and those that returned an error
    nilsTaken: nat,               // and how many of those the probe has received
    passed: set<nat>,             // evaluations all of whose checks returned nil
    failed: set<nat>,             // evaluations with a check that returned an error
    probes: map<ProbeId, Probe>,
    answers: seq<Answer>)

  const START := State(0, None, 0, None, 0, {}, {}, 0, 0, 0, 0, 0, 0, 0, {}, {}, map[], [])

  datatype Step =
    | SetTTL(ttl: int)
    | Register
    | Arrive(p: ProbeId, now: int)
    | ReadCache(p: ProbeId)
    | Lock(p: ProbeId)
    | Recheck(p: ProbeId, now: int)
    | Decide(p: ProbeId, now: int)
    | Launch(p: ProbeId, g: CheckId)
    | Return(g: CheckId, isNil: bool)
    | Leave(g: CheckId)
    | Take(p: ProbeId, isNil: bool)
    | GiveUp(p: ProbeId)
    | Finish(p: ProbeId, now: int)

  function At(s: State, p: ProbeId): Option<Probe> {
    Find(s.probes, p)
  }

  function Moved(s: State, p: ProbeId, probe: Probe): State {
    s.(probes := s.probes[p := probe])
  }

  function Effective(ttl: int): int {
    if ttl == 0 then 2_000_000_000 else ttl
  }

  predicate Usable(at: int, ttl: int, now: int) {
    ttl > 0 && now - at < ttl
  }

  predicate Hit(s: State, ttl: int, now: int) {
    s.cache.Some? && Usable(s.cache.value.at, ttl, now)
  }

  function FromCache(s: State, now: int, ttl: int): Answer
    requires s.cache.Some?
  {
    Answer(s.cache.value.ok, Cached(s.cache.value.source, now - s.cache.value.at, ttl))
  }

  /** The probe answers and, if it holds the mutex, releases it. */
  function Answered(s: State, p: ProbeId, a: Answer): State {
    s.(probes := s.probes - {p}, answers := s.answers + [a], holder := if s.holder == Some(p) then None else s.holder)
  }

  function DecideStep(s: State, p: ProbeId, now: int): State {
    if s.checks == 0 then Answered(s.(cache := Some(Cache(now, true, NoChecks))), p, Answer(true, Fresh(NoChecks)))
    else if s.inFlight > 0 then Answered(s, p, Answer(false, Busy(s.inFlight)))
    else Moved(s.(number := s.number + 1, size := s.checks, nils := 0, errors := 0, nilsReturned := 0, errorsReturned := 0, nilsTaken := 0),
               p, Launching(s.checks))
  }

  function ReturnStep(s: State, g: CheckId, isNil: bool): State {
    var returned := s.nilsReturned + (if isNil then 1 else 0);
    s.(running := s.running - {g}, leaving := s.leaving + {g}, nilsReturned := returned,
       errorsReturned := s.errorsReturned + (if isNil then 0 else 1),
       nils := s.nils + (if isNil then 1 else 0), errors := s.errors + (if isNil then 0 else 1),
       passed := if returned == s.size then s.passed + {s.number} else s.passed,
       failed := if isNil then s.failed else s.failed + {s.number})
  }

  function TakeStep(s: State, p: ProbeId, isNil: bool): State
    requires At(s, p).Some? && At(s, p).value.Collecting? && At(s, p).value.remaining > 0
  {
    var probe := At(s, p).value;
    if isNil && s.nils > 0 then
      Moved(s.(nils := s.nils - 1, nilsTaken := s.nilsTaken + 1), p, Collecting(probe.remaining - 1, probe.ok))
    else if !isNil && s.errors > 0 then
      Moved(s.(errors := s.errors - 1), p, Collecting(probe.remaining - 1, false))
    else s
  }

  /** A step that is not possible leaves the state alone. */
  function Next(s: State, step: Step): State {
    match step
    case SetTTL(ttl) => s.(ttl := ttl, cache := None)
    case Register => s.(checks := s.checks + 1)
    case Arrive(p, now) => if At(s, p) == None then Moved(s, p, Reading(now)) else s
    case ReadCache(p) =>
      if At(s, p).None? || !At(s, p).value.Reading? then s
      else
        var ttl := Effective(s.ttl);
        if Hit(s, ttl, At(s, p).value.now) then Answered(s, p, FromCache(s, At(s, p).value.now, ttl))
        else Moved(s, p, Queued(ttl))
    case Lock(p) =>
      if At(s, p).None? || !At(s, p).value.Queued? || s.holder.Some? then s
      else Moved(s.(holder := Some(p)), p, Rechecking(At(s, p).value.ttl))
    case Recheck(p, now) =>
      if At(s, p).None? || !At(s, p).value.Rechecking? then s
      else
        var ttl := At(s, p).value.ttl;
        if Hit(s, ttl, now) then Answered(s, p, FromCache(s, now, ttl)) else Moved(s, p, Deciding)
    case Decide(p, now) => if At(s, p) == Some(Deciding) then DecideStep(s, p, now) else s
    case Launch(p, g) =>
      if At(s, p).None? || !At(s, p).value.Launching? || g in s.running || g in s.leaving then s
      else
        var left := At(s, p).value.left;
        if left == 0 then Moved(s, p, Collecting(s.size, true))
        else Moved(s.(inFlight := s.inFlight + 1, running := s.running + {g}), p, Launching(left - 1))
    case Return(g, isNil) => if g in s.running then ReturnStep(s, g, isNil) else s
    case Leave(g) =>
      if g in s.leaving && s.inFlight > 0 then s.(leaving := s.leaving - {g}, inFlight := s.inFlight - 1) else s
    case Take(p, isNil) =>
      if At(s, p).None? || !At(s, p).value.Collecting? || At(s, p).value.remaining == 0 then s
      else TakeStep(s, p, isNil)
    case GiveUp(p) =>
      if At(s, p).None? || !At(s, p).value.Collecting? || At(s, p).value.remaining == 0 then s
      else Answered(s, p, Answer(false, GaveUp))
    case Finish(p, now) =>
      if At(s, p).None? || !At(s, p).value.Collecting? || At(s, p).value.remaining > 0 then s
      else
        var ok := At(s, p).value.ok;
        Answered(s.(cache := Some(Cache(now, ok, Evaluation(s.number)))), p, Answer(ok, Fresh(Evaluation(s.number))))
  }

  function Exec(run: seq<Step>): State {
    if run == [] then START else Next(Exec(run[..|run| - 1]), run[|run| - 1])
  }

  // ------------------------------------------------------------------ guarantees

  predicate Holding(probe: Probe) {
    !probe.Reading? && !probe.Queued?
  }

  /** No checks were registered, or every check of that evaluation returned nil. */
  predicate Sound(s: State, source: Source) {
    source.NoChecks? || source.number in s.passed
  }

  /** The verdict is the one of `source`: all its checks returned nil, or one returned an error. */
  predicate Verdict(s: State, ok: bool, source: Source) {
    if ok then Sound(s, source) else source.Evaluation? && source.number in s.failed
  }

  predicate Justified(s: State, a: Answer) {
    match a.why
    case Fresh(source) => Verdict(s, a.ok, source)
    case Cached(source, age, ttl) => Verdict(s, a.ok, source) && age < ttl
    case Busy(outstanding) => !a.ok && outstanding > 0
    case GaveUp => !a.ok
  }

  ghost predicate ProbesOk(s: State) {
    && (forall p :: p in s.probes ==> (Holding(s.probes[p]) <==> s.holder == Some(p)))
    && (s.holder.Some? ==> s.holder.value in s.probes)
    && (forall p :: p in s.probes && s.probes[p].Launching? ==>
          && s.probes[p].left <= s.size && s.inFlight <= s.size - s.probes[p].left && s.nilsTaken == 0
          && s.nilsReturned + s.errorsReturned + |s.running| + s.probes[p].left <= s.size)
    && (forall p :: p in s.probes && s.probes[p].Collecting? && s.probes[p].ok ==>
          s.probes[p].remaining <= s.size && s.nilsTaken == s.size - s.probes[p].remaining)
    && (forall p :: p in s.probes && s.probes[p].Collecting? && !s.probes[p].ok ==> s.number in s.failed)
    && (forall p :: p in s.probes && (s.probes[p].Launching? || s.probes[p].Collecting?) ==> s.number > 0)
  }

  ghost predicate CountsOk(s: State) {
    && s.running !! s.leaving && s.inFlight == |s.running| + |s.leaving| <= s.size
    && s.nils + s.nilsTaken == s.nilsReturned
    && (s.number > 0 <==> s.size > 0)
    && (s.number > 0 && s.nilsReturned >= s.size ==> s.number in s.passed)
    && (s.errors > 0 ==> s.number in s.failed)
    && (s.number in s.passed ==> s.nilsReturned >= s.size > 0)
    && (s.number in s.failed ==> s.errorsReturned > 0)
    && (forall n :: n in s.passed || n in s.failed ==> n <= s.number)
    && s.nilsReturned + s.errorsReturned + |s.running| <= s.size
  }

  ghost predicate AnswersOk(s: State) {
    && (s.cache.Some? ==> Verdict(s, s.cache.value.ok, s.cache.value.source))
    && (forall i :: 0 <= i < |s.answers| ==> Justified(s, s.answers[i]))
  }

  ghost predicate Inv(s: State) {
    ProbesOk(s) && CountsOk(s) && AnswersOk(s)
  }

  lemma AnswerKeeps(s: State, p: ProbeId, a: Answer)
    requires Inv(s) && p in s.probes && Justified(s, a)
    ensures Inv(Answered(s, p, a))
  {
  }

  lemma QueueKeeps(s: State, step: Step)
    requires Inv(s) && (step.SetTTL? || step.Register? || step.Arrive? || step.Lock?)
    ensures Inv(Next(s, step))
  {
  }

  lemma CacheKeeps(s: State, step: Step)
    requires Inv(s) && (step.ReadCache? || step.Recheck?)
    ensures Inv(Next(s, step))
  {
    var p := step.p;
    if p in s.probes {
      var now := if step.Recheck? then step.now else if s.probes[p].Reading? then s.probes[p].now else 0;
      var ttl := if step.ReadCache? then Effective(s.ttl) else if s.probes[p].Rechecking? then s.probes[p].ttl else 0;
      if Hit(s, ttl, now) {
        AnswerKeeps(s, p, FromCache(s, now, ttl));
      }
    }
  }

  lemma DecideKeeps(s: State, p: ProbeId, now: int)
    requires Inv(s) && At(s, p) == Some(Deciding)
    ensures Inv(DecideStep(s, p, now))
  {
    if s.checks == 0 {
      AnswerKeeps(s.(cache := Some(Cache(now, true, NoChecks))), p, Answer(true, Fresh(NoChecks)));
    } else if s.inFlight > 0 {
      AnswerKeeps(s, p, Answer(false, Busy(s.inFlight)));
    }
  }

  lemma LaunchKeeps(s: State, p: ProbeId, g: CheckId)
    requires Inv(s)
    ensures Inv(Next(s, Launch(p, g)))
  {
    if At(s, p).Some? && At(s, p).value.Launching? && g !in s.running && g !in s.leaving {
      var r := Next(s, Launch(p, g));
      assert s.holder == Some(p);
      if At(s, p).value.left > 0 {
        assert |r.running| == |s.running| + 1;
      }
      assert forall q :: q != p && q in r.probes ==> r.probes[q] == s.probes[q] && !Holding(s.probes[q]);
      assert forall a :: Justified(s, a) ==> Justified(r, a);
    }
  }

  lemma ReturnKeeps(s: State, g: CheckId, isNil: bool)
    requires Inv(s) && g in s.running
    ensures Inv(ReturnStep(s, g, isNil))
  {
  }

  lemma LeaveKeeps(s: State, g: CheckId)
    requires Inv(s)
    ensures Inv(Next(s, Leave(g)))
  {
  }

  lemma TakeKeeps(s: State, p: ProbeId, isNil: bool)
    requires Inv(s)
    ensures Inv(Next(s, Take(p, isNil)))
  {
  }

  lemma EndKeeps(s: State, step: Step)
    requires Inv(s) && (step.GiveUp? || step.Finish?)
    ensures Inv(Next(s, step))
  {
  }

  lemma StepKeeps(s: State, step: Step)
    requires Inv(s)
    ensures Inv(Next(s, step))
  {
    match step
    case ReadCache(_) => CacheKeeps(s, step);
    case Recheck(_, _) => CacheKeeps(s, step);
    case Decide(p, now) => if At(s, p) == Some(Deciding) { DecideKeeps(s, p, now); }
    case Launch(p, g) => LaunchKeeps(s, p, g);
    case Return(g, isNil) => if g in s.running { ReturnKeeps(s, g, isNil); }
    case Leave(g) => LeaveKeeps(s, g);
    case Take(p, isNil) => TakeKeeps(s, p, isNil);
    case GiveUp(_) => EndKeeps(s, step);
    case Finish(_, _) => EndKeeps(s, step);
    case _ => QueueKeeps(s, step);
  }

  lemma {:induction false} RunKeeps(run: seq<Step>)
    ensures Inv(Exec(run))
  {
    if run != [] {
      RunKeeps(run[..|run| - 1]);
      StepKeeps(Exec(run[..|run| - 1]), run[|run| - 1]);
    }
  }

  ghost predicate Reachable(s: State) {
    exists run :: Exec(run) == s
  }

  lemma ReachableInv(s: State)
    requires Reachable(s)
    ensures Inv(s)
  {
    var run :| Exec(run) == s;
    RunKeeps(run);
  }

  /**
   What the history says: an evaluation counts as passed exactly when all its checks have
   returned nil, as failed only when one has returned an error, and never as both.
   */
  lemma PassedMeansAllNil(s: State)
    requires Reachable(s)
    ensures s.number in s.passed <==> s.number > 0 && s.nilsReturned == s.size
    ensures s.number in s.failed ==> s.errorsReturned > 0
    ensures !(s.number in s.passed && s.number in s.failed)
  {
    ReachableInv(s);
  }

  /**
   Readiness, over every interleaving of probes and checks: the goroutines outstanding
   never outnumber the checks of one evaluation, and an answer `true` means that no
   checks were registered or all checks of one evaluation returned nil, just now or
   cached for less than the cache's time to live.
   */
  lemma ProbesAreSound(run: seq<Step>, i: nat)
    requires i < |Exec(run).answers|
    ensures var s := Exec(run);
            && |s.running| + |s.leaving| == s.inFlight <= s.size
            && Justified(s, s.answers[i])
  {
    RunKeeps(run);
  }

  // ------------------------------------------------------------ what must not get stuck

  /**
   A probe is answered by the first lookup if and only if there is a verdict younger than
   the time to live, two seconds unless set, and that is not negative; it is that verdict.
   */
  lemma LookupAnswers(s: State, p: ProbeId)
    requires At(s, p).Some? && At(s, p).value.Reading?
    ensures var now, ttl, r := At(s, p).value.now, if s.ttl == 0 then 2_000_000_000 else s.ttl, Next(s, ReadCache(p));
            && (At(r, p) == None <==> ttl > 0 && s.cache.Some? && now - s.cache.value.at < ttl)
            && (At(r, p) == None ==> |r.answers| == |s.answers| + 1 && r.answers[|s.answers|].ok == s.cache.value.ok)
            && (At(r, p) != None ==> At(r, p) == Some(Queued(ttl)) && r.answers == s.answers)
  {
  }

  /**
   In every run a check that returns leaves, and when all have left none is outstanding;
   a probe that has all results answers with its verdict, caches it and frees the mutex.
   */
  lemma ChecksDrain(s: State, g: CheckId, isNil: bool, p: ProbeId, now: int)
    requires Reachable(s)
    ensures g in s.running ==>
              var r := Next(s, Return(g, isNil));
              && r.running == s.running - {g} && r.leaving == s.leaving + {g}
              && r.nils + r.errors == s.nils + s.errors + 1 && (isNil <==> r.nils == s.nils + 1)
    ensures g in s.leaving ==> Next(s, Leave(g)).leaving == s.leaving - {g} && Next(s, Leave(g)).inFlight == s.inFlight - 1
    ensures s.running == {} && s.leaving == {} ==> s.inFlight == 0
    ensures At(s, p).Some? && At(s, p).value.Collecting? && At(s, p).value.remaining == 0 ==>
              var r := Next(s, Finish(p, now));
              && r.answers == s.answers + [Answer(At(s, p).value.ok, Fresh(Evaluation(s.number)))]
              && r.cache == Some(Cache(now, At(s, p).value.ok, Evaluation(s.number))) && r.holder == None && p !in r.probes
  {
    ReachableInv(s);
    NoneOutstanding(s);
    if g in s.leaving {
      assert |s.leaving| == |s.leaving - {g}| + 1;
    }
  }

  /** While results are missing a probe can give up, which answers `false`, caches nothing and frees the mutex. */
  lemma GivingUp(s: State, p: ProbeId)
    requires Reachable(s) && At(s, p).Some? && At(s, p).value.Collecting? && At(s, p).value.remaining > 0
    ensures var r := Next(s, GiveUp(p));
            r.answers == s.answers + [Answer(false, GaveUp)] && r.cache == s.cache && r.holder == None && p !in r.probes
  {
    ReachableInv(s);
  }

  // ------------------------------------------------- when a probe runs the checks

  lemma NoneOutstanding(s: State)
    requires CountsOk(s)
    ensures s.inFlight == 0 <==> s.running == {} && s.leaving == {}
  {
    if s.inFlight == 0 {
      assert |s.running| == 0 && |s.leaving| == 0;
    }
  }

  lemma DecisionAt(s: State, p: ProbeId, now: int)
    requires CountsOk(s) && At(s, p) == Some(Deciding) && s.checks > 0
    ensures var r := Next(s, Decide(p, now));
            && (At(r, p) == Some(Launching(s.checks)) <==> s.running == {} && s.leaving == {})
            && (At(r, p) != Some(Launching(s.checks)) ==>
                  At(r, p) == None && r.answers == s.answers + [Answer(false, Busy(|s.running| + |s.leaving|))])
  {
    NoneOutstanding(s);
  }

  /**
   A probe that has come to the decision launches all checks if and only if no check
   goroutine is outstanding; otherwise it answers `false` at once and launches none.
   */
  lemma DecisionLaunches(s: State, p: ProbeId, now: int)
    requires Reachable(s) && At(s, p) == Some(Deciding) && s.checks > 0
    ensures var r := Next(s, Decide(p, now));
            && (At(r, p) == Some(Launching(s.checks)) <==> s.running == {} && s.leaving == {})
            && (At(r, p) != Some(Launching(s.checks)) ==>
                  At(r, p) == None && r.answers == s.answers + [Answer(false, Busy(|s.running| + |s.leaving|))])
  {
    ReachableInv(s);
    DecisionAt(s, p, now);
  }

  /** The cache is off in the run's every step from the first on. */
  ghost predicate CacheOff(run: seq<Step>) {
    run != [] && run[0].SetTTL? && forall i :: 0 <= i < |run| && run[i].SetTTL? ==> run[i].ttl < 0
  }

  /** Probes on their way to the decision have read the negative value; nothing was answered from the cache. */
  ghost predicate NothingCached(s: State) {
    && s.ttl < 0
    && (forall p :: p in s.probes && s.probes[p].Queued? ==> s.probes[p].ttl < 0)
    && (forall p :: p in s.probes && s.probes[p].Rechecking? ==> s.probes[p].ttl < 0)
    && (forall i :: 0 <= i < |s.answers| ==> !s.answers[i].why.Cached?)
  }

  lemma StepUncached(s: State, step: Step)
    requires NothingCached(s) && (step.SetTTL? ==> step.ttl < 0)
    ensures NothingCached(Next(s, step))
  {
  }

  /** In a run that switches the cache off first and leaves it off, no probe is ever answered from it. */
  lemma {:induction false} RunUncached(run: seq<Step>)
    requires CacheOff(run)
    ensures NothingCached(Exec(run))
  {
    var before := run[..|run| - 1];
    if before == [] {
      assert Exec(before) == START;
    } else {
      RunUncached(before);
      StepUncached(Exec(before), run[|run| - 1]);
    }
  }

  /**
   What a negative time to live guarantees, in any run: a probe that reads it is not
   answered from the cache at either lookup but comes to the decision, and there it runs
   the checks exactly when none is outstanding.
   */
  lemma DisabledCacheDecides(s: State, p: ProbeId, now: int)
    requires Reachable(s) && At(s, p).Some?
    ensures var probe := At(s, p).value;
            && (probe.Reading? && s.ttl < 0 ==> At(Next(s, ReadCache(p)), p) == Some(Queued(s.ttl)))
            && (probe.Queued? && s.holder == None ==> At(Next(s, Lock(p)), p) == Some(Rechecking(probe.ttl)))
            && (probe.Rechecking? && probe.ttl < 0 ==> At(Next(s, Recheck(p, now)), p) == Some(Deciding))
            && (probe.Deciding? && s.checks > 0 ==>
                  (At(Next(s, Decide(p, now)), p) == Some(Launching(s.checks)) <==> s.running == {} && s.leaving == {}))
  {
    if At(s, p).value.Deciding? && s.checks > 0 {
      DecisionLaunches(s, p, now);
    }
  }

  // ------------------------------------------------------------------ a false alarm

  lemma Advance(s: State, step: Step) returns (r: State)
    requires Reachable(s)
    ensures r == Next(s, step) && Reachable(r)
  {
    var run :| Exec(run) == s;
    assert (run + [step])[..|run|] == run;
    assert Exec(run + [step]) == Next(s, step);
    r := Next(s, step);
  }

  /** Probe `p` comes to the decision with the cache switched off. */
  lemma Enter(s: State, p: ProbeId) returns (r: State)
    requires Reachable(s) && s.ttl < 0 && s.holder == None && p !in s.probes
    ensures Reachable(r) && r == Moved(s.(holder := Some(p)), p, Deciding)
  {
    r := Advance(s, Arrive(p, 0));
    r := Advance(r, ReadCache(p));
    r := Advance(r, Lock(p));
    r := Advance(r, Recheck(p, 0));
    assert r.probes == s.probes[p := Deciding];
  }

  /** The first evaluation has launched its only check. */
  lemma OneLaunched() returns (s: State)
    ensures Reachable(s)
    ensures s == START.(ttl := -1, checks := 1, holder := Some(0), inFlight := 1, running := {0}, number := 1, size := 1,
                        probes := map[0 := Launching(0)])
  {
    assert Exec([]) == START;
    s := Advance(START, SetTTL(-1));
    s := Advance(s, Register);
    s := Enter(s, 0);
    s := Advance(s, Decide(0, 0));
    s := Advance(s, Launch(0, 0));
    assert s.probes == map[0 := Launching(0)];
  }

  /** Its check has returned nil; the probe waits for the result. */
  lemma OneReturned() returns (s: State)
    ensures Reachable(s)
    ensures s == START.(ttl := -1, checks := 1, holder := Some(0), inFlight := 1, leaving := {0}, number := 1, size := 1,
                        nils := 1, nilsReturned := 1, passed := {1}, probes := map[0 := Collecting(1, true)])
  {
    s := OneLaunched();
    s := Advance(s, Launch(0, 1));
    assert s.probes == map[0 := Collecting(1, true)];
    s := Advance(s, Return(0, true));
    assert s.running == {};
  }

  /** That check has returned nil and its probe has received the result. */
  lemma OneReceived() returns (s: State)
    ensures Reachable(s)
    ensures s == START.(ttl := -1, checks := 1, holder := Some(0), inFlight := 1, leaving := {0}, number := 1, size := 1,
                        nilsReturned := 1, nilsTaken := 1, passed := {1}, probes := map[0 := Collecting(0, true)])
  {
    s := OneReturned();
    s := Advance(s, Take(0, true));
    assert s.probes == map[0 := Collecting(0, true)];
  }

  /** The probe has answered `true`; the check's goroutine has not yet lowered the counter. */
  lemma OnePassed() returns (s: State)
    ensures Reachable(s) && s.ttl < 0 && s.checks == s.inFlight == 1 && s.holder == None && s.probes == map[]
    ensures s.failed == {} && s.answers == [Answer(true, Fresh(Evaluation(1)))]
  {
    s := OneReceived();
    s := Advance(s, Finish(0, 0));
    assert s.probes == map[];
  }

  /**
   `false` does not mean that a check failed: a check that passed sends its result
   before it lowers the counter, so the next probe can find the counter raised and
   answer `false` though no check ever returned an error.
   */
  lemma FalseWithoutFailure()
    ensures exists s :: Reachable(s) && s.failed == {}
                     && s.answers == [Answer(true, Fresh(Evaluation(1))), Answer(false, Busy(1))]
  {
    var s := OnePassed();
    s := Enter(s, 1);
    s := Advance(s, Decide(1, 0));
  }

  // ------------------------------------------------------------------ the probe's own code

  /** The machine's Take steps for the results a probe receives one after another. */
  function Received(s: State, p: ProbeId, results: seq<bool>): State {
    if results == [] then s else Next(Received(s, p, results[..|results| - 1]), Take(p, results[|results| - 1]))
  }

  /** The channel holds at least these results. */
  predicate Delivers(s: State, results: seq<bool>) {
    multiset(results)[true] <= s.nils && multiset(results)[false] <= s.errors
  }

  /** In the machine as in Collect below, a probe that has received `results` is ok exactly when all of them are nil. */
  lemma {:induction false} ReceivedVerdict(s: State, p: ProbeId, results: seq<bool>)
    requires At(s, p).Some? && At(s, p).value == Collecting(|results|, true) && Delivers(s, results)
    ensures At(Received(s, p, results), p) == Some(Collecting(0, false !in results))
  {
    ReceivedSome(s, p, results, |results|);
    assert results[..|results|] == results;
  }

  lemma TakeOne(s: State, p: ProbeId, isNil: bool)
    requires At(s, p).Some? && At(s, p).value.Collecting? && At(s, p).value.remaining > 0
    requires if isNil then s.nils > 0 else s.errors > 0
    ensures var r, probe := Next(s, Take(p, isNil)), At(s, p).value;
            && At(r, p) == Some(Collecting(probe.remaining - 1, probe.ok && isNil))
            && r.nils == s.nils - (if isNil then 1 else 0) && r.errors == s.errors - (if isNil then 0 else 1)
  {
  }

  lemma {:induction false} ReceivedSome(s: State, p: ProbeId, results: seq<bool>, k: nat)
    requires At(s, p).Some? && At(s, p).value == Collecting(|results|, true) && Delivers(s, results) && k <= |results|
    ensures var r := Received(s, p, results[..k]);
            && At(r, p) == Some(Collecting(|results| - k, false !in results[..k]))
            && r.nils == s.nils - multiset(results[..k])[true] && r.errors == s.errors - multiset(results[..k])[false]
  {
    if k > 0 {
      ReceivedSome(s, p, results, k - 1);
      assert results[..k][..k - 1] == results[..k - 1];
      assert results[..k] == results[..k - 1] + [results[k - 1]];
      assert multiset(results[..k]) <= multiset(results) by {
        assert results == results[..k] + results[k..];
      }
      TakeOne(Received(s, p, results[..k - 1]), p, results[k - 1]);
    }
  }

  class Prober {
    var ttl: int
    var cachedAt: Option<int>
    var cachedOK: bool

    /** The cache lookup before the evaluation mutex; `ttl` is kept for the second one. */
    method Peek(now: int) returns (effective: int, hit: Option<bool>)
      ensures effective == if ttl == 0 then 2_000_000_000 else ttl
      ensures hit.Some? <==> cachedAt.Some? && effective > 0 && now - cachedAt.value < effective
      ensures hit.Some? ==> hit.value == cachedOK
    {
      effective := ttl;
      if effective == 0 {
        effective := 2_000_000_000;
      }
      hit := None;
      if effective > 0 && cachedAt.Some? && now - cachedAt.value < effective {
        hit := Some(cachedOK);
      }
    }

    method SetTTL(d: int)
      modifies this
      ensures ttl == d && cachedAt == None && cachedOK == old(cachedOK)
    {
      ttl, cachedAt := d, None;
    }

    /**
     The loop that receives the results of one evaluation of `size` checks.  `arrivals`
     is what each select saw: a result (true for nil), or None for the context's end;
     the context does end, so running out of arrivals counts as None.
     */
    method Collect(size: nat, arrivals: seq<Option<bool>>, done: int) returns (ok: bool)
      modifies this
      ensures ttl == old(ttl)
      ensures ok <==> size <= |arrivals| && forall k :: 0 <= k < size ==> arrivals[k] == Some(true)
      ensures if size <= |arrivals| && (forall k :: 0 <= k < size ==> arrivals[k].Some?)
              then cachedAt == Some(done) && cachedOK == ok
              else cachedAt == old(cachedAt) && cachedOK == old(cachedOK)
    {
      ok := true;
      var remaining := size;
      var i := 0;
      while remaining > 0
        invariant 0 <= remaining <= size && i == size - remaining <= |arrivals|
        invariant forall k :: 0 <= k < i ==> arrivals[k].Some?
        invariant ok <==> forall k :: 0 <= k < i ==> arrivals[k] == Some(true)
        invariant cachedAt == old(cachedAt) && cachedOK == old(cachedOK) && ttl == old(ttl)
      {
        if i == |arrivals| || arrivals[i].None? {
          assert i < size && (i == |arrivals| || arrivals[i] != Some(true));
          ok := false;
          return;
        }
        remaining := remaining - 1;
        if !arrivals[i].value {
          ok := false;
        }
        i := i + 1;
      }
      cachedAt, cachedOK := Some(done), ok;
    }
  }
}
