/**
 The stream consumer's polling loop: exponential backoff, rate-limited failure
 reports, and the counts a report and a recovery carry.

 Durations and clock readings are integers (nanoseconds).  What a poll returns, the
 clock, the jitter and the context are inputs, one record a turn.
 */
module Consumer {
  import opened Options

  datatype Poll = Succeeded | Failed(operation: Option<string>, message: string)

  /**
   `jitter`: what the jitter makes of a backoff this turn.  `cancelled`: the context
   ended during the poll.  `sleepFails`: it ended during the sleep.
   */
  datatype Turn = Turn(poll: Poll, now: int, jitter: int -> int, cancelled: bool, sleepFails: bool)

  datatype Settings = Settings(initialBackoff: int, maxBackoff: int, reportInterval: int)

  datatype Entry =
    | Report(operation: string, key: string, attempt: nat, delay: int, suppressed: nat, at: int)
    | Wait(delay: int)
    | Recovery(attempts: nat, suppressed: nat, duration: int)

  datatype State = State(
    backoff: int,
    attempts: nat,
    totalSuppressed: nat,
    sinceReport: nat,
    reported: bool,
    lastReport: int,
    lastError: string,
    outageStarted: Option<int>,
    log: seq<Entry>,
    ended: bool)

  function Begin(cfg: Settings): State {
    State(cfg.initialBackoff, 0, 0, 0, false, 0, "", None, [], false)
  }

  /** Go's integer division truncates; `maximum` is positive wherever this is used. */
  function NextBackoff(current: int, maximum: int): int {
    if current >= maximum || current > maximum / 2 then maximum else current * 2
  }

  function Operation(poll: Poll): string
    requires poll.Failed?
  {
    poll.operation.GetOr("poll")
  }

  function ErrorKey(poll: Poll): string
    requires poll.Failed?
  {
    Operation(poll) + "\0" + poll.message
  }

  function Clamped(delay: int, maximum: int): int {
    var d := if delay < 0 then 0 else delay;
    if d > maximum then maximum else d
  }

  predicate Reports(s: State, turn: Turn, cfg: Settings)
    requires turn.poll.Failed?
  {
    !s.reported || ErrorKey(turn.poll) != s.lastError || turn.now - s.lastReport >= cfg.reportInterval
  }

  function OnSuccess(s: State, turn: Turn, cfg: Settings): State {
    var log := if s.attempts > 0
               then s.log + [Recovery(s.attempts, s.totalSuppressed, turn.now - s.outageStarted.GetOr(0))] else s.log;
    State(cfg.initialBackoff, 0, 0, 0, false, s.lastReport, "", None, log, false)
  }

  /** The failure counted, and reported or suppressed. */
  function Told(s: State, turn: Turn, cfg: Settings): State
    requires turn.poll.Failed?
  {
    var delay := Clamped(turn.jitter(s.backoff), cfg.maxBackoff);
    var counted := s.(attempts := s.attempts + 1, outageStarted := Some(s.outageStarted.GetOr(turn.now)));
    if Reports(s, turn, cfg)
    then counted.(reported := true, lastReport := turn.now, lastError := ErrorKey(turn.poll), sinceReport := 0,
                  log := s.log + [Report(Operation(turn.poll), ErrorKey(turn.poll), s.attempts + 1, delay, s.sinceReport, turn.now)])
    else counted.(sinceReport := s.sinceReport + 1, totalSuppressed := s.totalSuppressed + 1)
  }

  function OnFailure(s: State, turn: Turn, cfg: Settings): State
    requires turn.poll.Failed?
  {
    var told := Told(s, turn, cfg);
    var waited := told.(log := told.log + [Wait(Clamped(turn.jitter(s.backoff), cfg.maxBackoff))]);
    if turn.sleepFails then waited.(ended := true)
    else waited.(backoff := NextBackoff(s.backoff, cfg.maxBackoff))
  }

  function Next(s: State, turn: Turn, cfg: Settings): State {
    if s.ended then s
    else if turn.poll.Succeeded? then OnSuccess(s, turn, cfg)
    else if turn.cancelled then s.(ended := true)
    else OnFailure(s, turn, cfg)
  }

  function Exec(turns: seq<Turn>, cfg: Settings): State {
    if turns == [] then Begin(cfg) else Next(Exec(turns[..|turns| - 1], cfg), turns[|turns| - 1], cfg)
  }

  lemma TurnNext(turns: seq<Turn>, i: nat, cfg: Settings)
    requires i < |turns|
    ensures Exec(turns[..i + 1], cfg) == Next(Exec(turns[..i], cfg), turns[i], cfg)
  {
    assert turns[..i + 1][..i] == turns[..i];
  }

  /** The log with the failure's report, if it is reported. */
  function LogTold(s: State, turn: Turn, cfg: Settings): seq<Entry>
    requires turn.poll.Failed?
  {
    if Reports(s, turn, cfg) then
      s.log + [Report(Operation(turn.poll), ErrorKey(turn.poll), s.attempts + 1,
                      Clamped(turn.jitter(s.backoff), cfg.maxBackoff), s.sinceReport, turn.now)]
    else s.log
  }

  lemma FailureEntries(s: State, turn: Turn, cfg: Settings)
    requires turn.poll.Failed?
    ensures OnFailure(s, turn, cfg).log == LogTold(s, turn, cfg) + [Wait(Clamped(turn.jitter(s.backoff), cfg.maxBackoff))]
  {
  }

  /** runConsumerLoop: it leaves the loop when the context ends, at the latest after the given turns. */
  method RunConsumerLoop(turns: seq<Turn>, cfg: Settings) returns (log: seq<Entry>)
    ensures log == Exec(turns, cfg).log
  {
    var backoff := cfg.initialBackoff;
    var attempts, totalSuppressed, sinceReport := 0, 0, 0;
    var reported, lastReport, lastError := false, 0, "";
    var outageStarted: Option<int> := None;
    log := [];
    ghost var s := Begin(cfg);
    var i := 0;
    while i < |turns|
      invariant 0 <= i <= |turns|
      invariant s == Exec(turns[..i], cfg) && !s.ended
      invariant backoff == s.backoff && attempts == s.attempts && totalSuppressed == s.totalSuppressed
      invariant sinceReport == s.sinceReport && reported == s.reported && lastReport == s.lastReport
      invariant lastError == s.lastError && outageStarted == s.outageStarted && log == s.log
    {
      var turn := turns[i];
      TurnNext(turns, i, cfg);
      ghost var before := s;
      s := Next(s, turn, cfg);
      i := i + 1;
      if turn.poll.Succeeded? {
        if attempts > 0 {
          log := log + [Recovery(attempts, totalSuppressed, turn.now - outageStarted.GetOr(0))];
        }
        backoff, attempts, totalSuppressed, sinceReport := cfg.initialBackoff, 0, 0, 0;
        reported, lastError, outageStarted := false, "", None;
      } else {
        if turn.cancelled {
          EndedStays(turns, i, cfg);
          return;
        }
        attempts := attempts + 1;
        if outageStarted.None? {
          outageStarted := Some(turn.now);
        }
        var delay := turn.jitter(backoff);
        if delay < 0 {
          delay := 0;
        }
        if delay > cfg.maxBackoff {
          delay := cfg.maxBackoff;
        }
        var key := ErrorKey(turn.poll);
        if !reported || key != lastError || turn.now - lastReport >= cfg.reportInterval {
          log := log + [Report(Operation(turn.poll), key, attempts, delay, sinceReport, turn.now)];
          reported, lastReport, lastError, sinceReport := true, turn.now, key, 0;
        } else {
          sinceReport := sinceReport + 1;
          totalSuppressed := totalSuppressed + 1;
        }
        assert delay == Clamped(turn.jitter(before.backoff), cfg.maxBackoff);
        assert log == LogTold(before, turn, cfg);
        FailureEntries(before, turn, cfg);
        log := log + [Wait(delay)];
        if turn.sleepFails {
          EndedStays(turns, i, cfg);
          return;
        }
        backoff := NextBackoff(backoff, cfg.maxBackoff);
      }
    }
    assert turns[..|turns|] == turns;
  }

  lemma {:induction false} EndedStays(turns: seq<Turn>, i: nat, cfg: Settings)
    requires i <= |turns| && Exec(turns[..i], cfg).ended
    ensures Exec(turns, cfg) == Exec(turns[..i], cfg)
    decreases |turns| - i
  {
    if i < |turns| {
      TurnNext(turns, i, cfg);
      EndedStays(turns, i + 1, cfg);
    } else {
      assert turns[..i] == turns;
    }
  }

  // ------------------------------------------------------------- the outage, read off the log

  /** Consecutive failures at the end of the turns. */
  function Failures(turns: seq<Turn>): nat {
    if turns == [] || turns[|turns| - 1].poll.Succeeded? then 0 else Failures(turns[..|turns| - 1]) + 1
  }

  /** The clock reading of the first of them. */
  function OutageStart(turns: seq<Turn>): Option<int> {
    if turns == [] || turns[|turns| - 1].poll.Succeeded? then None
    else Some(OutageStart(turns[..|turns| - 1]).GetOr(turns[|turns| - 1].now))
  }

  /** Reports since the last recovery. */
  function ReportCount(log: seq<Entry>): nat {
    if log == [] || log[|log| - 1].Recovery? then 0
    else ReportCount(log[..|log| - 1]) + (if log[|log| - 1].Report? then 1 else 0)
  }

  /** The sum of their suppressed counts. */
  function ReportedSuppressed(log: seq<Entry>): nat {
    if log == [] || log[|log| - 1].Recovery? then 0
    else ReportedSuppressed(log[..|log| - 1]) + (if log[|log| - 1].Report? then log[|log| - 1].suppressed else 0)
  }

  /** The latest of them. */
  function LatestReport(log: seq<Entry>): Option<Entry> {
    if log == [] || log[|log| - 1].Recovery? then None
    else if log[|log| - 1].Report? then Some(log[|log| - 1])
    else LatestReport(log[..|log| - 1])
  }

  predicate DelaysBounded(log: seq<Entry>, maximum: int) {
    forall i :: 0 <= i < |log| && !log[i].Recovery? ==> 0 <= log[i].delay <= maximum
  }

  function Pow2(k: nat): nat {
    if k == 0 then 1 else 2 * Pow2(k - 1)
  }

  function Min(a: int, b: int): int {
    if a < b then a else b
  }

  predicate Valid(cfg: Settings) {
    0 < cfg.initialBackoff <= cfg.maxBackoff
  }

  /** The doubling that is carried out never exceeds the maximum, so it cannot overflow. */
  lemma NextBackoffDoubles(current: int, maximum: int)
    requires 0 < current <= maximum
    ensures NextBackoff(current, maximum) == Min(2 * current, maximum)
  {
  }

  predicate IsReport(e: Option<Entry>, key: string, at: int) {
    e.Some? && e.value.Report? && e.value.key == key && e.value.at == at
  }

  ghost predicate Accounted(s: State, failures: nat, cfg: Settings) {
    && s.attempts == failures
    && s.attempts == ReportCount(s.log) + s.totalSuppressed
    && s.totalSuppressed == ReportedSuppressed(s.log) + s.sinceReport
    && s.backoff == Min(cfg.initialBackoff * Pow2(failures), cfg.maxBackoff)
    && (s.attempts > 0 <==> s.reported) && (s.attempts > 0 <==> s.outageStarted.Some?)
    && (!s.reported ==> LatestReport(s.log) == None)
    && (s.reported ==> IsReport(LatestReport(s.log), s.lastError, s.lastReport))
    && DelaysBounded(s.log, cfg.maxBackoff)
  }

  lemma LogNext(log: seq<Entry>, e: Entry)
    ensures (log + [e])[..|log + [e]| - 1] == log
    ensures ReportCount(log + [e]) == (if e.Recovery? then 0 else if e.Report? then ReportCount(log) + 1 else ReportCount(log))
    ensures ReportedSuppressed(log + [e]) == (if e.Recovery? then 0
              else if e.Report? then ReportedSuppressed(log) + e.suppressed else ReportedSuppressed(log))
    ensures LatestReport(log + [e]) == (if e.Recovery? then None else if e.Report? then Some(e) else LatestReport(log))
  {
  }

  lemma FailureLog(s: State, turn: Turn, cfg: Settings)
    requires Valid(cfg) && turn.poll.Failed?
    ensures var log := OnFailure(s, turn, cfg).log;
            && (Reports(s, turn, cfg) ==>
                  && ReportCount(log) == ReportCount(s.log) + 1
                  && ReportedSuppressed(log) == ReportedSuppressed(s.log) + s.sinceReport
                  && IsReport(LatestReport(log), ErrorKey(turn.poll), turn.now))
            && (!Reports(s, turn, cfg) ==>
                  && ReportCount(log) == ReportCount(s.log)
                  && ReportedSuppressed(log) == ReportedSuppressed(s.log)
                  && LatestReport(log) == LatestReport(s.log))
  {
  }

  lemma FailureDelays(s: State, turn: Turn, cfg: Settings)
    requires Valid(cfg) && turn.poll.Failed? && DelaysBounded(s.log, cfg.maxBackoff)
    ensures DelaysBounded(OnFailure(s, turn, cfg).log, cfg.maxBackoff)
  {
  }

  lemma BackoffNext(backoff: int, k: nat, cfg: Settings)
    requires Valid(cfg) && backoff == Min(cfg.initialBackoff * Pow2(k), cfg.maxBackoff)
    ensures NextBackoff(backoff, cfg.maxBackoff) == Min(cfg.initialBackoff * Pow2(k + 1), cfg.maxBackoff)
  {
  }

  lemma FailureAccounted(s: State, turn: Turn, failures: nat, cfg: Settings)
    requires Valid(cfg) && Accounted(s, failures, cfg) && turn.poll.Failed? && !turn.sleepFails
    ensures Accounted(OnFailure(s, turn, cfg), failures + 1, cfg)
  {
    FailureLog(s, turn, cfg);
    FailureDelays(s, turn, cfg);
    BackoffNext(s.backoff, failures, cfg);
  }

  lemma {:induction false} PowPositive(k: nat)
    ensures Pow2(k) >= 1
  {
    if k > 0 { PowPositive(k - 1); }
  }

  /**
   Consumer accounting, at every point of every run: attempts equal reports plus
   suppressed failures of the outage, what the reports told plus what is pending is all
   that was suppressed, after k failures the backoff is min(initial*2^k, max), and
   every delay lies between 0 and max.
   */
  lemma {:induction false} LoopAccounted(turns: seq<Turn>, cfg: Settings)
    requires Valid(cfg) && !Exec(turns, cfg).ended
    ensures Accounted(Exec(turns, cfg), Failures(turns), cfg)
  {
    if turns != [] {
      var before, turn := turns[..|turns| - 1], turns[|turns| - 1];
      LoopAccounted(before, cfg);
      var s := Exec(before, cfg);
      if turn.poll.Succeeded? {
        if s.attempts > 0 {
          LogNext(s.log, Recovery(s.attempts, s.totalSuppressed, turn.now - s.outageStarted.GetOr(0)));
        }
      } else {
        FailureAccounted(s, turn, Failures(before), cfg);
      }
    }
  }

  lemma {:induction false} OutageDated(turns: seq<Turn>, cfg: Settings)
    requires !Exec(turns, cfg).ended
    ensures Exec(turns, cfg).outageStarted == OutageStart(turns)
  {
    if turns != [] {
      OutageDated(turns[..|turns| - 1], cfg);
    }
  }

  /** What ends an outage: one recovery whose counts and duration are those of the outage's failures and reports. */
  lemma RecoveryTellsOutage(turns: seq<Turn>, turn: Turn, cfg: Settings)
    requires Valid(cfg) && !Exec(turns, cfg).ended && turn.poll.Succeeded?
    ensures var before, after := Exec(turns, cfg).log, Exec(turns + [turn], cfg).log;
            if Failures(turns) == 0 then after == before
            else OutageStart(turns).Some? && Failures(turns) - ReportCount(before) >= ReportedSuppressed(before)
                 && after == before + [Recovery(Failures(turns), Failures(turns) - ReportCount(before),
                                                turn.now - OutageStart(turns).value)]
  {
    OneTurn(turns, turn, cfg);
    OutageTold(turns, cfg);
  }

  /** The counters a recovery would report now. */
  lemma OutageTold(turns: seq<Turn>, cfg: Settings)
    requires Valid(cfg) && !Exec(turns, cfg).ended
    ensures var s := Exec(turns, cfg);
            && s.attempts == Failures(turns) && s.totalSuppressed == Failures(turns) - ReportCount(s.log)
            && s.totalSuppressed >= ReportedSuppressed(s.log) && s.outageStarted == OutageStart(turns)
            && (Failures(turns) > 0 ==> OutageStart(turns).Some?)
  {
    LoopAccounted(turns, cfg);
    OutageDated(turns, cfg);
  }

  lemma OneTurn(turns: seq<Turn>, turn: Turn, cfg: Settings)
    ensures Exec(turns + [turn], cfg) == Next(Exec(turns, cfg), turn, cfg)
  {
    assert (turns + [turn])[..|turns|] == turns;
  }

  /** The backoff after `k` failures of an outage. */
  function BackoffAfter(k: nat, cfg: Settings): int {
    Min(cfg.initialBackoff * Pow2(k), cfg.maxBackoff)
  }

  /**
   A failure logs its wait, which is the clamped jitter of min(initial*2^k, max) after k
   earlier failures of the outage, and before it at most a report, which carries the
   number of the failure within the outage and how many were suppressed since the
   previous report.
   */
  lemma ReportTellsPending(turns: seq<Turn>, turn: Turn, cfg: Settings)
    requires Valid(cfg) && !Exec(turns, cfg).ended && turn.poll.Failed? && !turn.cancelled
    ensures var before, after := Exec(turns, cfg).log, Exec(turns + [turn], cfg).log;
            var delay := Clamped(turn.jitter(BackoffAfter(Failures(turns), cfg)), cfg.maxBackoff);
            var pending := Failures(turns) - ReportCount(before) - ReportedSuppressed(before);
            && pending >= 0
            && (after == before + [Wait(delay)]
                || after == before + [Report(Operation(turn.poll), ErrorKey(turn.poll), Failures(turns) + 1, delay, pending, turn.now)]
                            + [Wait(delay)])
  {
    OneTurn(turns, turn, cfg);
    LoopAccounted(turns, cfg);
    FailureEntries(Exec(turns, cfg), turn, cfg);
  }

  /** Without jitter the failure that follows k earlier ones of its outage waits min(initial*2^k, max). */
  lemma UnjitteredWait(turns: seq<Turn>, turn: Turn, cfg: Settings)
    requires Valid(cfg) && !Exec(turns, cfg).ended && turn.poll.Failed? && !turn.cancelled
    requires forall b :: turn.jitter(b) == b
    ensures var log := Exec(turns + [turn], cfg).log;
            log != [] && log[|log| - 1] == Wait(Min(cfg.initialBackoff * Pow2(Failures(turns)), cfg.maxBackoff))
  {
    ReportTellsPending(turns, turn, cfg);
    PowPositive(Failures(turns));
    Scaled(cfg.initialBackoff, Pow2(Failures(turns)));
  }

  lemma Scaled(a: int, b: int)
    requires a > 0 && b > 0
    ensures a * b > 0
  {
  }

  /**
   A failure is suppressed exactly when the outage already has a report, its latest
   report has the same key, and is less than a report interval old.
   */
  lemma SuppressedOnlyRepeats(turns: seq<Turn>, turn: Turn, cfg: Settings)
    requires Valid(cfg) && !Exec(turns, cfg).ended && turn.poll.Failed? && !turn.cancelled
    ensures var before, after := Exec(turns, cfg), Exec(turns + [turn], cfg);
            var latest := LatestReport(before.log);
            && (after.totalSuppressed == before.totalSuppressed + 1 <==>
                  && latest.Some? && latest.value.Report? && latest.value.key == ErrorKey(turn.poll)
                  && turn.now - latest.value.at < cfg.reportInterval)
            && (after.totalSuppressed == before.totalSuppressed <==>
                  ReportCount(after.log) == ReportCount(before.log) + 1)
  {
    OneTurn(turns, turn, cfg);
    LoopAccounted(turns, cfg);
    FailureLog(Exec(turns, cfg), turn, cfg);
  }

  /** Operation names hold no NUL, so equal keys mean the same operation and the same message. */
  lemma KeysTellFailuresApart(a: Poll, b: Poll)
    requires a.Failed? && b.Failed? && '\0' !in Operation(a) && '\0' !in Operation(b)
    ensures ErrorKey(a) == ErrorKey(b) <==> Operation(a) == Operation(b) && a.message == b.message
  {
    if ErrorKey(a) == ErrorKey(b) {
      var k := ErrorKey(a);
      var m, n := |Operation(a)|, |Operation(b)|;
      assert k[m] == '\0' && k[n] == '\0';
      assert Operation(a) == k[..m] && Operation(b) == k[..n];
      assert a.message == k[m + 1..] && b.message == k[n + 1..];
    }
  }

  /** A jittered delay becomes the nearest one from 0 to the maximum. */
  lemma ClampedIsNearest(delay: int, maximum: int, other: int)
    requires 0 <= other <= maximum
    ensures 0 <= Clamped(delay, maximum) <= maximum
    ensures delay <= Clamped(delay, maximum) <= other || other <= Clamped(delay, maximum) <= delay
         || Clamped(delay, maximum) == delay
  {
  }

  /** The context ended during this failed poll or during the sleep after it. */
  predicate Ends(turn: Turn) {
    turn.poll.Failed? && (turn.cancelled || turn.sleepFails)
  }

  /** The loop ends at the first failed turn during which the context ends, and at no other. */
  lemma {:induction false} EndsWithContext(turns: seq<Turn>, cfg: Settings)
    ensures Exec(turns, cfg).ended <==> exists i :: 0 <= i < |turns| && Ends(turns[i])
  {
    if turns != [] {
      var n := |turns| - 1;
      EndsWithContext(turns[..n], cfg);
      if exists i :: 0 <= i < |turns| && Ends(turns[i]) {
        var i :| 0 <= i < |turns| && Ends(turns[i]);
        assert i < n ==> turns[..n][i] == turns[i];
      }
    }
  }

  /** A failure whose context has ended is neither counted nor logged, and neither is anything after the loop's end. */
  lemma CancelledLogsNothing(turns: seq<Turn>, turn: Turn, cfg: Settings)
    requires Exec(turns, cfg).ended || (turn.poll.Failed? && turn.cancelled)
    ensures Exec(turns + [turn], cfg).log == Exec(turns, cfg).log
    ensures Exec(turns + [turn], cfg).attempts == Exec(turns, cfg).attempts
  {
    OneTurn(turns, turn, cfg);
  }

  // ---------------------------------------------------------------- configuration

  const SECOND := 1_000_000_000

  /** The fields of the group consumer's configuration that have defaults or limits. */
  datatype GroupConfig = GroupConfig(
    name: string, group: string, stream: string, startId: string, count: int, block: int,
    claimInterval: int, claimMinIdle: int,
    initialBackoff: int, maxBackoff: int, reportInterval: int, jitterFraction: real, disableJitter: bool)

  function DefaultTo(value: int, fallback: int): int {
    if value <= 0 then fallback else value
  }

  /** A missing value gets the default, one above the cap the cap, and any other is kept. */
  predicate Limited(given: int, fallback: int, cap: int, result: int) {
    if given <= 0 then result == fallback else if given > cap then result == cap else result == given
  }

  function NormalizeGroupConsumer(given: GroupConfig): (config: GroupConfig)
    ensures InLimits(config) && (InLimits(given) ==> config == given)
    ensures config.disableJitter == given.disableJitter && config.group == given.group && config.stream == given.stream
  {
    var initial := Min(DefaultTo(given.initialBackoff, SECOND / 4), 60 * SECOND);
    var capped := Min(DefaultTo(given.maxBackoff, 30 * SECOND), 600 * SECOND);
    var fraction := if given.disableJitter then 0.0
                    else if given.jitterFraction <= 0.0 then 0.2 else given.jitterFraction;
    given.(name := if given.name == "" then given.group + ":" + given.stream else given.name,
           startId := if given.startId == "" then "0" else given.startId,
           count := DefaultTo(given.count, 10),
           block := DefaultTo(given.block, 5 * SECOND),
           claimInterval := Min(DefaultTo(given.claimInterval, 30 * SECOND), 86_400 * SECOND),
           claimMinIdle := Min(DefaultTo(given.claimMinIdle, 30 * SECOND), 86_400 * SECOND),
           initialBackoff := initial,
           maxBackoff := if capped < initial then initial else capped,
           reportInterval := DefaultTo(given.reportInterval, 60 * SECOND),
           jitterFraction := if fraction > 1.0 then 1.0 else fraction)
  }

  /** Every field is defaulted or capped on its own, except that the maximum backoff is raised to the initial one. */
  lemma NormalizedFields(given: GroupConfig)
    ensures var config := NormalizeGroupConsumer(given);
            && config.name == (if given.name == "" then given.group + ":" + given.stream else given.name)
            && config.startId == (if given.startId == "" then "0" else given.startId)
            && Limited(given.count, 10, given.count, config.count)
            && Limited(given.block, 5 * SECOND, given.block, config.block)
            && Limited(given.reportInterval, 60 * SECOND, given.reportInterval, config.reportInterval)
            && Limited(given.claimInterval, 30 * SECOND, 86_400 * SECOND, config.claimInterval)
            && Limited(given.claimMinIdle, 30 * SECOND, 86_400 * SECOND, config.claimMinIdle)
            && Limited(given.initialBackoff, SECOND / 4, 60 * SECOND, config.initialBackoff)
            && (Limited(given.maxBackoff, 30 * SECOND, 600 * SECOND, config.maxBackoff)
                || (config.maxBackoff == config.initialBackoff && DefaultTo(given.maxBackoff, 30 * SECOND) < config.initialBackoff))
  {
  }

  /** A configuration that normalization leaves alone. */
  predicate InLimits(c: GroupConfig) {
    && c.name != "" && c.startId != "" && c.count > 0 && c.block > 0 && c.reportInterval > 0
    && 0 < c.claimInterval <= 86_400 * SECOND && 0 < c.claimMinIdle <= 86_400 * SECOND
    && 0 < c.initialBackoff <= 60 * SECOND && c.initialBackoff <= c.maxBackoff <= 600 * SECOND
    && 0.0 <= c.jitterFraction <= 1.0 && (c.jitterFraction == 0.0 <==> c.disableJitter)
  }
}
