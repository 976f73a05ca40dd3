/**
 The upstream watcher of a gateway: every event, resync tick and timer firing
 reconciles with a full discovery; when discovery fails or finds nothing, the last
 good instances are served for a bounded time.

 Assumed: the clock does not run backwards, and a timer does not fire early.  A
 timer is armed for an instant counted from the clock reading that armed it.
 */
module Upstreams {
  import opened Options
  import opened Services
  import opened Slices

  datatype Snapshot = Snapshot(services: seq<Service>, stale: bool, staleSince: Option<int>)

  datatype Settings = Settings(grace: int, filter: Option<Service -> bool>)

  function Filtered(services: seq<Service>, filter: Option<Service -> bool>): seq<Service> {
    if filter.None? || services == [] then services
    else
      var last := services[|services| - 1];
      Filtered(services[..|services| - 1], filter) + (if filter.value(last) then [last] else [])
  }

  /** Filtering keeps exactly the services the filter accepts, in order. */
  lemma {:induction false} FilteredChosen(services: seq<Service>, accepts: Service -> bool, f: Service -> Option<Service>)
    requires forall x :: f(x) == if accepts(x) then Some(x) else None
    ensures Filtered(services, Some(accepts)) == Chosen(services, f)
    ensures forall x :: x in Filtered(services, Some(accepts)) <==> x in services && accepts(x)
  {
    if services != [] {
      var n := |services| - 1;
      FilteredChosen(services[..n], accepts, f);
      assert services == services[..n] + [services[n]];
    }
  }

  /** What one discovery amounts to: a failed one counts as empty. */
  function Found(discovered: Option<seq<Service>>, filter: Option<Service -> bool>): seq<Service> {
    Normalize(Filtered(discovered.GetOr([]), filter))
  }

  /** A failed discovery finds nothing; one that succeeds finds exactly the last accepted instance of each ID. */
  lemma FoundAccepted(services: seq<Service>, accepts: Service -> bool, x: Service)
    ensures Found(None, Some(accepts)) == Found(None, None) == []
    ensures x in Found(Some(services), Some(accepts)) <==> IsLast(Filtered(services, Some(accepts)), x)
    ensures x in Found(Some(services), None) <==> IsLast(services, x)
  {
    LastOfEachId(Filtered(services, Some(accepts)), x);
    LastOfEachId(services, x);
  }

  /** The last-known-good state, the last snapshot sent, and the armed expiry instant. */
  datatype Watch = Watch(lastGood: seq<Service>, staleSince: Option<int>, lastSent: Snapshot, expiry: Option<int>)

  /** The snapshot for `found`, given when the outage began. */
  function Shown(lastGood: seq<Service>, since: Option<int>, found: seq<Service>, now: int, grace: int): Snapshot {
    if found != [] then Snapshot(found, false, None)
    else
      var start := if since.Some? then since.value else now;
      Snapshot(if now < start + grace then lastGood else [], true, Some(start))
  }

  function Published(w: Watch, found: seq<Service>, now: int, grace: int): Watch {
    var shown := Shown(w.lastGood, w.staleSince, found, now, grace);
    Watch(if found != [] then found else w.lastGood, shown.staleSince, shown,
          if shown.stale && shown.services != [] then Some(shown.staleSince.value + grace) else None)
  }

  function Initial(found: seq<Service>, now: int, grace: int): Watch {
    Published(Watch(found, None, Snapshot([], false, None), None), found, now, grace)
  }

  class UpstreamWatcher {
    const grace: int
    const filter: Option<Service -> bool>
    var lastGood: seq<Service>
    var staleSince: Option<int>
    var lastSent: Snapshot
    var timerMade: bool
    var staleTimer: Option<int>   // the instant at which the running timer fires
    var tick: bool                // the timer's channel holds a tick
    var listening: bool           // the select listens to that channel
    var sent: seq<Snapshot>
    var room: nat             // sends accepted before the context ends

    /** A running timer has not fired, and only a timer fires. */
    predicate Valid()
      reads this
    {
      (staleTimer.Some? ==> timerMade && !tick) && (tick ==> timerMade)
    }

    ghost function View(): Watch
      reads this
    {
      Watch(lastGood, staleSince, lastSent, staleTimer)
    }

    method FilterServices(services: seq<Service>) returns (filtered: seq<Service>)
      ensures filtered == Filtered(services, filter)
    {
      if filter.None? {
        return services;
      }
      filtered := [];
      for i := 0 to |services|
        invariant filtered == Filtered(services[..i], filter)
      {
        assert services[..i + 1][..i] == services[..i];
        if filter.value(services[i]) {
          filtered := filtered + [services[i]];
        }
      }
      assert services[..|services|] == services;
    }

    /** upstreamState.snapshot, with how long the fallback stays valid. */
    method TakeSnapshot(services: seq<Service>, now: int) returns (snapshot: Snapshot, remaining: int)
      modifies this`lastGood, this`staleSince
      ensures snapshot == Shown(old(lastGood), old(staleSince), Normalize(services), now, grace)
      ensures lastGood == (if Normalize(services) != [] then Normalize(services) else old(lastGood))
      ensures staleSince == snapshot.staleSince
      ensures remaining == if snapshot.stale && snapshot.services != [] then snapshot.staleSince.value + grace - now else 0
    {
      var found := NormalizeServices(services);
      if |found| > 0 {
        lastGood := found;
        staleSince := None;
        return Snapshot(found, false, None), 0;
      }
      if staleSince.None? {
        staleSince := Some(now);
      }
      snapshot := Snapshot([], true, staleSince);
      var left := grace - (now - staleSince.value);
      if |lastGood| > 0 && left > 0 {
        return snapshot.(services := lastGood), left;
      }
      return snapshot, 0;
    }

    /** Time reaches `now`: a timer that is due fires into its channel. */
    method Elapse(now: int)
      requires Valid()
      modifies this`staleTimer, this`tick
      ensures Valid()
      ensures tick <==> old(tick) || (old(staleTimer).Some? && old(staleTimer).value <= now)
      ensures staleTimer == if old(staleTimer).Some? && old(staleTimer).value <= now then None else old(staleTimer)
    {
      if staleTimer.Some? && staleTimer.value <= now {
        staleTimer, tick := None, true;
      }
    }

    /**
     Stop, drain, and start again: no tick of an earlier arming is left, so the next one
     received means that the instant armed here has come.
     */
    method ResetStaleTimer(after: int, now: int)
      requires Valid()
      modifies this`timerMade, this`staleTimer, this`tick, this`listening
      ensures Valid() && !tick && (listening <==> after > 0)
      ensures staleTimer == if after > 0 then Some(now + after) else None
    {
      if timerMade {
        if staleTimer.Some? {
          staleTimer := None;
        } else if tick {
          tick := false;
        }
      }
      listening := false;
      if after > 0 {
        timerMade, staleTimer := true, Some(now + after);
        listening := true;
      }
    }

    /** The select's timer case: it is taken only when the select listens and there is a tick. */
    method ReceiveTick() returns (received: bool)
      requires Valid()
      modifies this`tick, this`listening
      ensures Valid() && (received <==> old(listening) && old(tick))
      ensures received ==> !listening && !tick
      ensures !received ==> listening == old(listening) && tick == old(tick)
    {
      received := listening && tick;
      if received {
        tick, listening := false, false;
      }
    }

    /** A duplicate of the last snapshot is not sent, but its expiry is armed again. */
    method Publish(discovered: Option<seq<Service>>, now: int) returns (ok: bool)
      requires Valid()
      modifies this
      ensures Valid() && !tick && (listening <==> staleTimer.Some?)
      ensures var w := Published(old(View()), Found(discovered, filter), now, grace);
              && View() == (if ok then w else w.(lastSent := old(lastSent)))
              && ok == (w.lastSent == old(lastSent) || old(room) > 0)
              && sent == (if ok && w.lastSent != old(lastSent) then old(sent) + [w.lastSent] else old(sent))
    {
      var services := [];
      if discovered.Some? {
        services := discovered.value;
      }
      services := FilterServices(services);
      var snapshot, remaining := TakeSnapshot(services, now);
      ResetStaleTimer(remaining, now);
      if snapshot == lastSent {
        return true;
      }
      if room == 0 {
        return false;
      }
      room := room - 1;
      sent := sent + [snapshot];
      lastSent := snapshot;
      return true;
    }

    /**
     The start of the goroutine.  The first snapshot is sent before any comparison; when
     the context ends first, the goroutine is over with nothing sent and no timer made.
     */
    constructor (settings: Settings, discovered: seq<Service>, now: int, room: nat)
      ensures grace == (if settings.grace <= 0 then 30_000_000_000 else settings.grace) && filter == settings.filter
      ensures Valid() && !tick && (listening <==> staleTimer.Some?)
      ensures room > 0 ==> View() == Initial(Found(Some(discovered), filter), now, grace) && sent == [lastSent]
      ensures room == 0 ==> sent == [] && !timerMade
    {
      grace := if settings.grace <= 0 then 30_000_000_000 else settings.grace;
      filter := settings.filter;
      lastSent, staleSince, sent, this.room := Snapshot([], false, None), None, [], room;
      timerMade, staleTimer, tick, listening := false, None, false, false;
      lastGood := [];
      new;
      var services := FilterServices(discovered);
      ghost var found := Found(Some(discovered), filter);
      assert Normalize(services) == found;
      lastGood := NormalizeServices(services);
      var initial, remaining := TakeSnapshot(services, now);
      if room > 0 {
        this.room := room - 1;
        sent := [initial];
        lastSent := initial;
        ResetStaleTimer(remaining, now);
      }
    }
  }

  // ------------------------------------------------------------------ whole runs

  /** A reconciliation at clock reading `now`: an event, a resync, or the expiry timer firing. */
  datatype Step = Step(found: seq<Service>, now: int)

  function Exec(run: seq<Step>, grace: int): Watch
    requires run != []
  {
    var last := run[|run| - 1];
    if |run| == 1 then Initial(last.found, last.now, grace)
    else Published(Exec(run[..|run| - 1], grace), last.found, last.now, grace)
  }

  ghost predicate Monotone(run: seq<Step>) {
    forall i, j :: 0 <= i < j < |run| ==> run[i].now <= run[j].now
  }

  predicate Sends(run: seq<Step>, grace: int)
    requires run != []
  {
    |run| == 1 || Exec(run, grace).lastSent != Exec(run[..|run| - 1], grace).lastSent
  }

  /** The last non-empty discovery of the run. */
  function LastNonEmpty(run: seq<Step>): seq<Service> {
    if run == [] then []
    else if run[|run| - 1].found != [] then run[|run| - 1].found
    else LastNonEmpty(run[..|run| - 1])
  }

  /** When the outage the run ends in began, if it ends in one. */
  function OutageStart(run: seq<Step>): Option<int> {
    if run == [] || run[|run| - 1].found != [] then None
    else
      var before := OutageStart(run[..|run| - 1]);
      if before.Some? then before else Some(run[|run| - 1].now)
  }

  /** Snapshots sent since that outage began. */
  function SentInOutage(run: seq<Step>, grace: int): nat {
    if run == [] || run[|run| - 1].found != [] then 0
    else SentInOutage(run[..|run| - 1], grace) + (if Sends(run, grace) then 1 else 0)
  }

  lemma {:induction false} RunState(run: seq<Step>, grace: int)
    requires run != [] && Monotone(run) && grace > 0
    ensures var w, now := Exec(run, grace), run[|run| - 1].now;
            && w.lastGood == LastNonEmpty(run) && w.staleSince == OutageStart(run)
            && (w.staleSince.Some? ==> w.staleSince.value <= now)
            && w.lastSent == Shown(LastNonEmpty(run), OutageStart(run), run[|run| - 1].found, now, grace)
    ensures |run| > 1 ==> Monotone(run[..|run| - 1])
  {
    if |run| == 1 {
      assert run[..0] == [];
    } else {
      RunState(run[..|run| - 1], grace);
    }
  }

  /**
   Bounded staleness.  After every reconciliation the last snapshot sent shows exactly
   what was found, or, in an outage, the last non-empty discovery, and that only before
   the outage is `grace` old; while such a fallback is the last one sent, the expiry
   timer is armed for that very instant.
   */
  lemma {:induction false} BoundedStaleness(run: seq<Step>, grace: int)
    requires run != [] && Monotone(run) && grace > 0
    ensures var w, found, now := Exec(run, grace), run[|run| - 1].found, run[|run| - 1].now;
            && (found != [] ==> w.lastSent == Snapshot(found, false, None) && w.expiry == None)
            && (found == [] ==> w.lastSent.stale && w.lastSent.staleSince == OutageStart(run))
            && (w.lastSent.stale ==>
                  w.lastSent.services == (if now < OutageStart(run).value + grace then LastNonEmpty(run) else []))
            && (w.lastSent.stale && w.lastSent.services != [] ==> w.expiry == Some(OutageStart(run).value + grace))
            && (w.expiry.Some? ==> now < w.expiry.value)
  {
    RunState(run, grace);
    if |run| > 1 { RunState(run[..|run| - 1], grace); }
  }

  /** When the expiry timer fires and nothing is found, the fallback is withdrawn and the timer stays off. */
  lemma {:induction false} ExpiryWithdraws(run: seq<Step>, now: int, grace: int)
    requires run != [] && Monotone(run + [Step([], now)]) && grace > 0
    requires Exec(run, grace).expiry.Some? && now >= Exec(run, grace).expiry.value
    ensures var w := Exec(run + [Step([], now)], grace);
            w.lastSent == Snapshot([], true, Exec(run, grace).lastSent.staleSince) && w.expiry == None
  {
    assert (run + [Step([], now)])[..|run|] == run;
    assert Monotone(run) by {
      forall i, j | 0 <= i < j < |run| ensures run[i].now <= run[j].now {
        assert (run + [Step([], now)])[i].now <= (run + [Step([], now)])[j].now;
      }
    }
    BoundedStaleness(run, grace);
    RunState(run, grace);
  }

  /** One outage sends at most two snapshots: the fallback, then its withdrawal. */
  lemma {:induction false} AtMostTwoPerOutage(run: seq<Step>, grace: int)
    requires Monotone(run) && grace > 0
    ensures SentInOutage(run, grace) <= 2
    ensures run != [] && Exec(run, grace).lastSent.stale && Exec(run, grace).lastSent.services != [] ==>
              SentInOutage(run, grace) <= 1
  {
    if run != [] {
      var before := run[..|run| - 1];
      AtMostTwoPerOutage(before, grace);
      RunState(run, grace);
      if before != [] { RunState(before, grace); }
    }
  }

  /** Exactly: one snapshot while the fallback lasts, or when there is none to fall back to, and two afterwards. */
  lemma {:induction false} OutageSendsExactly(run: seq<Step>, grace: int)
    requires run != [] && Monotone(run) && grace > 0 && run[|run| - 1].found == []
    ensures SentInOutage(run, grace)
         == if LastNonEmpty(run) == [] || run[|run| - 1].now < OutageStart(run).value + grace then 1 else 2
  {
    var before := run[..|run| - 1];
    RunState(run, grace);
    if before != [] {
      RunState(before, grace);
      if before[|before| - 1].found == [] {
        OutageSendsExactly(before, grace);
      }
    }
  }
}
