/**
 The Consul watch: each blocking query returns the whole service list, and the watcher
 sends the difference from what it knew.

 Consul service IDs are unique per agent only, so a response may list an ID twice.
 An entry is `usable` when its service passes validation and has the watched name.
 */
module ConsulWatch {
  import opened Options
  import opened Services

  datatype Entry = Entry(svc: Service, usable: bool)

  /** `seen` after the loop over the entries: of equal IDs the last one wins. */
  function Seen(entries: seq<Entry>): View {
    if entries == [] then map[]
    else
      var e := entries[|entries| - 1];
      var before := Seen(entries[..|entries| - 1]);
      if e.usable then before[e.svc.instanceId := e.svc] else before
  }

  /** A put for every usable entry that is new or differs from what was known before the response. */
  function Puts(known: View, entries: seq<Entry>): seq<Event> {
    if entries == [] then []
    else
      var e := entries[|entries| - 1];
      Puts(known, entries[..|entries| - 1])
      + (if Changed(known, e) then [Put(e.svc)] else [])
  }

  /** The receiver's view after one response, given its view and the watcher's knowledge before. */
  function AfterPoll(view: View, known: View, entries: seq<Entry>): View {
    Replay(view, Puts(known, entries)) - (known.Keys - Seen(entries).Keys)
  }

  class ConsulWatcher {
    var known: View
    var sent: seq<Event>
    var room: nat

    method SendEvent(event: Event) returns (ok: bool)
      modifies this`sent, this`room
      ensures ok <==> old(room) > 0
      ensures sent == if ok then old(sent) + [event] else old(sent)
    {
      ok := room > 0;
      if ok {
        sent := sent + [event];
        room := room - 1;
      }
    }

    /** The first response: everything discovered is put. */
    method Start(current: seq<Service>) returns (ok: bool)
      requires sent == []
      modifies this
      ensures ok ==> known == ById(current) && sent == AllPut(current)
    {
      for i := 0 to |current|
        invariant sent == AllPut(current[..i])
      {
        assert AllPut(current[..i + 1]) == AllPut(current[..i]) + [Put(current[i])];
        ok := SendEvent(Put(current[i]));
        if !ok {
          return;
        }
      }
      assert current[..|current|] == current;
      known := map[];
      for i := 0 to |current|
        invariant known == ById(current[..i]) && sent == AllPut(current)
      {
        assert current[..i + 1][..i] == current[..i];
        known := known[current[i].instanceId := current[i]];
      }
      assert current[..|current|] == current;
      ok := true;
    }

    method SendChanged(entries: seq<Entry>) returns (ok: bool, seen: View)
      modifies this`sent, this`room
      ensures old(sent) <= sent
      ensures ok ==> seen == Seen(entries) && sent == old(sent) + Puts(known, entries)
    {
      seen := map[];
      for i := 0 to |entries|
        invariant seen == Seen(entries[..i]) && sent == old(sent) + Puts(known, entries[..i])
      {
        assert entries[..i + 1][..i] == entries[..i];
        var e := entries[i];
        if e.usable {
          seen := seen[e.svc.instanceId := e.svc];
          if e.svc.instanceId !in known || known[e.svc.instanceId] != e.svc {
            ok := SendEvent(Put(e.svc));
            if !ok {
              return;
            }
          }
        }
      }
      assert entries[..|entries|] == entries;
      ok := true;
    }

    /** One delete for every known instance that was not seen, in any order. */
    method SendRemoved(seen: View) returns (ok: bool, ghost deletes: seq<Event>)
      modifies this`sent, this`room
      ensures sent == old(sent) + deletes
      ensures ok ==> DeletesEach(deletes, known.Keys - seen.Keys)
    {
      deletes := [];
      ghost var gone: set<string> := {};
      var todo := known.Keys;
      while todo != {}
        invariant todo <= known.Keys && sent == old(sent) + deletes
        invariant gone == known.Keys - seen.Keys - todo && DeletesEach(deletes, gone)
      {
        var id :| id in todo;
        todo := todo - {id};
        if id !in seen {
          ok := SendEvent(Delete(id));
          if !ok {
            deletes := sent[|old(sent)|..];
            return;
          }
          DeletesOneMore(deletes, gone, id);
          deletes, gone := deletes + [Delete(id)], gone + {id};
        }
      }
      assert gone == known.Keys - seen.Keys;
      ok := true;
    }

    /** One turn of the watch loop with the response's entries. */
    method Poll(entries: seq<Entry>) returns (ok: bool)
      modifies this
      ensures old(sent) <= sent
      ensures ok ==> known == Seen(entries) && IsTurn(old(known), entries, sent[|old(sent)|..])
    {
      var seen: View;
      ghost var deletes;
      ok, seen := SendChanged(entries);
      if !ok {
        return;
      }
      ok, deletes := SendRemoved(seen);
      if ok {
        assert sent[|old(sent)|..] == Puts(known, entries) + deletes;
        TurnOf(known, entries, deletes);
        known := seen;
      }
    }

    /** The whole goroutine over a list of responses; it stops early only when its context ends. */
    method Run(current: seq<Service>, responses: seq<seq<Entry>>) returns (ok: bool)
      requires sent == []
      modifies this
      ensures ok ==> known == KnownAfter(current, responses) && IsLog(current, responses, sent)
    {
      ok := Start(current);
      if !ok {
        return;
      }
      for r := 0 to |responses|
        invariant known == KnownAfter(current, responses[..r]) && IsLog(current, responses[..r], sent)
      {
        ghost var before := sent;
        ok := Poll(responses[r]);
        if !ok {
          return;
        }
        LogExtends(current, responses, r, before, sent);
      }
      assert responses[..|responses|] == responses;
      ok := true;
    }
  }

  /** What one turn sends: the puts in the order of the response, then one delete per instance gone. */
  ghost predicate IsTurn(known: View, entries: seq<Entry>, events: seq<Event>) {
    var n := |Puts(known, entries)|;
    n <= |events| && events[..n] == Puts(known, entries) && DeletesEach(events[n..], known.Keys - Seen(entries).Keys)
  }

  lemma LogExtends(current: seq<Service>, responses: seq<seq<Entry>>, r: nat, before: seq<Event>, log: seq<Event>)
    requires r < |responses| && IsLog(current, responses[..r], before) && before <= log
    requires IsTurn(KnownAfter(current, responses[..r]), responses[r], log[|before|..])
    ensures IsLog(current, responses[..r + 1], log) && KnownAfter(current, responses[..r + 1]) == Seen(responses[r])
  {
    assert responses[..r + 1][..r] == responses[..r];
    assert log[..|before|] == before;
  }

  lemma TurnOf(known: View, entries: seq<Entry>, deletes: seq<Event>)
    requires DeletesEach(deletes, known.Keys - Seen(entries).Keys)
    ensures IsTurn(known, entries, Puts(known, entries) + deletes)
  {
    var n := |Puts(known, entries)|;
    assert (Puts(known, entries) + deletes)[n..] == deletes;
  }

  function KnownAfter(current: seq<Service>, responses: seq<seq<Entry>>): View {
    if responses == [] then ById(current) else Seen(responses[|responses| - 1])
  }

  function AllPut(current: seq<Service>): seq<Event> {
    seq(|current|, i requires 0 <= i < |current| => Put(current[i]))
  }

  /** The log of the watch: everything discovered, then one turn per response. */
  ghost predicate IsLog(current: seq<Service>, responses: seq<seq<Entry>>, log: seq<Event>)
    decreases |responses|
  {
    if responses == [] then log == AllPut(current)
    else
      var n := |responses| - 1;
      exists k :: 0 <= k <= |log| && IsLog(current, responses[..n], log[..k])
               && IsTurn(KnownAfter(current, responses[..n]), responses[n], log[k..])
  }

  // ------------------------------------------------------------------ guarantees

  /** Some usable entry for `id` differs from what was known. */
  ghost predicate Differs(known: View, entries: seq<Entry>, id: string) {
    exists i :: 0 <= i < |entries| && entries[i].usable && entries[i].svc.instanceId == id
             && Find(known, id) != Some(entries[i].svc)
  }

  lemma {:induction false} PutsEffect(view: View, known: View, entries: seq<Entry>, id: string)
    ensures var after, seen := Replay(view, Puts(known, entries)), Seen(entries);
            && (!Differs(known, entries, id) ==>
                  Find(after, id) == Find(view, id) && (id in seen ==> Find(known, id) == Some(seen[id])))
            && (Differs(known, entries, id) ==>
                  && id in seen && id in after && Find(known, id) != Some(after[id])
                  && (Find(known, id) != Some(seen[id]) ==> after[id] == seen[id]))
  {
    if entries != [] {
      var n := |entries| - 1;
      PutsEffect(view, known, entries[..n], id);
      DiffersNext(known, entries, id);
      ReplayNext(view, known, entries);
    }
  }

  predicate Changed(known: View, e: Entry) {
    e.usable && Find(known, e.svc.instanceId) != Some(e.svc)
  }

  lemma DiffersNext(known: View, entries: seq<Entry>, id: string)
    requires entries != []
    ensures var n := |entries| - 1;
            Differs(known, entries, id) <==>
              Differs(known, entries[..n], id) || (Changed(known, entries[n]) && entries[n].svc.instanceId == id)
  {
  }

  lemma ReplayNext(view: View, known: View, entries: seq<Entry>)
    requires entries != []
    ensures var n := |entries| - 1;
            Replay(view, Puts(known, entries)) ==
              if Changed(known, entries[n]) then Replay(view, Puts(known, entries[..n]))[entries[n].svc.instanceId := entries[n].svc]
              else Replay(view, Puts(known, entries[..n]))
  {
    var n := |entries| - 1;
    if Changed(known, entries[n]) {
      ReplayOne(view, Puts(known, entries[..n]), Put(entries[n].svc));
    } else {
      assert Puts(known, entries) == Puts(known, entries[..n]);
    }
  }

  /**
   Consul diff.  A receiver that held what the watcher knew holds the latest response's
   entries afterwards if and only if no ID is listed both as it was known, in its last
   entry, and differently in another: there the put of the other entry is never
   taken back.
   */
  lemma DiffExact(known: View, entries: seq<Entry>)
    ensures AfterPoll(known, known, entries) == Seen(entries)
       <==> forall id :: id in Seen(entries) && Differs(known, entries, id) ==> Find(known, id) != Some(Seen(entries)[id])
  {
    var after, seen := AfterPoll(known, known, entries), Seen(entries);
    forall id
      ensures Find(after, id) == Find(seen, id)
         <==> !(id in seen && Differs(known, entries, id) && Find(known, id) == Some(seen[id]))
    {
      PutsEffect(known, known, entries, id);
    }
    if forall id :: id in seen && Differs(known, entries, id) ==> Find(known, id) != Some(seen[id]) {
      forall id ensures id in after <==> id in seen
        ensures id in after && id in seen ==> after[id] == seen[id]
      {
        assert Find(after, id) == Find(seen, id);
      }
      assert after == seen;
    }
  }

  ghost predicate DistinctIds(entries: seq<Entry>) {
    forall i, j :: 0 <= i < j < |entries| ==> entries[i].svc.instanceId != entries[j].svc.instanceId
  }

  lemma {:induction false} SeenOfDistinct(entries: seq<Entry>, i: nat)
    requires DistinctIds(entries) && i < |entries| && entries[i].usable
    ensures Find(Seen(entries), entries[i].svc.instanceId) == Some(entries[i].svc)
  {
    var n := |entries| - 1;
    if i < n {
      SeenOfDistinct(entries[..n], i);
    }
  }

  /** With distinct IDs the replayed log is exactly the latest response, at every response. */
  lemma DistinctIdsReplay(known: View, entries: seq<Entry>)
    requires DistinctIds(entries)
    ensures AfterPoll(known, known, entries) == Seen(entries)
  {
    forall id | id in Seen(entries) && Differs(known, entries, id) ensures Find(known, id) != Some(Seen(entries)[id]) {
      var i :| 0 <= i < |entries| && entries[i].usable && entries[i].svc.instanceId == id
            && Find(known, id) != Some(entries[i].svc);
      SeenOfDistinct(entries, i);
    }
    DiffExact(known, entries);
  }

  /** Replaying one turn's events gives AfterPoll. */
  lemma TurnReplay(view: View, known: View, entries: seq<Entry>, events: seq<Event>)
    requires IsTurn(known, entries, events)
    ensures Replay(view, events) == AfterPoll(view, known, entries)
  {
    var n := |Puts(known, entries)|;
    assert events == events[..n] + events[n..];
    ReplayConcat(view, events[..n], events[n..]);
    DeletesRemove(Replay(view, events[..n]), events[n..], known.Keys - Seen(entries).Keys);
  }

  lemma {:induction false} AllPutReplay(current: seq<Service>)
    ensures Replay(map[], AllPut(current)) == ById(current)
  {
    if current != [] {
      var n := |current| - 1;
      AllPutReplay(current[..n]);
      assert AllPut(current) == AllPut(current[..n]) + [Put(current[n])];
      ReplayOne(map[], AllPut(current[..n]), Put(current[n]));
    }
  }

  /**
   Over any number of responses with distinct IDs, folding the whole event log gives
   exactly the usable entries of the latest response.
   */
  lemma {:induction false} LogFolds(current: seq<Service>, responses: seq<seq<Entry>>, log: seq<Event>)
    requires IsLog(current, responses, log)
    requires forall r :: 0 <= r < |responses| ==> DistinctIds(responses[r])
    ensures Replay(map[], log) == KnownAfter(current, responses)
    decreases |responses|
  {
    if responses == [] {
      AllPutReplay(current);
    } else {
      var n := |responses| - 1;
      var known := KnownAfter(current, responses[..n]);
      var k :| 0 <= k <= |log| && IsLog(current, responses[..n], log[..k]) && IsTurn(known, responses[n], log[k..]);
      LogFolds(current, responses[..n], log[..k]);
      assert log == log[..k] + log[k..];
      ReplayConcat(map[], log[..k], log[k..]);
      TurnReplay(known, known, responses[n], log[k..]);
      DistinctIdsReplay(known, responses[n]);
    }
  }

  function IdOf(event: Event): string {
    if event.Put? then event.svc.instanceId else event.instanceId
  }

  /** How many events are about `id`. */
  function About(events: seq<Event>, id: string): nat {
    if events == [] then 0
    else About(events[..|events| - 1], id) + (if IdOf(events[|events| - 1]) == id then 1 else 0)
  }

  lemma {:induction false} AboutConcat(a: seq<Event>, b: seq<Event>, id: string)
    ensures About(a + b, id) == About(a, id) + About(b, id)
  {
    if b == [] {
      assert a + b == a;
    } else {
      assert (a + b)[..|a + b| - 1] == a + b[..|b| - 1];
      AboutConcat(a, b[..|b| - 1], id);
    }
  }

  lemma {:induction false} PutsAbout(known: View, entries: seq<Entry>, id: string)
    requires DistinctIds(entries)
    ensures About(Puts(known, entries), id) == if id in Seen(entries) && Find(known, id) != Find(Seen(entries), id) then 1 else 0
    ensures id in Seen(entries) ==> exists i :: 0 <= i < |entries| && entries[i].svc.instanceId == id
  {
    if entries != [] {
      var n := |entries| - 1;
      var e := entries[n];
      PutsAbout(known, entries[..n], id);
      if id in Seen(entries[..n]) {
        var i :| 0 <= i < n && entries[..n][i].svc.instanceId == id;
        assert entries[i].svc.instanceId == id;
      }
      if e.svc.instanceId == id && e.usable {
        assert entries[n].svc.instanceId == id && id !in Seen(entries[..n]);
      }
      AboutConcat(Puts(known, entries[..n]), if Changed(known, e) then [Put(e.svc)] else [], id);
      assert [Put(e.svc)][..0] == [];
    }
  }

  lemma {:induction false} DeletesAbout(events: seq<Event>, gone: set<string>, id: string)
    requires DeletesEach(events, gone)
    ensures About(events, id) == if id in gone then 1 else 0
  {
    if events != [] {
      var n := |events| - 1;
      var last := events[n].instanceId;
      forall x | x in gone - {last} ensures Delete(x) in events[..n] {
        var i :| 0 <= i < |events| && events[i] == Delete(x);
        assert events[..n][i] == Delete(x);
      }
      DeletesAbout(events[..n], gone - {last}, id);
    }
  }

  /** With distinct IDs a turn sends one event about each instance that changed, and none about any other. */
  lemma OneEventPerChange(known: View, entries: seq<Entry>, events: seq<Event>, id: string)
    requires DistinctIds(entries) && IsTurn(known, entries, events)
    ensures About(events, id) == if Find(known, id) == Find(Seen(entries), id) then 0 else 1
  {
    var n := |Puts(known, entries)|;
    assert events == events[..n] + events[n..];
    AboutConcat(events[..n], events[n..], id);
    PutsAbout(known, entries, id);
    DeletesAbout(events[n..], known.Keys - Seen(entries).Keys, id);
  }

  /** Puts are sent exactly for usable entries that differ from what was known. */
  lemma {:induction false} PutsOnlyChanges(known: View, entries: seq<Entry>, event: Event)
    ensures event in Puts(known, entries) <==> event.Put? && exists i ::
              0 <= i < |entries| && entries[i].usable && entries[i].svc == event.svc
              && Find(known, event.svc.instanceId) != Some(event.svc)
  {
    if entries != [] {
      var n := |entries| - 1;
      PutsOnlyChanges(known, entries[..n], event);
      assert entries == entries[..n] + [entries[n]];
      if event.Put? && exists i :: 0 <= i < |entries| && entries[i].usable && entries[i].svc == event.svc
                               && Find(known, event.svc.instanceId) != Some(event.svc) {
        var i :| 0 <= i < |entries| && entries[i].usable && entries[i].svc == event.svc
              && Find(known, event.svc.instanceId) != Some(event.svc);
        assert i < n ==> entries[..n][i] == entries[i];
      }
    }
  }

  /**
   A wrong view is not repaired: as long as responses repeat what the watcher knows,
   without duplicates, nothing is sent and the receiver keeps whatever it holds.
   */
  lemma UnchangedResponseIsSilent(view: View, entries: seq<Entry>)
    requires DistinctIds(entries)
    ensures Puts(Seen(entries), entries) == [] && AfterPoll(view, Seen(entries), entries) == view
  {
    var known := Seen(entries);
    if Puts(known, entries) != [] {
      var event := Puts(known, entries)[0];
      PutsOnlyChanges(known, entries, event);
      var i :| 0 <= i < |entries| && entries[i].usable && entries[i].svc == event.svc
            && Find(known, event.svc.instanceId) != Some(event.svc);
      SeenOfDistinct(entries, i);
    }
  }
}
