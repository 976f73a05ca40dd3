/**
 The etcd watch: a snapshot, then a stream of incremental events, and a fresh
 snapshot after every interruption, turned into one event log.  The receiver of the
 log must end up with exactly what the store holds.

 A stored value is modelled as already decoded: `Some(svc)` when it unmarshals to a
 service that passes validation, `None` otherwise.
 */
module EtcdWatch {
  import opened Options
  import opened GoStrings
  import opened Services

  type Value = Option<Service>

  datatype KV = KV(key: string, value: Value)

  /** What etcd sends: `prev` is absent when the old revision has been compacted away. */
  datatype StoreEvent = PutEvent(kv: Option<KV>) | DeleteEvent(kv: Option<KV>, prev: Option<KV>)

  type Store = map<string, Value>

  /** The instance a key-value pair announces for this service, if it is usable. */
  function Announced(prefix: string, name: string, kv: KV): Option<Service> {
    var id := InstanceFromKey(prefix, kv.key);
    if id.Some? && kv.value.Some? && kv.value.value.name == name && kv.value.value.instanceId == id.value
    then kv.value else None
  }

  function EtcdEvent(prefix: string, name: string, ev: StoreEvent): Option<Event> {
    match ev
    case PutEvent(None) => None
    case PutEvent(Some(kv)) =>
      var svc := Announced(prefix, name, kv);
      if svc.Some? then Some(Put(svc.value)) else None
    case DeleteEvent(kv, prev) =>
      var deleted := if prev.Some? then Announced(prefix, name, prev.value) else None;
      if deleted.Some? then Some(Delete(deleted.value.instanceId))
      else
        var id := if kv.Some? then InstanceFromKey(prefix, kv.value.key) else None;
        if id.Some? then Some(Delete(id.value)) else None
  }

  /** `current` after the snapshot loop: the usable pairs by instance. */
  function Current(prefix: string, name: string, snapshot: seq<KV>): View {
    if snapshot == [] then map[]
    else
      var n := |snapshot| - 1;
      var svc := Announced(prefix, name, snapshot[n]);
      var before := Current(prefix, name, snapshot[..n]);
      if svc.Some? then before[svc.value.instanceId := svc.value] else before
  }

  /** The events a list of store events is turned into. */
  function Translated(prefix: string, name: string, events: seq<StoreEvent>): seq<Event> {
    if events == [] then []
    else
      var n := |events| - 1;
      var event := EtcdEvent(prefix, name, events[n]);
      Translated(prefix, name, events[..n]) + (if event.Some? then [event.value] else [])
  }

  /** One connection: a snapshot, and the responses received before the interruption. */
  datatype Cycle = Cycle(snapshot: seq<KV>, responses: seq<seq<StoreEvent>>)

  function Flatten(responses: seq<seq<StoreEvent>>): seq<StoreEvent> {
    if responses == [] then [] else Flatten(responses[..|responses| - 1]) + responses[|responses| - 1]
  }

  /** What the watcher knows at the end of a connection. */
  function KnownAfter(prefix: string, name: string, cycle: Cycle): View {
    Replay(Current(prefix, name, cycle.snapshot), Translated(prefix, name, Flatten(cycle.responses)))
  }

  function Extended(sent: seq<Event>, event: Option<Event>): seq<Event> {
    if event.Some? then sent + [event.value] else sent
  }

  function Updated(view: View, event: Option<Event>): View {
    if event.Some? then Apply(view, event.value) else view
  }

  lemma TranslatedNext(prefix: string, name: string, view: View, sent: seq<Event>, events: seq<StoreEvent>, i: nat)
    requires i < |events|
    ensures var event := EtcdEvent(prefix, name, events[i]);
            var before, after := Translated(prefix, name, events[..i]), Translated(prefix, name, events[..i + 1]);
            && sent + after == Extended(sent + before, event)
            && Replay(view, after) == Updated(Replay(view, before), event)
  {
    var event := EtcdEvent(prefix, name, events[i]);
    var before := Translated(prefix, name, events[..i]);
    assert events[..i + 1][..i] == events[..i];
    if event.Some? {
      assert sent + (before + [event.value]) == sent + before + [event.value];
      ReplayOne(view, before, event.value);
    } else {
      assert before + [] == before;
    }
  }

  /** Every instance is as it was known or as some part of the snapshot shows it. */
  ghost predicate OldOrNew(prefix: string, name: string, known: View, snapshot: seq<KV>, view: View) {
    forall id :: Find(view, id) == Find(known, id) || exists k ::
      0 <= k <= |snapshot| && Find(view, id) == Find(Current(prefix, name, snapshot[..k]), id)
  }

  /** The goroutine of Watch with the channel it writes to. */
  class EtcdWatcher {
    const prefix: string
    const name: string
    var known: View
    var sent: seq<Event>
    var room: nat        // sends the receiver still accepts before its context ends

    constructor (prefix: string, name: string, room: nat)
      ensures this.prefix == prefix && this.name == name && this.room == room
      ensures known == map[] && sent == []
    {
      this.prefix, this.name, this.room := prefix, name, room;
      known, sent := map[], [];
    }

    method SendEvent(event: Event) returns (ok: bool)
      modifies this`sent, this`room
      ensures ok <==> old(room) > 0
      ensures sent == if ok then old(sent) + [event] else old(sent)
    {
      ok := room > 0;
      if ok {
        sent := sent + [event];
        room := room - 1;
      }
    }

    /** First snapshot loop: put every usable instance. */
    method SendCurrent(snapshot: seq<KV>) returns (ok: bool, current: View)
      requires Replay(map[], sent) == known
      modifies this`sent, this`room
      ensures old(sent) <= sent
      ensures ok ==> current == Current(prefix, name, snapshot) && Replay(map[], sent) == known + current
      ensures !ok ==> exists k :: 0 <= k < |snapshot| && Replay(map[], sent) == known + Current(prefix, name, snapshot[..k])
    {
      current := map[];
      for i := 0 to |snapshot|
        invariant old(sent) <= sent && current == Current(prefix, name, snapshot[..i])
        invariant Replay(map[], sent) == known + current
      {
        assert snapshot[..i + 1][..i] == snapshot[..i];
        var svc := Announced(prefix, name, snapshot[i]);
        if svc.Some? {
          current := current[svc.value.instanceId := svc.value];
          ReplayOne(map[], sent, Put(svc.value));
          ok := SendEvent(Put(svc.value));
          if !ok {
            return;
          }
        }
      }
      assert snapshot[..|snapshot|] == snapshot;
      ok := true;
    }

    /** Second snapshot loop: one delete for every instance that is gone, in any order. */
    method SendGone(current: View) returns (ok: bool, ghost deletes: seq<Event>, ghost gone: set<string>)
      modifies this`sent, this`room
      ensures sent == old(sent) + deletes && DeletesEach(deletes, gone)
      ensures gone <= known.Keys - current.Keys && (ok <==> gone == known.Keys - current.Keys)
    {
      ghost var start := sent;
      deletes, gone := [], {};
      var todo := known.Keys;
      while todo != {}
        invariant todo <= known.Keys && sent == start + deletes
        invariant gone == known.Keys - current.Keys - todo && DeletesEach(deletes, gone)
      {
        var id :| id in todo;
        todo := todo - {id};
        if id !in current {
          ok := SendEvent(Delete(id));
          if !ok {
            assert id !in gone;
            return;
          }
          DeletesOneMore(deletes, gone, id);
          deletes, gone := deletes + [Delete(id)], gone + {id};
          assert sent == start + deletes;
        }
      }
      ok := true;
    }

    /** The snapshot half of the loop.  A receiver cut off in the middle holds, per instance, old or new. */
    method Reconcile(snapshot: seq<KV>) returns (ok: bool)
      requires Replay(map[], sent) == known
      modifies this
      ensures old(sent) <= sent
      ensures ok ==> known == Current(prefix, name, snapshot) && Replay(map[], sent) == known
      ensures !ok ==> known == old(known) && OldOrNew(prefix, name, known, snapshot, Replay(map[], sent))
    {
      var current: View;
      ok, current := SendCurrent(snapshot);
      if !ok {
        return;
      }
      ghost var view, before := known + current, sent;
      ghost var deletes, gone;
      ok, deletes, gone := SendGone(current);
      ReplayConcat(map[], before, deletes);
      DeletesRemove(view, deletes, gone);
      if ok {
        assert view - (known.Keys - current.Keys) == current;
        known := current;
      } else {
        assert snapshot[..|snapshot|] == snapshot;
      }
    }

    /** One event of a response: `known` changes even when the receiver's context has ended. */
    method Forward(raw: StoreEvent) returns (ok: bool)
      requires Replay(map[], sent) == known
      modifies this
      ensures known == Updated(old(known), EtcdEvent(prefix, name, raw))
      ensures sent == if ok then Extended(old(sent), EtcdEvent(prefix, name, raw)) else old(sent)
      ensures ok ==> Replay(map[], sent) == known
    {
      var event := EtcdEvent(prefix, name, raw);
      if event.None? {
        return true;
      }
      if event.value.Delete? {
        known := known - {event.value.instanceId};
      } else {
        known := known[event.value.svc.instanceId := event.value.svc];
      }
      ReplayOne(map[], sent, event.value);
      ok := SendEvent(event.value);
    }

    /** The event half of the loop for one response. */
    method Deliver(events: seq<StoreEvent>) returns (ok: bool)
      requires Replay(map[], sent) == known
      modifies this
      ensures old(sent) <= sent
      ensures ok ==> sent == old(sent) + Translated(prefix, name, events)
      ensures ok ==> known == Replay(old(known), Translated(prefix, name, events)) && Replay(map[], sent) == known
      ensures !ok ==> exists k :: 0 <= k < |events| && sent == old(sent) + Translated(prefix, name, events[..k])
    {
      ghost var known0, sent0 := known, sent;
      assert events[..0] == [];
      for i := 0 to |events|
        invariant sent == sent0 + Translated(prefix, name, events[..i])
        invariant known == Replay(known0, Translated(prefix, name, events[..i]))
        invariant Replay(map[], sent) == known
      {
        TranslatedNext(prefix, name, known0, sent0, events, i);
        ok := Forward(events[i]);
        if !ok {
          return;
        }
      }
      assert events[..|events|] == events;
      ok := true;
    }

    /** The whole goroutine over a list of connections; it stops early only when its context ends. */
    method Run(cycles: seq<Cycle>) returns (ok: bool)
      requires Replay(map[], sent) == known
      modifies this
      ensures old(sent) <= sent
      ensures ok && cycles != [] ==> known == KnownAfter(prefix, name, cycles[|cycles| - 1])
      ensures ok ==> Replay(map[], sent) == known
    {
      for c := 0 to |cycles|
        invariant old(sent) <= sent && Replay(map[], sent) == known
        invariant c > 0 ==> known == KnownAfter(prefix, name, cycles[c - 1])
      {
        ok := Reconcile(cycles[c].snapshot);
        if !ok {
          return;
        }
        var responses := cycles[c].responses;
        for r := 0 to |responses|
          invariant old(sent) <= sent && Replay(map[], sent) == known
          invariant known == KnownAfter(prefix, name, Cycle(cycles[c].snapshot, responses[..r]))
        {
          KnownAfterResponse(prefix, name, cycles[c].snapshot, responses[..r], responses[r]);
          assert responses[..r] + [responses[r]] == responses[..r + 1];
          ok := Deliver(responses[r]);
          if !ok {
            return;
          }
        }
        assert responses[..|responses|] == responses;
      }
      ok := true;
    }
  }

  lemma {:induction false} TranslatedConcat(prefix: string, name: string, a: seq<StoreEvent>, b: seq<StoreEvent>)
    ensures Translated(prefix, name, a + b) == Translated(prefix, name, a) + Translated(prefix, name, b)
  {
    if b == [] {
      assert a + b == a;
    } else {
      assert (a + b)[..|a + b| - 1] == a + b[..|b| - 1];
      TranslatedConcat(prefix, name, a, b[..|b| - 1]);
    }
  }

  lemma KnownAfterResponse(prefix: string, name: string, snapshot: seq<KV>,
                           responses: seq<seq<StoreEvent>>, next: seq<StoreEvent>)
    ensures KnownAfter(prefix, name, Cycle(snapshot, responses + [next]))
         == Replay(KnownAfter(prefix, name, Cycle(snapshot, responses)), Translated(prefix, name, next))
  {
    assert (responses + [next])[..|responses|] == responses;
    TranslatedConcat(prefix, name, Flatten(responses), next);
    ReplayConcat(Current(prefix, name, snapshot),
                 Translated(prefix, name, Flatten(responses)), Translated(prefix, name, next));
  }

  // ------------------------------------------------------------- against the store

  /** The instance of this service the store announces under `id`. */
  function Seen(prefix: string, name: string, store: Store, id: string): Option<Service> {
    if ValidInstanceId(id) && prefix + id in store
    then Announced(prefix, name, KV(prefix + id, store[prefix + id])) else None
  }

  /** The watcher knows exactly the instances the store announces. */
  ghost predicate Mirrors(prefix: string, name: string, known: View, store: Store) {
    forall id :: Find(known, id) == Seen(prefix, name, store, id)
  }

  /** A prefix read: each key under the prefix once, with its value. */
  ghost predicate Lists(prefix: string, snapshot: seq<KV>, store: Store) {
    && (forall i, j :: 0 <= i < j < |snapshot| ==> snapshot[i].key != snapshot[j].key)
    && (forall kv :: kv in snapshot <==> HasPrefix(kv.key, prefix) && Find(store, kv.key) == Some(kv.value))
  }

  datatype Write = WritePut(key: string, value: Value) | WriteDelete(key: string)

  function Written(store: Store, w: Write): Store {
    match w
    case WritePut(key, value) => store[key := value]
    case WriteDelete(key) => store - {key}
  }

  /** The event etcd sends for a write under the prefix. */
  predicate Describes(store: Store, w: Write, ev: StoreEvent) {
    match w
    case WritePut(key, value) => ev == PutEvent(Some(KV(key, value)))
    case WriteDelete(key) =>
      && key in store && ev.DeleteEvent? && ev.kv == Some(KV(key, None))
      && (ev.prev == None || ev.prev == Some(KV(key, store[key])))
  }

  /** A gapless stream: every write under the prefix, in order. */
  ghost predicate Streams(prefix: string, store: Store, writes: seq<Write>, events: seq<StoreEvent>)
    decreases |writes|
  {
    if writes == [] then events == []
    else
      events != [] && HasPrefix(writes[0].key, prefix) && Describes(store, writes[0], events[0])
      && Streams(prefix, Written(store, writes[0]), writes[1..], events[1..])
  }

  function AllWritten(store: Store, writes: seq<Write>): Store
    decreases |writes|
  {
    if writes == [] then store else AllWritten(Written(store, writes[0]), writes[1..])
  }

  lemma PrefixedKey(prefix: string, key: string, id: string)
    requires prefix != ""
    ensures InstanceFromKey(prefix, key) == Some(id) <==> ValidInstanceId(id) && key == prefix + id
    ensures HasPrefix(prefix + id, prefix)
  {
  }

  lemma {:induction false} CurrentOf(prefix: string, name: string, snapshot: seq<KV>, id: string)
    requires prefix != "" && forall i, j :: 0 <= i < j < |snapshot| ==> snapshot[i].key != snapshot[j].key
    ensures forall i :: 0 <= i < |snapshot| && ValidInstanceId(id) && snapshot[i].key == prefix + id ==>
              Find(Current(prefix, name, snapshot), id) == Announced(prefix, name, snapshot[i])
    ensures !(ValidInstanceId(id) && exists i :: 0 <= i < |snapshot| && snapshot[i].key == prefix + id) ==>
              id !in Current(prefix, name, snapshot)
  {
    if snapshot != [] {
      var n := |snapshot| - 1;
      CurrentOf(prefix, name, snapshot[..n], id);
      PrefixedKey(prefix, snapshot[n].key, id);
      if ValidInstanceId(id) && snapshot[n].key == prefix + id {
        forall i | 0 <= i < n ensures snapshot[..n][i].key != prefix + id {
          assert snapshot[i].key != snapshot[n].key;
        }
        assert id !in Current(prefix, name, snapshot[..n]);
      } else if exists i :: 0 <= i < |snapshot| && snapshot[i].key == prefix + id {
        var i :| 0 <= i < |snapshot| && snapshot[i].key == prefix + id;
        assert i < n ==> snapshot[..n][i].key == prefix + id;
      }
    }
  }

  /** A snapshot makes the watcher mirror the store, whatever it knew before. */
  lemma SnapshotMirrors(prefix: string, name: string, snapshot: seq<KV>, store: Store)
    requires prefix != "" && Lists(prefix, snapshot, store)
    ensures Mirrors(prefix, name, Current(prefix, name, snapshot), store)
  {
    forall id ensures Find(Current(prefix, name, snapshot), id) == Seen(prefix, name, store, id) {
      CurrentOf(prefix, name, snapshot, id);
      PrefixedKey(prefix, prefix + id, id);
      if ValidInstanceId(id) && prefix + id in store {
        assert KV(prefix + id, store[prefix + id]) in snapshot;
      } else if ValidInstanceId(id) && exists i :: 0 <= i < |snapshot| && snapshot[i].key == prefix + id {
        var i :| 0 <= i < |snapshot| && snapshot[i].key == prefix + id;
        assert snapshot[i] in snapshot;
      }
    }
  }

  /**
   The watcher mirrors the store except that it may still hold an instance whose key
   has been overwritten by a value that is not usable.
   */
  ghost predicate Lags(prefix: string, name: string, known: View, store: Store) {
    forall id :: Find(known, id) == Seen(prefix, name, store, id)
              || (Seen(prefix, name, store, id) == None && ValidInstanceId(id) && prefix + id in store)
  }

  lemma EventLags(prefix: string, name: string, known: View, store: Store, w: Write, ev: StoreEvent)
    requires prefix != "" && HasPrefix(w.key, prefix) && Describes(store, w, ev) && Lags(prefix, name, known, store)
    ensures Lags(prefix, name, Replay(known, Translated(prefix, name, [ev])), Written(store, w))
  {
    var event := EtcdEvent(prefix, name, ev);
    assert [ev][..0] == [];
    assert Translated(prefix, name, [ev]) == if event.Some? then [event.value] else [];
    ReplayOne(known, [], if event.Some? then event.value else Delete(""));
    var after := Replay(known, Translated(prefix, name, [ev]));
    assert after == if event.Some? then Apply(known, event.value) else known;
    forall id
      ensures Find(after, id) == Seen(prefix, name, Written(store, w), id)
           || (Seen(prefix, name, Written(store, w), id) == None && ValidInstanceId(id) && prefix + id in Written(store, w))
    {
      PrefixedKey(prefix, w.key, id);
      if w.key == prefix + id {
      } else {
        assert Find(after, id) == Find(known, id);
        assert Seen(prefix, name, Written(store, w), id) == Seen(prefix, name, store, id);
      }
    }
  }

  lemma {:induction false} StreamLags(prefix: string, name: string, known: View, store: Store,
                                      writes: seq<Write>, events: seq<StoreEvent>)
    requires prefix != "" && Streams(prefix, store, writes, events) && Lags(prefix, name, known, store)
    ensures Lags(prefix, name, Replay(known, Translated(prefix, name, events)), AllWritten(store, writes))
    decreases |writes|
  {
    if writes != [] {
      EventLags(prefix, name, known, store, writes[0], events[0]);
      var k1 := Replay(known, Translated(prefix, name, [events[0]]));
      StreamLags(prefix, name, k1, Written(store, writes[0]), writes[1..], events[1..]);
      assert events == [events[0]] + events[1..];
      TranslatedConcat(prefix, name, [events[0]], events[1..]);
      ReplayConcat(known, Translated(prefix, name, [events[0]]), Translated(prefix, name, events[1..]));
    }
  }

  /** The watcher's knowledge of `id` when a usable value has (`shown`) or has not stood there since its last delete. */
  ghost predicate Follows(prefix: string, name: string, known: View, store: Store, id: string, shown: bool) {
    var seen := Seen(prefix, name, store, id);
    if seen.Some? then Find(known, id) == seen else id in known <==> shown
  }

  /**
   Read off the store and the writes alone: the value now stored for `id` is unusable,
   but a usable one stood there before, with no delete in between.
   */
  predicate Hidden(prefix: string, name: string, store: Store, writes: seq<Write>, id: string, shown: bool)
    decreases |writes|
  {
    var seen := Seen(prefix, name, store, id).Some?;
    if writes == [] then shown && !seen
    else Hidden(prefix, name, Written(store, writes[0]), writes[1..], id,
                (shown || seen) && writes[0] != WriteDelete(prefix + id))
  }

  lemma EventFollows(prefix: string, name: string, known: View, store: Store, w: Write, ev: StoreEvent, id: string, shown: bool)
    requires prefix != "" && ValidInstanceId(id) && HasPrefix(w.key, prefix) && Describes(store, w, ev)
    requires Follows(prefix, name, known, store, id, shown)
    ensures Follows(prefix, name, Updated(known, EtcdEvent(prefix, name, ev)), Written(store, w), id,
                    (shown || Seen(prefix, name, store, id).Some?) && w != WriteDelete(prefix + id))
  {
    PrefixedKey(prefix, w.key, id);
    if w.key != prefix + id {
      assert Find(Updated(known, EtcdEvent(prefix, name, ev)), id) == Find(known, id);
      assert Seen(prefix, name, Written(store, w), id) == Seen(prefix, name, store, id);
    }
  }

  lemma {:induction false} StreamFollows(prefix: string, name: string, known: View, store: Store,
                                         writes: seq<Write>, events: seq<StoreEvent>, id: string, shown: bool)
    requires prefix != "" && ValidInstanceId(id) && Streams(prefix, store, writes, events)
    requires Follows(prefix, name, known, store, id, shown)
    ensures Find(Replay(known, Translated(prefix, name, events)), id) == Seen(prefix, name, AllWritten(store, writes), id)
       <==> !Hidden(prefix, name, store, writes, id, shown)
    decreases |writes|
  {
    if writes != [] {
      EventFollows(prefix, name, known, store, writes[0], events[0], id, shown);
      OneEvent(prefix, name, known, events);
      StreamFollows(prefix, name, Updated(known, EtcdEvent(prefix, name, events[0])), Written(store, writes[0]),
                    writes[1..], events[1..], id,
                    (shown || Seen(prefix, name, store, id).Some?) && writes[0] != WriteDelete(prefix + id));
    }
  }

  lemma OneEvent(prefix: string, name: string, known: View, events: seq<StoreEvent>)
    requires events != []
    ensures Replay(known, Translated(prefix, name, events))
         == Replay(Updated(known, EtcdEvent(prefix, name, events[0])), Translated(prefix, name, events[1..]))
  {
    var first := [events[0]];
    assert events == first + events[1..] && first[..0] == [];
    TranslatedConcat(prefix, name, first, events[1..]);
    TranslatedNext(prefix, name, known, [], first, 0);
    assert first[..1] == first;
    ReplayConcat(known, Translated(prefix, name, first), Translated(prefix, name, events[1..]));
  }

  /**
   Watch replay.  After a connection that read the store as `store` and then received
   every write since, the watcher knows exactly what the store announces if and only
   if no instance was overwritten with a value that is unusable now; the event for such
   a value is dropped, and only a delete or the next snapshot repairs the difference.
   */
  lemma WatchReplay(prefix: string, name: string, cycle: Cycle, store: Store, writes: seq<Write>)
    requires prefix != "" && Lists(prefix, cycle.snapshot, store)
    requires Streams(prefix, store, writes, Flatten(cycle.responses))
    ensures Mirrors(prefix, name, KnownAfter(prefix, name, cycle), AllWritten(store, writes))
       <==> forall id :: ValidInstanceId(id) ==> !Hidden(prefix, name, store, writes, id, false)
  {
    var known, after := KnownAfter(prefix, name, cycle), AllWritten(store, writes);
    var current := Current(prefix, name, cycle.snapshot);
    SnapshotMirrors(prefix, name, cycle.snapshot, store);
    StreamLags(prefix, name, current, store, writes, Flatten(cycle.responses));
    forall id | ValidInstanceId(id)
      ensures Find(known, id) == Seen(prefix, name, after, id) <==> !Hidden(prefix, name, store, writes, id, false)
    {
      assert Find(current, id) == Seen(prefix, name, store, id);
      StreamFollows(prefix, name, current, store, writes, Flatten(cycle.responses), id, false);
    }
    assert forall id :: !ValidInstanceId(id) ==> Find(known, id) == Seen(prefix, name, after, id);
  }

  /** Every value under the prefix, stored or written, is usable for the key it stands under. */
  ghost predicate AllUsable(prefix: string, name: string, store: Store, writes: seq<Write>) {
    && (forall key :: key in store && HasPrefix(key, prefix) ==> Announced(prefix, name, KV(key, store[key])).Some?)
    && (forall i :: 0 <= i < |writes| && writes[i].WritePut? ==>
          Announced(prefix, name, KV(writes[i].key, writes[i].value)).Some?)
  }

  lemma {:induction false} UsableNotHidden(prefix: string, name: string, store: Store, writes: seq<Write>, id: string, shown: bool)
    requires prefix != "" && ValidInstanceId(id) && AllUsable(prefix, name, store, writes)
    requires shown ==> prefix + id in store
    ensures !Hidden(prefix, name, store, writes, id, shown)
    decreases |writes|
  {
    PrefixedKey(prefix, prefix + id, id);
    if writes != [] {
      UsableNotHidden(prefix, name, Written(store, writes[0]), writes[1..], id,
                      (shown || Seen(prefix, name, store, id).Some?) && writes[0] != WriteDelete(prefix + id));
    }
  }

  /** When every value is usable, the watcher knows exactly what the store announces. */
  lemma UsableValuesMirror(prefix: string, name: string, cycle: Cycle, store: Store, writes: seq<Write>)
    requires prefix != "" && Lists(prefix, cycle.snapshot, store) && AllUsable(prefix, name, store, writes)
    requires Streams(prefix, store, writes, Flatten(cycle.responses))
    ensures Mirrors(prefix, name, KnownAfter(prefix, name, cycle), AllWritten(store, writes))
  {
    WatchReplay(prefix, name, cycle, store, writes);
    forall id | ValidInstanceId(id) ensures !Hidden(prefix, name, store, writes, id, false) {
      UsableNotHidden(prefix, name, store, writes, id, false);
    }
  }

  /** Any unusable value written over a known instance is missed: nothing is sent and the mirror breaks. */
  lemma UnusableOverwriteIsMissed(prefix: string, name: string, known: View, store: Store, id: string, value: Value)
    requires prefix != "" && Mirrors(prefix, name, known, store) && id in known
    requires Announced(prefix, name, KV(prefix + id, value)) == None
    ensures EtcdEvent(prefix, name, PutEvent(Some(KV(prefix + id, value)))) == None
    ensures !Mirrors(prefix, name, known, Written(store, WritePut(prefix + id, value)))
  {
    assert Find(known, id) == Seen(prefix, name, store, id);
    assert Seen(prefix, name, Written(store, WritePut(prefix + id, value)), id) == None;
  }

  // ------------------------------------------------------ the mirror, service by service

  /** A stored value is announced exactly under its own key and for its own service, and unchanged. */
  lemma AnnouncedExactly(prefix: string, name: string, key: string, value: Value, svc: Service)
    requires prefix != ""
    ensures Announced(prefix, name, KV(key, value)) == Some(svc) <==>
              value == Some(svc) && svc.name == name && ValidInstanceId(svc.instanceId) && key == prefix + svc.instanceId
  {
    PrefixedKey(prefix, key, svc.instanceId);
  }

  /** The store holds `svc` where its registration puts it. */
  predicate Registered(prefix: string, name: string, store: Store, id: string, svc: Service) {
    ValidInstanceId(id) && svc.name == name && svc.instanceId == id && Find(store, prefix + id) == Some(Some(svc))
  }

  lemma SeenRegistered(prefix: string, name: string, store: Store, id: string, svc: Service)
    requires prefix != ""
    ensures Seen(prefix, name, store, id) == Some(svc) <==> Registered(prefix, name, store, id, svc)
  {
    if ValidInstanceId(id) && prefix + id in store {
      AnnouncedExactly(prefix, name, prefix + id, store[prefix + id], svc);
      PrefixedKey(prefix, prefix + id, id);
    }
  }

  /** To mirror the store is to hold exactly the services registered in it, each under its ID. */
  lemma MirrorsRegistered(prefix: string, name: string, known: View, store: Store)
    requires prefix != ""
    ensures Mirrors(prefix, name, known, store)
       <==> forall id, svc :: Find(known, id) == Some(svc) <==> Registered(prefix, name, store, id, svc)
  {
    forall id, svc ensures Seen(prefix, name, store, id) == Some(svc) <==> Registered(prefix, name, store, id, svc) {
      SeenRegistered(prefix, name, store, id, svc);
    }
    if forall id, svc :: Find(known, id) == Some(svc) <==> Registered(prefix, name, store, id, svc) {
      forall id ensures Find(known, id) == Seen(prefix, name, store, id) {
        if id in known {
          assert Find(known, id) == Some(known[id]) && Registered(prefix, name, store, id, known[id]);
        } else if Seen(prefix, name, store, id).Some? {
          var svc := Seen(prefix, name, store, id).value;
          assert Find(known, id) == Some(svc) <==> Registered(prefix, name, store, id, svc);
        }
      }
    }
  }

  /**
   What a receiver holds after a connection, for each instance that is not hidden by an
   unusable overwrite: a service exactly when it is registered in the store.
   */
  lemma ReceiverHolds(prefix: string, name: string, cycle: Cycle, store: Store, writes: seq<Write>, id: string, svc: Service)
    requires prefix != "" && Lists(prefix, cycle.snapshot, store)
    requires Streams(prefix, store, writes, Flatten(cycle.responses))
    requires ValidInstanceId(id) && !Hidden(prefix, name, store, writes, id, false)
    ensures Find(KnownAfter(prefix, name, cycle), id) == Some(svc)
       <==> Registered(prefix, name, AllWritten(store, writes), id, svc)
  {
    var current := Current(prefix, name, cycle.snapshot);
    SnapshotMirrors(prefix, name, cycle.snapshot, store);
    assert Find(current, id) == Seen(prefix, name, store, id);
    StreamFollows(prefix, name, current, store, writes, Flatten(cycle.responses), id, false);
    SeenRegistered(prefix, name, AllWritten(store, writes), id, svc);
  }

  /** A delete is told from the previous value when that was registered, else from the key; otherwise it is dropped. */
  lemma DeleteFromEither(prefix: string, name: string, kv: Option<KV>, prev: Option<KV>, id: string)
    requires prefix != ""
    ensures EtcdEvent(prefix, name, DeleteEvent(kv, prev)) == Some(Delete(id)) <==>
              if prev.Some? && Announced(prefix, name, prev.value).Some?
              then ValidInstanceId(id) && prev.value.key == prefix + id
              else ValidInstanceId(id) && kv.Some? && kv.value.key == prefix + id
  {
    if prev.Some? && Announced(prefix, name, prev.value).Some? {
      AnnouncedExactly(prefix, name, prev.value.key, prev.value.value, Announced(prefix, name, prev.value).value);
      PrefixedKey(prefix, prev.value.key, id);
    }
    if kv.Some? {
      PrefixedKey(prefix, kv.value.key, id);
    }
  }
}
