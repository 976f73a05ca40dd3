/**
 Service instances, the events a registry watch delivers, the etcd key of an
 instance, and the canonical form in which upstream lists are published.
 */
module Services {
  import opened Options
  import opened GoStrings

  datatype Service = Service(
    name: string,
    version: string,
    instanceId: string,
    addr: string,
    grpcAddr: string,
    meta: map<string, string>,
    registerAt: int)

  /** A watch event; a delete carries only what identifies the instance to the receiver. */
  datatype Event = Put(svc: Service) | Delete(instanceId: string)

  type View = map<string, Service>

  function Apply(view: View, event: Event): View {
    match event
    case Put(svc) => view[svc.instanceId := svc]
    case Delete(id) => view - {id}
  }

  /** What a receiver holds after folding the events it got into its own map. */
  function Replay(view: View, events: seq<Event>): View {
    if events == [] then view
    else Apply(Replay(view, events[..|events| - 1]), events[|events| - 1])
  }

  lemma ReplayOne(view: View, events: seq<Event>, event: Event)
    ensures Replay(view, events + [event]) == Apply(Replay(view, events), event)
  {
  }

  lemma {:induction false} ReplayConcat(view: View, a: seq<Event>, b: seq<Event>)
    ensures Replay(view, a + b) == Replay(Replay(view, a), b)
  {
    if b == [] {
      assert a + b == a;
    } else {
      var n := |b| - 1;
      assert a + b == a + b[..n] + [b[n]];
      ReplayOne(view, a + b[..n], b[n]);
      ReplayConcat(view, a, b[..n]);
    }
  }

  /** Exactly one delete for each ID of `gone`, in any order, and nothing else. */
  ghost predicate DeletesEach(events: seq<Event>, gone: set<string>) {
    && (forall i :: 0 <= i < |events| ==> events[i].Delete? && events[i].instanceId in gone)
    && (forall i, j :: 0 <= i < j < |events| ==> events[i] != events[j])
    && (forall id :: id in gone ==> Delete(id) in events)
  }

  lemma DeletesOneMore(events: seq<Event>, gone: set<string>, id: string)
    requires DeletesEach(events, gone) && id !in gone
    ensures DeletesEach(events + [Delete(id)], gone + {id})
  {
    forall x | x in gone + {id} ensures Delete(x) in events + [Delete(id)] {
      if x != id {
        assert Delete(x) in events;
      }
    }
  }

  /** Such deletes remove exactly `gone` from a view. */
  lemma {:induction false} DeletesRemove(view: View, events: seq<Event>, gone: set<string>)
    requires DeletesEach(events, gone)
    ensures Replay(view, events) == view - gone
  {
    if events == [] {
      assert view - gone == view by {
        assert forall id :: id !in gone;
      }
    } else {
      var n := |events| - 1;
      var id := events[n].instanceId;
      forall x | x in gone - {id} ensures Delete(x) in events[..n] {
        var i :| 0 <= i < |events| && events[i] == Delete(x);
        assert events[..n][i] == Delete(x);
      }
      DeletesRemove(view, events[..n], gone - {id});
      assert view - gone == (view - (gone - {id})) - {id};
    }
  }

  // -------------------------------------------------------------------- keys

  function ServicePrefixKey(prefix: string, name: string): string {
    prefix + name + "/"
  }

  function ServiceKey(prefix: string, name: string, instanceId: string): string {
    ServicePrefixKey(prefix, name) + instanceId
  }

  predicate ValidInstanceId(id: string) {
    id != "" && '/' !in id && !HasLineBreakOrNul(id) && ByteLen(id) <= 256
  }

  predicate ValidServiceName(name: string) {
    name != "" && '/' !in name && !HasLineBreakOrNul(name) && ByteLen(name) <= 128
  }

  function InstanceFromKey(prefix: string, key: string): Option<string> {
    if prefix == "" || !HasPrefix(key, prefix) then None
    else
      var id := key[|prefix|..];
      if ValidInstanceId(id) then Some(id) else None
  }

  /** Under a service's prefix, the keys that parse are exactly those the registration writes. */
  lemma KeyRoundTrip(prefix: string, name: string, id: string, key: string)
    ensures InstanceFromKey(ServicePrefixKey(prefix, name), key) == Some(id)
       <==> ValidInstanceId(id) && key == ServiceKey(prefix, name, id)
  {
  }

  /** Two registrations of valid services share a key only when name and instance agree. */
  lemma KeysDistinct(prefix: string, name: string, id: string, name': string, id': string)
    requires ValidServiceName(name) && ValidServiceName(name') && ValidInstanceId(id) && ValidInstanceId(id')
    requires ServiceKey(prefix, name, id) == ServiceKey(prefix, name', id')
    ensures name == name' && id == id'
  {
    var a, b := name + ['/'] + id, name' + ['/'] + id';
    assert ServiceKey(prefix, name, id) == prefix + a && ServiceKey(prefix, name', id') == prefix + b;
    assert a == (prefix + a)[|prefix|..] && b == (prefix + b)[|prefix|..];
    SplitPrefix(name, id, '/');
    SplitPrefix(name', id', '/');
    SplitNoSep(id, '/');
    SplitNoSep(id', '/');
    assert Split(a, '/') == [name, id] && Split(b, '/') == [name', id'];
  }

  /** The limits: 1 to 256 bytes for an instance ID, 1 to 128 for a name; a slash, line break or NUL disqualifies. */
  lemma IdLengths(id: string)
    ensures ValidInstanceId(id) ==> 1 <= |id| <= 256 && forall c :: c in id ==> c !in "/\r\n\0"
    ensures ValidServiceName(id) ==> 1 <= |id| <= 128 && forall c :: c in id ==> c !in "/\r\n\0"
    ensures IsAscii(id) && (forall c :: c in id ==> c !in "/\r\n\0") ==>
              (ValidInstanceId(id) <==> 1 <= |id| <= 256) && (ValidServiceName(id) <==> 1 <= |id| <= 128)
  {
    ByteLenBounds(id);
  }

  // ------------------------------------------------------------ normalization

  ghost predicate StrictlySorted(services: seq<Service>) {
    forall i, j :: 0 <= i < j < |services| ==> Less(services[i].instanceId, services[j].instanceId)
  }

  ghost predicate DistinctIds(services: seq<Service>) {
    forall i, j :: 0 <= i < j < |services| ==> services[i].instanceId != services[j].instanceId
  }

  /** The map the first loop of normalizeServices builds: of equal IDs the last one wins. */
  function ById(services: seq<Service>): View {
    if services == [] then map[]
    else
      var last := services[|services| - 1];
      ById(services[..|services| - 1])[last.instanceId := last]
  }

  /** Puts `svc` at its place in a sorted list, replacing an entry with its ID. */
  function Insert(sorted: seq<Service>, svc: Service): seq<Service> {
    if sorted == [] then [svc]
    else if sorted[0].instanceId == svc.instanceId then [svc] + sorted[1..]
    else if Less(svc.instanceId, sorted[0].instanceId) then [svc] + sorted
    else [sorted[0]] + Insert(sorted[1..], svc)
  }

  /** The canonical list, defined one instance at a time. */
  function Normalize(services: seq<Service>): seq<Service> {
    if services == [] then []
    else Insert(Normalize(services[..|services| - 1]), services[|services| - 1])
  }

  lemma {:induction false} InsertSorted(sorted: seq<Service>, svc: Service)
    requires StrictlySorted(sorted)
    ensures StrictlySorted(Insert(sorted, svc))
    ensures forall x :: x in Insert(sorted, svc) <==> x == svc || (x in sorted && x.instanceId != svc.instanceId)
  {
    if sorted != [] {
      LessTotal(sorted[0].instanceId, svc.instanceId);
      forall j | 0 < j < |sorted|
        ensures Less(sorted[0].instanceId, sorted[j].instanceId) && sorted[j].instanceId != sorted[0].instanceId
        ensures Less(svc.instanceId, sorted[0].instanceId) ==>
                  Less(svc.instanceId, sorted[j].instanceId) && sorted[j].instanceId != svc.instanceId
      {
        LessTotal(sorted[0].instanceId, sorted[j].instanceId);
        if Less(svc.instanceId, sorted[0].instanceId) {
          LessTransitive(svc.instanceId, sorted[0].instanceId, sorted[j].instanceId);
          LessTotal(svc.instanceId, sorted[j].instanceId);
        }
      }
      assert sorted == [sorted[0]] + sorted[1..];
      if sorted[0].instanceId != svc.instanceId && !Less(svc.instanceId, sorted[0].instanceId) {
        InsertSorted(sorted[1..], svc);
        var rest := Insert(sorted[1..], svc);
        forall j | 0 <= j < |rest| ensures Less(sorted[0].instanceId, rest[j].instanceId) {
          assert rest[j] in rest;
        }
      }
    }
  }

  /** normalizeServices is strictly sorted and keeps, of each ID, exactly the last instance. */
  lemma {:induction false} NormalizeCanonical(services: seq<Service>)
    ensures StrictlySorted(Normalize(services))
    ensures forall x :: x in Normalize(services) <==> Find(ById(services), x.instanceId) == Some(x)
  {
    if services != [] {
      var n := |services| - 1;
      NormalizeCanonical(services[..n]);
      InsertSorted(Normalize(services[..n]), services[n]);
    }
  }

  /** `x` stands in the list, and nothing after it has its ID. */
  ghost predicate IsLast(services: seq<Service>, x: Service) {
    exists i :: 0 <= i < |services| && services[i] == x
             && forall j :: i < j < |services| ==> services[j].instanceId != x.instanceId
  }

  lemma IsLastNext(services: seq<Service>, last: Service, x: Service)
    ensures IsLast(services + [last], x) <==> x == last || (IsLast(services, x) && x.instanceId != last.instanceId)
  {
    var all := services + [last];
    if x == last {
      assert all[|services|] == x;
    } else if IsLast(all, x) {
      var i :| 0 <= i < |all| && all[i] == x && forall j :: i < j < |all| ==> all[j].instanceId != x.instanceId;
      assert services[i] == x && all[|services|] == last;
      assert forall j :: i < j < |services| ==> services[j] == all[j];
    } else if IsLast(services, x) {
      var i :| 0 <= i < |services| && services[i] == x
            && forall j :: i < j < |services| ==> services[j].instanceId != x.instanceId;
      assert all[i] == x;
    }
  }

  lemma {:induction false} ByIdIsLast(services: seq<Service>, x: Service)
    ensures Find(ById(services), x.instanceId) == Some(x) <==> IsLast(services, x)
  {
    if services != [] {
      var n := |services| - 1;
      ByIdIsLast(services[..n], x);
      IsLastNext(services[..n], services[n], x);
      assert services == services[..n] + [services[n]];
    }
  }

  /** The canonical list holds, of each ID, exactly the last instance listed. */
  lemma LastOfEachId(services: seq<Service>, x: Service)
    ensures x in Normalize(services) <==> IsLast(services, x)
  {
    NormalizeCanonical(services);
    ByIdIsLast(services, x);
  }

  lemma SomeMember(a: seq<Service>)
    ensures a == [] || exists x :: x in a
  {
    if a != [] { assert a[0] in a; }
  }

  lemma {:induction false} SortedUnique(a: seq<Service>, b: seq<Service>)
    requires StrictlySorted(a) && StrictlySorted(b)
    requires forall x :: x in a <==> x in b
    ensures a == b
  {
    if a == [] {
      SomeMember(b);
    } else {
      assert a[0] in b && b[0] in a;
      var i :| 0 <= i < |b| && b[i] == a[0];
      var j :| 0 <= j < |a| && a[j] == b[0];
      LessTotal(a[0].instanceId, b[0].instanceId);
      assert a[0] == b[0];
      forall x ensures x in a[1..] <==> x in b[1..] {
        TailMembers(a, x);
        TailMembers(b, x);
      }
      SortedUnique(a[1..], b[1..]);
      assert a == [a[0]] + a[1..] && b == [b[0]] + b[1..];
    }
  }

  lemma TailMembers(a: seq<Service>, x: Service)
    requires StrictlySorted(a) && a != []
    ensures x in a[1..] <==> x in a && x != a[0]
  {
    forall k | 0 < k < |a| ensures a[k] != a[0] {
      LessTotal(a[0].instanceId, a[k].instanceId);
    }
    if x in a && x != a[0] {
      var k :| 0 <= k < |a| && a[k] == x;
      assert a[1..][k - 1] == x;
    }
  }

  lemma {:induction false} ByIdOfDistinct(services: seq<Service>, x: Service)
    requires DistinctIds(services)
    ensures Find(ById(services), x.instanceId) == Some(x) <==> x in services
    ensures x.instanceId in ById(services) <==> exists i :: 0 <= i < |services| && services[i].instanceId == x.instanceId
  {
    if services != [] {
      var n := |services| - 1;
      ByIdOfDistinct(services[..n], x);
      assert services == services[..n] + [services[n]];
      if x in services[..n] {
        var i :| 0 <= i < n && services[..n][i] == x;
        assert services[i].instanceId != services[n].instanceId;
      }
    }
  }

  lemma SortedDistinct(services: seq<Service>)
    requires StrictlySorted(services)
    ensures DistinctIds(services)
  {
    forall i, j | 0 <= i < j < |services| ensures services[i].instanceId != services[j].instanceId {
      LessTotal(services[i].instanceId, services[j].instanceId);
    }
  }

  lemma NormalizeIdempotent(services: seq<Service>)
    ensures Normalize(Normalize(services)) == Normalize(services)
  {
    var once := Normalize(services);
    NormalizeCanonical(services);
    NormalizeCanonical(once);
    SortedDistinct(once);
    forall x ensures x in Normalize(once) <==> x in once {
      ByIdOfDistinct(once, x);
    }
    SortedUnique(Normalize(once), once);
  }

  /** The order in which a registry lists instances with distinct IDs does not matter. */
  lemma NormalizeIgnoresOrder(a: seq<Service>, b: seq<Service>)
    requires DistinctIds(a) && DistinctIds(b) && multiset(a) == multiset(b)
    ensures Normalize(a) == Normalize(b)
  {
    NormalizeCanonical(a);
    NormalizeCanonical(b);
    forall x ensures x in Normalize(a) <==> x in Normalize(b) {
      ByIdOfDistinct(a, x);
      ByIdOfDistinct(b, x);
      assert x in a <==> x in multiset(a);
      assert x in b <==> x in multiset(b);
    }
    SortedUnique(Normalize(a), Normalize(b));
  }

  function InsertId(ids: seq<string>, id: string): seq<string> {
    if ids == [] then [id]
    else if Less(id, ids[0]) then [id] + ids
    else [ids[0]] + InsertId(ids[1..], id)
  }

  ghost predicate SortedIds(ids: seq<string>) {
    forall i, j :: 0 <= i < j < |ids| ==> Less(ids[i], ids[j])
  }

  lemma {:induction false} InsertIdSorted(ids: seq<string>, id: string)
    requires SortedIds(ids) && id !in ids
    ensures SortedIds(InsertId(ids, id))
    ensures forall x :: x in InsertId(ids, id) <==> x == id || x in ids
  {
    if ids != [] {
      LessTotal(ids[0], id);
      assert ids == [ids[0]] + ids[1..];
      if Less(id, ids[0]) {
        forall j | 0 < j < |ids| ensures Less(id, ids[j]) {
          LessTransitive(id, ids[0], ids[j]);
        }
      } else {
        InsertIdSorted(ids[1..], id);
        var rest := InsertId(ids[1..], id);
        forall j | 0 <= j < |rest| ensures Less(ids[0], rest[j]) {
          assert rest[j] in rest;
        }
      }
    }
  }

  /** The keys of a map in the order of sort.Strings; Go visits the map in any order first. */
  method SortedKeys(m: View) returns (ids: seq<string>)
    ensures SortedIds(ids) && forall x :: x in ids <==> x in m
  {
    ids := [];
    var todo := m.Keys;
    while todo != {}
      invariant todo <= m.Keys && SortedIds(ids)
      invariant forall x :: x in ids <==> x in m && x !in todo
    {
      var id :| id in todo;
      InsertIdSorted(ids, id);
      ids := InsertId(ids, id);
      todo := todo - {id};
    }
  }

  method NormalizeServices(services: seq<Service>) returns (out: seq<Service>)
    ensures out == Normalize(services)
  {
    var byId: View := map[];
    for i := 0 to |services|
      invariant byId == ById(services[..i])
    {
      assert services[..i + 1][..i] == services[..i];
      byId := byId[services[i].instanceId := services[i]];
    }
    assert services[..|services|] == services;
    ByIdKeys(services);
    var ids := SortedKeys(byId);
    out := [];
    for i := 0 to |ids|
      invariant |out| == i && forall k :: 0 <= k < i ==> ids[k] in byId && out[k] == byId[ids[k]]
    {
      assert ids[i] in ids;
      out := out + [byId[ids[i]]];
    }
    NormalizeCanonical(services);
    forall x ensures x in out <==> x in Normalize(services) {
      if x.instanceId in byId {
        assert x.instanceId in ids;
        var k :| 0 <= k < |ids| && ids[k] == x.instanceId;
        assert out[k] == byId[x.instanceId];
      }
    }
    SortedUnique(out, Normalize(services));
  }

  lemma {:induction false} ByIdKeys(services: seq<Service>)
    ensures forall id :: id in ById(services) ==> ById(services)[id].instanceId == id && ById(services)[id] in services
  {
    if services != [] {
      ByIdKeys(services[..|services| - 1]);
    }
  }
}
