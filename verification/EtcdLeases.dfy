/**
 The lease protocol of the etcd registry: Register, the re-registering
 keepalive loop, Deregister and Close race over two in-memory maps and the
 etcd store.

 `LeaseTable` is the object whose locked blocks the Go code runs under its
 mutex; each block is proved equal to a function on `Table` values.  The rest of
 the module interleaves those blocks with remote calls: every remote call and
 every locked block is one step, a step may fail with or without having taken
 effect, and a lease may expire at any moment.

 Assumed of etcd: lease IDs are non-zero and never reused, and every store write
 is atomic.
 */
module EtcdLeases {

  import opened Options

  type InstanceId = string
  type LeaseId = nat
  type OpId = nat

  /** A keepalive context, named by the lease its Register call obtained. */
  type Handle = LeaseId

  datatype Key = Key(name: string, id: InstanceId)

  // ---------------------------------------------------------------- the table

  datatype Table = Table(leases: map<InstanceId, LeaseId>, cancels: map<InstanceId, Handle>)

  /** A Go map read: the zero lease when the instance is absent. */
  function LeaseOf(t: Table, id: InstanceId): LeaseId {
    if id in t.leases then t.leases[id] else 0
  }

  function Published(t: Table, id: InstanceId, lease: LeaseId, handle: Handle): Table {
    Table(t.leases[id := lease], t.cancels[id := handle])
  }

  function Swapped(t: Table, id: InstanceId, owned: LeaseId, lease: LeaseId): Table {
    if LeaseOf(t, id) == owned then t.(leases := t.leases[id := lease]) else t
  }

  function Removed(t: Table, id: InstanceId): Table {
    Table(t.leases - {id}, t.cancels - {id})
  }

  /** The registry object: what Register, keepAliveLoop, Deregister and Close do under the mutex. */
  class LeaseTable {
    var leases: map<InstanceId, LeaseId>
    var cancels: map<InstanceId, Handle>
    var cancelled: set<Handle>

    ghost function View(): Table
      reads this
    {
      Table(leases, cancels)
    }

    constructor ()
      ensures View() == Table(map[], map[]) && cancelled == {}
    {
      leases, cancels, cancelled := map[], map[], {};
    }

    method Publish(id: InstanceId, lease: LeaseId, handle: Handle)
      returns (oldCancel: Option<Handle>, oldLease: LeaseId)
      modifies this
      ensures oldCancel == Find(old(cancels), id) && oldLease == LeaseOf(old(View()), id)
      ensures View() == Published(old(View()), id, lease, handle) && cancelled == old(cancelled)
    {
      oldCancel := if id in cancels then Some(cancels[id]) else None;
      oldLease := if id in leases then leases[id] else 0;
      leases := leases[id := lease];
      cancels := cancels[id := handle];
    }

    method Swap(id: InstanceId, owned: LeaseId, lease: LeaseId) returns (kept: bool)
      modifies this
      ensures kept <==> LeaseOf(old(View()), id) == owned
      ensures View() == Swapped(old(View()), id, owned, lease) && cancelled == old(cancelled)
    {
      var current := if id in leases then leases[id] else 0;
      kept := current == owned;
      if kept {
        leases := leases[id := lease];
      }
    }

    method Take(id: InstanceId) returns (lease: LeaseId)
      modifies this
      ensures lease == LeaseOf(old(View()), id)
      ensures View() == Removed(old(View()), id)
      ensures cancelled == old(cancelled) + (if id in old(cancels) then {old(cancels)[id]} else {})
    {
      lease := 0;
      if id in cancels {
        cancelled := cancelled + {cancels[id]};
        cancels := cancels - {id};
      }
      if id in leases {
        lease := leases[id];
        leases := leases - {id};
      }
    }

    method TakeAll() returns (taken: set<LeaseId>)
      modifies this
      ensures taken == old(leases).Values
      ensures View() == Table(map[], map[])
      ensures cancelled == old(cancelled) + old(cancels).Values
    {
      taken := {};
      ghost var before := cancelled;
      var todo := cancels.Keys;
      while todo != {}
        invariant todo <= cancels.Keys && cancels == old(cancels) && leases == old(leases)
        invariant cancelled == before + (set id | id in cancels.Keys - todo :: cancels[id])
      {
        var id :| id in todo;
        cancelled := cancelled + {cancels[id]};
        todo := todo - {id};
      }
      todo := leases.Keys;
      while todo != {}
        invariant todo <= leases.Keys && leases == old(leases)
        invariant cancelled == before + old(cancels).Values
        invariant taken == set id | id in leases.Keys - todo :: leases[id]
      {
        var id :| id in todo;
        taken := taken + {leases[id]};
        todo := todo - {id};
      }
      cancels := map[];
      leases := map[];
    }
  }

  // ---------------------------------------------------------------- the store

  /** Leases the server knows, and for each present key the lease it is attached to. */
  datatype Store = Store(live: set<LeaseId>, keys: map<Key, LeaseId>)

  /** What revocation and expiry both do: the lease and everything attached to it disappear. */
  function WithoutLease(st: Store, lease: LeaseId): (r: Store) {
    Store(st.live - {lease}, map k | k in st.keys && st.keys[k] != lease :: st.keys[k])
  }

  // ------------------------------------------------------------ the operations

  /** Who runs grantAndPut: a Register call, or the keepalive loop of `handle` that owns `owned`. */
  datatype Caller = Registering | Renewing(handle: Handle, owned: LeaseId)

  /** The program counter of one operation, with the local variables still in use. */
  datatype Op =
    | Granting(key: Key, caller: Caller)
    | Putting(key: Key, caller: Caller, lease: LeaseId)
    | Undoing(key: Key, caller: Caller, lease: LeaseId)
    | Locking(key: Key, caller: Caller, lease: LeaseId)
    | CancellingOld(key: Key, lease: LeaseId, oldCancel: Option<Handle>, oldLease: LeaseId)
    | RevokingOld(key: Key, lease: LeaseId, oldLease: LeaseId)
    | Spawning(key: Key, lease: LeaseId)
    | KeepingAlive(key: Key, caller: Caller)
    | Discarding(lease: LeaseId)
    | Taking(key: Key)
    | Deleting(key: Key, lease: LeaseId)
    | RevokingTaken(lease: LeaseId)
    | Closing
    | RevokingAll(leases: set<LeaseId>)

  datatype State = State(
    table: Table,
    cancelled: set<Handle>,
    store: Store,
    ops: map<OpId, Op>,
    minted: map<LeaseId, Key>,   // every lease ever granted, and the key it was granted for
    published: set<LeaseId>,     // leases that have been in the table
    superseded: set<LeaseId>,    // leases a keepalive loop has replaced by a new one
    abandoned: set<LeaseId>)     // leases whose owner lost them to a failed remote call

  const INIT := State(Table(map[], map[]), {}, Store({}, map[]), map[], map[], {}, {}, {})

  /** `applied`: the call took effect on the server.  `ok`: the caller saw success. */
  datatype Step =
    | Begin(t: OpId, op: Op)
    | Grant(t: OpId, lease: LeaseId, applied: bool, ok: bool)
    | Put(t: OpId, applied: bool, ok: bool)
    | Revoke(t: OpId, lease: LeaseId, applied: bool)
    | Delete(t: OpId, applied: bool)
    | Lock(t: OpId)
    | CancelOld(t: OpId)
    | Spawn(t: OpId)
    | Interrupt(t: OpId)
    | Exit(t: OpId)
    | Expire(lease: LeaseId)

  predicate IsCall(op: Op) {
    (op.Granting? && op.caller.Registering?) || op.Taking? || op.Closing?
  }

  function Continue(s: State, t: OpId, op: Op): State {
    s.(ops := s.ops[t := op])
  }

  function Finish(s: State, t: OpId): State {
    s.(ops := s.ops - {t})
  }

  /** Where grantAndPut returns to after an error: Register returns, the loop tries again. */
  function Failed(s: State, t: OpId, key: Key, caller: Caller): State {
    if caller.Registering? then Finish(s, t) else Continue(s, t, Granting(key, caller))
  }

  function GrantStep(s: State, t: OpId, lease: LeaseId, applied: bool, ok: bool): Option<State> {
    if !(t in s.ops && s.ops[t].Granting? && lease != 0 && lease !in s.minted && (ok ==> applied)) then None
    else
      var op := s.ops[t];
      var s1 := if applied then s.(store := s.store.(live := s.store.live + {lease}),
                                   minted := s.minted[lease := op.key]) else s;
      if ok then Some(Continue(s1, t, Putting(op.key, op.caller, lease)))
      else
        // The server may have created a lease whose ID the caller never learns.
        Some(Failed(if applied then s1.(abandoned := s1.abandoned + {lease}) else s1, t, op.key, op.caller))
  }

  function PutStep(s: State, t: OpId, applied: bool, ok: bool): Option<State> {
    if !(t in s.ops && s.ops[t].Putting? && (ok ==> applied) && (applied ==> s.ops[t].lease in s.store.live)) then None
    else
      var op := s.ops[t];
      var s1 := if applied then s.(store := s.store.(keys := s.store.keys[op.key := op.lease])) else s;
      Some(Continue(s1, t, if ok then Locking(op.key, op.caller, op.lease) else Undoing(op.key, op.caller, op.lease)))
  }

  /** The leases an operation may revoke next. */
  function RevokeTargets(op: Op): set<LeaseId> {
    match op
    case Undoing(_, _, lease) => {lease}
    case RevokingOld(_, _, oldLease) => {oldLease}
    case Discarding(lease) => {lease}
    case RevokingTaken(lease) => {lease}
    case RevokingAll(leases) => leases
    case _ => {}
  }

  function AfterRevoke(s: State, t: OpId, lease: LeaseId): State
    requires t in s.ops && lease in RevokeTargets(s.ops[t])
  {
    match s.ops[t]
    case Undoing(key, caller, _) => Failed(s, t, key, caller)
    case RevokingOld(key, registered, _) => Continue(s, t, Spawning(key, registered))
    case RevokingAll(leases) =>
      if leases == {lease} then Finish(s, t) else Continue(s, t, RevokingAll(leases - {lease}))
    case _ => Finish(s, t)
  }

  /** Nobody retries a revocation: when it does not take effect the lease is left to its TTL. */
  function RevokeStep(s: State, t: OpId, lease: LeaseId, applied: bool): Option<State> {
    if !(t in s.ops && lease in RevokeTargets(s.ops[t])) then None
    else
      var s1 := if applied then s.(store := WithoutLease(s.store, lease))
                else s.(abandoned := s.abandoned + {lease});
      Some(AfterRevoke(s1, t, lease))
  }

  function DeleteStep(s: State, t: OpId, applied: bool): Option<State> {
    if !(t in s.ops && s.ops[t].Deleting?) then None
    else
      var op := s.ops[t];
      var s1 := if applied then s.(store := s.store.(keys := s.store.keys - {op.key})) else s;
      Some(if op.lease != 0 then Continue(s1, t, RevokingTaken(op.lease)) else Finish(s1, t))
  }

  function PublishBlock(s: State, t: OpId, key: Key, lease: LeaseId): State {
    Continue(s.(table := Published(s.table, key.id, lease, lease), published := s.published + {lease}), t,
             CancellingOld(key, lease, Find(s.table.cancels, key.id), LeaseOf(s.table, key.id)))
  }

  function SwapBlock(s: State, t: OpId, key: Key, handle: Handle, owned: LeaseId, lease: LeaseId): State {
    var s1 := s.(table := Swapped(s.table, key.id, owned, lease));
    if LeaseOf(s.table, key.id) == owned
    then Continue(s1.(published := s.published + {lease}, superseded := s.superseded + {owned}), t,
                  KeepingAlive(key, Renewing(handle, lease)))
    else Continue(s1, t, Discarding(lease))
  }

  function TakeBlock(s: State, t: OpId, key: Key): State {
    Continue(s.(table := Removed(s.table, key.id),
                cancelled := s.cancelled + (if key.id in s.table.cancels then {s.table.cancels[key.id]} else {})), t,
             Deleting(key, LeaseOf(s.table, key.id)))
  }

  function CloseBlock(s: State, t: OpId): State {
    var s1 := s.(table := Table(map[], map[]), cancelled := s.cancelled + s.table.cancels.Values);
    if s.table.leases.Values == {} then Finish(s1, t) else Continue(s1, t, RevokingAll(s.table.leases.Values))
  }

  function LockStep(s: State, t: OpId): Option<State> {
    if t !in s.ops then None
    else match s.ops[t]
      case Locking(key, Registering, lease) => Some(PublishBlock(s, t, key, lease))
      case Locking(key, Renewing(handle, owned), lease) => Some(SwapBlock(s, t, key, handle, owned, lease))
      case Taking(key) => Some(TakeBlock(s, t, key))
      case Closing => Some(CloseBlock(s, t))
      case _ => None
  }

  function CancelOldStep(s: State, t: OpId): Option<State> {
    if !(t in s.ops && s.ops[t].CancellingOld?) then None
    else
      var op := s.ops[t];
      var s1 := if op.oldCancel.Some? then s.(cancelled := s.cancelled + {op.oldCancel.value}) else s;
      Some(Continue(s1, t, if op.oldLease != 0 then RevokingOld(op.key, op.lease, op.oldLease)
                           else Spawning(op.key, op.lease)))
  }

  function Next(s: State, step: Step): Option<State> {
    match step
    case Begin(t, op) => if t !in s.ops && IsCall(op) then Some(Continue(s, t, op)) else None
    case Grant(t, lease, applied, ok) => GrantStep(s, t, lease, applied, ok)
    case Put(t, applied, ok) => PutStep(s, t, applied, ok)
    case Revoke(t, lease, applied) => RevokeStep(s, t, lease, applied)
    case Delete(t, applied) => DeleteStep(s, t, applied)
    case Lock(t) => LockStep(s, t)
    case CancelOld(t) => CancelOldStep(s, t)
    case Spawn(t) =>
      if t in s.ops && s.ops[t].Spawning?
      then Some(Continue(s, t, KeepingAlive(s.ops[t].key, Renewing(s.ops[t].lease, s.ops[t].lease)))) else None
    case Interrupt(t) =>
      if t in s.ops && s.ops[t].KeepingAlive? && s.ops[t].caller.Renewing? && s.ops[t].caller.handle !in s.cancelled
      then Some(Continue(s, t, Granting(s.ops[t].key, s.ops[t].caller))) else None
    case Exit(t) =>
      if t in s.ops && (s.ops[t].KeepingAlive? || s.ops[t].Granting?) && s.ops[t].caller.Renewing?
         && s.ops[t].caller.handle in s.cancelled
      then Some(Finish(s, t)) else None
    case Expire(lease) => if lease in s.store.live then Some(s.(store := WithoutLease(s.store, lease))) else None
  }

  /** The state after a whole run, or None when some step of it was not possible. */
  function Exec(s: State, run: seq<Step>): Option<State>
    decreases |run|
  {
    if run == [] then Some(s)
    else
      var next := Next(s, run[0]);
      if next.None? then None else Exec(next.value, run[1..])
  }

  // ------------------------------------------------------------ who owns a lease

  /** Leases this operation will still put into the table or revoke. */
  function Held(op: Op): set<LeaseId> {
    match op
    case Putting(_, _, lease) => {lease}
    case Undoing(_, _, lease) => {lease}
    case Locking(_, _, lease) => {lease}
    case CancellingOld(_, _, _, oldLease) => if oldLease == 0 then {} else {oldLease}
    case RevokingOld(_, _, oldLease) => {oldLease}
    case Discarding(lease) => {lease}
    case Deleting(_, lease) => if lease == 0 then {} else {lease}
    case RevokingTaken(lease) => {lease}
    case RevokingAll(leases) => leases
    case _ => {}
  }

  ghost predicate Recorded(s: State, lease: LeaseId) {
    lease in s.minted && s.minted[lease].id in s.table.leases && s.table.leases[s.minted[lease].id] == lease
  }

  ghost predicate InFlight(s: State, lease: LeaseId) {
    exists t :: t in s.ops && lease in Held(s.ops[t])
  }

  /** A lease granted but not yet published. */
  predicate IsPending(op: Op) {
    op.Putting? || op.Undoing? || op.Locking?
  }

  /** Operations that are, or are about to become, a keepalive loop. */
  predicate IsLoop(op: Op) {
    op.CancellingOld? || op.RevokingOld? || op.Spawning? ||
    (op.KeepingAlive? && op.caller.Renewing?) ||
    ((op.Granting? || IsPending(op)) && op.caller.Renewing?)
  }

  function LoopHandle(op: Op): Handle
    requires IsLoop(op)
  {
    if op.CancellingOld? || op.RevokingOld? || op.Spawning? then op.lease else op.caller.handle
  }

  function LoopLease(op: Op): LeaseId
    requires IsLoop(op)
  {
    if op.CancellingOld? || op.RevokingOld? || op.Spawning? then op.lease else op.caller.owned
  }

  ghost predicate Ledger(s: State) {
    && 0 !in s.minted
    && s.store.live <= s.minted.Keys
    && s.superseded <= s.published <= s.minted.Keys
    && s.abandoned <= s.minted.Keys && s.abandoned !! s.superseded
    && (forall k :: k in s.store.keys ==>
          && s.store.keys[k] in s.store.live && s.minted[s.store.keys[k]] == k
          && s.store.keys[k] !in s.superseded)
  }

  ghost predicate TableOk(s: State) {
    && s.table.leases.Keys == s.table.cancels.Keys
    && (forall id :: id in s.table.leases ==>
          && s.table.leases[id] in s.published && s.table.leases[id] in s.minted
          && s.minted[s.table.leases[id]].id == id
          && s.table.leases[id] !in s.abandoned && s.table.leases[id] !in s.superseded)
    && (forall id :: id in s.table.cancels ==> s.table.cancels[id] in s.published)
  }

  ghost predicate HeldOk(s: State, op: Op) {
    forall lease :: lease in Held(op) ==>
      lease in s.minted && lease !in s.abandoned && lease !in s.superseded && !Recorded(s, lease)
  }

  /** A granted lease is unpublished; once a loop has re-put its key, the key has left the old lease. */
  ghost predicate PendingOk(s: State, op: Op) {
    && (IsPending(op) ==> op.lease in s.minted && op.lease !in s.published && s.minted[op.lease] == op.key)
    && (op.Locking? && op.caller.Renewing? ==> Find(s.store.keys, op.key) != Some(op.caller.owned))
  }

  /** A loop's cancel function is the registered one exactly when the lease it owns is. */
  ghost predicate LoopOk(s: State, op: Op) {
    && (op.KeepingAlive? ==> op.caller.Renewing?)
    && (IsLoop(op) ==>
          && LoopHandle(op) in s.published && LoopLease(op) in s.published && LoopLease(op) in s.minted
          && s.minted[LoopLease(op)] == op.key
          && (Find(s.table.cancels, op.key.id) == Some(LoopHandle(op)) <==>
              Find(s.table.leases, op.key.id) == Some(LoopLease(op))))
  }

  ghost predicate OpOk(s: State, op: Op) {
    HeldOk(s, op) && PendingOk(s, op) && LoopOk(s, op)
  }

  ghost predicate OpsOk(s: State) {
    forall t :: t in s.ops ==> OpOk(s, s.ops[t])
  }

  ghost predicate Apart(a: Op, b: Op) {
    && Held(a) !! Held(b)
    && (IsLoop(a) && IsLoop(b) ==> LoopHandle(a) != LoopHandle(b) && LoopLease(a) != LoopLease(b))
  }

  ghost predicate AllApart(s: State) {
    forall t, u :: t in s.ops && u in s.ops && t != u ==> Apart(s.ops[t], s.ops[u])
  }

  ghost predicate Accounted(s: State, lease: LeaseId) {
    Recorded(s, lease) || InFlight(s, lease) || lease in s.superseded || lease in s.abandoned
  }

  /** No live lease is lost: the table or an operation has it, or a loop or a failure gave it up. */
  ghost predicate NoneLost(s: State) {
    forall lease :: lease in s.store.live ==> Accounted(s, lease)
  }

  ghost predicate AboutToCancel(s: State, h: Handle) {
    exists t :: t in s.ops && s.ops[t].CancellingOld? && s.ops[t].oldCancel == Some(h)
  }

  /** A loop whose context is not cancelled owns its table entry, or is about to be cancelled. */
  ghost predicate Attended(s: State, op: Op) {
    IsLoop(op) ==>
      || LoopHandle(op) in s.cancelled
      || Find(s.table.cancels, op.key.id) == Some(LoopHandle(op))
      || AboutToCancel(s, LoopHandle(op))
  }

  ghost predicate LoopsOwned(s: State) {
    forall t :: t in s.ops ==> Attended(s, s.ops[t])
  }

  ghost predicate Inv(s: State) {
    Ledger(s) && TableOk(s) && OpsOk(s) && AllApart(s) && NoneLost(s) && LoopsOwned(s)
  }

  // -------------------------------------------------------- one step keeps Inv

  ghost predicate OthersSame(s: State, r: State, t: OpId) {
    && (forall u :: u != t ==> (u in r.ops <==> u in s.ops))
    && (forall u :: u != t && u in s.ops ==> r.ops[u] == s.ops[u])
  }

  lemma OthersWitness(s: State, r: State, t: OpId)
    requires OthersSame(s, r, t)
    ensures forall l :: InFlight(s, l) && !(t in s.ops && l in Held(s.ops[t])) ==> InFlight(r, l)
    ensures forall h: Handle ::
              AboutToCancel(s, h) && !(t in s.ops && s.ops[t].CancellingOld? && s.ops[t].oldCancel == Some(h))
              ==> AboutToCancel(r, h)
  {
  }

  /** The two states differ in operation `t` only, and neither in the table nor in what is published. */
  ghost predicate OnlyOp(s: State, r: State, t: OpId) {
    && OthersSame(s, r, t)
    && r.table == s.table && r.published == s.published && r.superseded == s.superseded
    && s.minted.Keys <= r.minted.Keys && (forall lease :: lease in s.minted ==> r.minted[lease] == s.minted[lease])
    && s.cancelled <= r.cancelled && s.abandoned <= r.abandoned
  }

  /** Leases operation `t` answers for in the step from `s`: those it held, and those just granted. */
  ghost predicate Answers(s: State, t: OpId, lease: LeaseId) {
    lease !in s.minted || (t in s.ops && lease in Held(s.ops[t]))
  }

  /** The step attaches keys to unpublished leases only. */
  ghost predicate KeysFrom(s: State, r: State) {
    forall k :: k in r.store.keys ==>
      r.store.keys[k] !in s.published || (k in s.store.keys && s.store.keys[k] == r.store.keys[k])
  }

  /** Operation `t` keeps every live lease it answers for, or abandons it. */
  ghost predicate LeasesFrom(s: State, r: State, t: OpId) {
    && (forall lease :: lease in r.abandoned && lease !in s.abandoned ==> Answers(s, t, lease))
    && (forall lease :: lease in r.store.live ==> lease in s.store.live || lease !in s.minted)
    && (forall lease :: lease in r.store.live && Answers(s, t, lease) ==>
          lease in r.abandoned || (t in r.ops && lease in Held(r.ops[t])))
    && (t in r.ops ==> forall lease :: lease in Held(r.ops[t]) ==> Answers(s, t, lease))
  }

  ghost predicate SameLoop(a: Op, b: Op) {
    IsLoop(b) ==> IsLoop(a) && b.key == a.key && LoopHandle(b) == LoopHandle(a) && LoopLease(b) == LoopLease(a)
  }

  ghost predicate LocalStep(s: State, r: State, t: OpId) {
    && t in s.ops && OnlyOp(s, r, t) && Ledger(r) && KeysFrom(s, r) && LeasesFrom(s, r, t)
    && (t in r.ops ==> OpOk(r, r.ops[t]) && SameLoop(s.ops[t], r.ops[t]))
    && (s.ops[t].CancellingOld? && s.ops[t].oldCancel.Some? ==> s.ops[t].oldCancel.value in r.cancelled)
  }

  lemma LocalOps(s: State, r: State, t: OpId)
    requires Inv(s) && LocalStep(s, r, t)
    ensures OpsOk(r) && TableOk(r)
  {
    forall u | u in r.ops ensures OpOk(r, r.ops[u]) {
      if u != t {
        assert OpOk(s, s.ops[u]) && Apart(s.ops[t], s.ops[u]);
      }
    }
    assert OpOk(s, s.ops[t]);
  }

  lemma LocalApart(s: State, r: State, t: OpId)
    requires Inv(s) && LocalStep(s, r, t)
    ensures AllApart(r)
  {
  }

  lemma LocalNoneLost(s: State, r: State, t: OpId)
    requires Inv(s) && LocalStep(s, r, t)
    ensures NoneLost(r)
  {
  }

  lemma LocalLoops(s: State, r: State, t: OpId)
    requires Inv(s) && LocalStep(s, r, t)
    ensures LoopsOwned(r)
  {
  }

  lemma LocalKeeps(s: State, r: State, t: OpId)
    requires Inv(s) && LocalStep(s, r, t)
    ensures Inv(r)
  {
    LocalOps(s, r, t);
    LocalApart(s, r, t);
    LocalNoneLost(s, r, t);
    LocalLoops(s, r, t);
  }

  /** All of LocalStep but what it says about operation `t` afterwards. */
  ghost predicate LocalFrame(s: State, r: State, t: OpId) {
    OnlyOp(s, r, t) && Ledger(r) && KeysFrom(s, r) && LeasesFrom(s, r, t)
  }

  lemma GrantFrame(s: State, t: OpId, lease: LeaseId, applied: bool, ok: bool)
    requires Ledger(s) && t in s.ops && OpOk(s, s.ops[t])
    requires GrantStep(s, t, lease, applied, ok).Some?
    ensures LocalFrame(s, GrantStep(s, t, lease, applied, ok).value, t)
  {
  }

  lemma GrantOp(s: State, t: OpId, lease: LeaseId, applied: bool, ok: bool)
    requires Ledger(s) && TableOk(s) && t in s.ops && OpOk(s, s.ops[t])
    requires GrantStep(s, t, lease, applied, ok).Some? && t in GrantStep(s, t, lease, applied, ok).value.ops
    ensures var r := GrantStep(s, t, lease, applied, ok).value;
            OpOk(r, r.ops[t]) && SameLoop(s.ops[t], r.ops[t])
  {
  }

  lemma GrantIsLocal(s: State, t: OpId, lease: LeaseId, applied: bool, ok: bool)
    requires Ledger(s) && TableOk(s) && t in s.ops && OpOk(s, s.ops[t])
    requires GrantStep(s, t, lease, applied, ok).Some?
    ensures LocalStep(s, GrantStep(s, t, lease, applied, ok).value, t)
  {
    GrantFrame(s, t, lease, applied, ok);
    if t in GrantStep(s, t, lease, applied, ok).value.ops {
      GrantOp(s, t, lease, applied, ok);
    }
  }

  lemma PutIsLocal(s: State, t: OpId, applied: bool, ok: bool)
    requires Ledger(s) && t in s.ops && OpOk(s, s.ops[t])
    requires PutStep(s, t, applied, ok).Some?
    ensures LocalStep(s, PutStep(s, t, applied, ok).value, t)
  {
  }

  lemma WithoutLeaseLedger(s: State, lease: LeaseId)
    requires Ledger(s)
    ensures Ledger(s.(store := WithoutLease(s.store, lease)))
  {
  }

  /** `s1` is `s` after the attempt: the lease is gone from the store, or given up. */
  ghost predicate Attempted(s: State, s1: State, t: OpId, lease: LeaseId) {
    && s1.ops == s.ops && OnlyOp(s, s1, t) && s1.minted == s.minted && Ledger(s1)
    && s1.abandoned <= s.abandoned + {lease}
    && (forall k :: k in s1.store.keys ==> k in s.store.keys && s.store.keys[k] == s1.store.keys[k])
    && s1.store.live <= s.store.live && (lease in s1.abandoned || lease !in s1.store.live)
  }

  lemma AfterRevokeLeases(s: State, s1: State, t: OpId, lease: LeaseId)
    requires t in s.ops && OpOk(s, s.ops[t]) && lease in RevokeTargets(s.ops[t]) && Attempted(s, s1, t, lease)
    ensures LeasesFrom(s, AfterRevoke(s1, t, lease), t)
  {
  }

  lemma AfterRevokeOp(s: State, s1: State, t: OpId, lease: LeaseId)
    requires t in s.ops && OpOk(s, s.ops[t]) && lease in RevokeTargets(s.ops[t]) && Attempted(s, s1, t, lease)
    requires t in AfterRevoke(s1, t, lease).ops
    ensures OpOk(AfterRevoke(s1, t, lease), AfterRevoke(s1, t, lease).ops[t])
    ensures SameLoop(s.ops[t], AfterRevoke(s1, t, lease).ops[t])
  {
  }

  lemma AfterRevokeFrame(s: State, s1: State, t: OpId, lease: LeaseId)
    requires t in s.ops && OpOk(s, s.ops[t]) && lease in RevokeTargets(s.ops[t]) && Attempted(s, s1, t, lease)
    ensures LocalFrame(s, AfterRevoke(s1, t, lease), t)
  {
    var r := AfterRevoke(s1, t, lease);
    assert r == s1.(ops := r.ops) && OthersSame(s, r, t);
    AfterRevokeLeases(s, s1, t, lease);
  }

  lemma AfterRevokeIsLocal(s: State, s1: State, t: OpId, lease: LeaseId)
    requires t in s.ops && OpOk(s, s.ops[t]) && lease in RevokeTargets(s.ops[t]) && Attempted(s, s1, t, lease)
    ensures LocalStep(s, AfterRevoke(s1, t, lease), t)
  {
    AfterRevokeFrame(s, s1, t, lease);
    if t in AfterRevoke(s1, t, lease).ops {
      AfterRevokeOp(s, s1, t, lease);
    }
  }

  lemma RevokeIsLocal(s: State, t: OpId, lease: LeaseId, applied: bool)
    requires Ledger(s) && t in s.ops && OpOk(s, s.ops[t])
    requires RevokeStep(s, t, lease, applied).Some?
    ensures LocalStep(s, RevokeStep(s, t, lease, applied).value, t)
  {
    var s1 := if applied then s.(store := WithoutLease(s.store, lease))
              else s.(abandoned := s.abandoned + {lease});
    assert lease in Held(s.ops[t]);
    WithoutLeaseLedger(s, lease);
    AfterRevokeIsLocal(s, s1, t, lease);
  }

  lemma DeleteFrame(s: State, t: OpId, applied: bool)
    requires Ledger(s) && t in s.ops && OpOk(s, s.ops[t])
    requires DeleteStep(s, t, applied).Some?
    ensures LocalFrame(s, DeleteStep(s, t, applied).value, t)
  {
  }

  lemma DeleteIsLocal(s: State, t: OpId, applied: bool)
    requires Ledger(s) && t in s.ops && OpOk(s, s.ops[t])
    requires DeleteStep(s, t, applied).Some?
    ensures LocalStep(s, DeleteStep(s, t, applied).value, t)
  {
    DeleteFrame(s, t, applied);
  }

  lemma CancelOldIsLocal(s: State, t: OpId)
    requires Ledger(s) && t in s.ops && OpOk(s, s.ops[t])
    requires CancelOldStep(s, t).Some?
    ensures LocalStep(s, CancelOldStep(s, t).value, t)
  {
  }

  lemma LoopMoveIsLocal(s: State, step: Step, t: OpId)
    requires Ledger(s) && t in s.ops && OpOk(s, s.ops[t])
    requires step == Spawn(t) || step == Interrupt(t) || step == Exit(t)
    requires Next(s, step).Some?
    ensures LocalStep(s, Next(s, step).value, t)
  {
  }

  /** Publishing moves the operation's lease into the table and the displaced one into its hands. */
  lemma PublishOps(s: State, t: OpId, key: Key, lease: LeaseId)
    requires Inv(s) && t in s.ops && s.ops[t] == Locking(key, Registering, lease)
    ensures OpsOk(PublishBlock(s, t, key, lease))
  {
    var r := PublishBlock(s, t, key, lease);
    assert OpOk(s, s.ops[t]);
    forall u | u in r.ops ensures OpOk(r, r.ops[u]) {
      if u != t {
        assert OpOk(s, s.ops[u]) && Apart(s.ops[t], s.ops[u]);
      }
    }
  }

  lemma PublishTable(s: State, t: OpId, key: Key, lease: LeaseId)
    requires Ledger(s) && TableOk(s) && t in s.ops && OpOk(s, s.ops[t])
    requires s.ops[t] == Locking(key, Registering, lease)
    ensures Ledger(PublishBlock(s, t, key, lease)) && TableOk(PublishBlock(s, t, key, lease))
  {
  }

  /** The operation now answers for the displaced lease, which no other one held. */
  lemma PublishedApart(s: State, t: OpId, u: OpId, key: Key, lease: LeaseId)
    requires Ledger(s) && TableOk(s) && t in s.ops && u in s.ops && u != t && OpOk(s, s.ops[t]) && OpOk(s, s.ops[u])
    requires s.ops[t] == Locking(key, Registering, lease)
    ensures var op := PublishBlock(s, t, key, lease).ops[t];
            Apart(op, s.ops[u]) && Apart(s.ops[u], op)
  {
  }

  lemma PublishRest(s: State, t: OpId, key: Key, lease: LeaseId)
    requires Inv(s) && t in s.ops && s.ops[t] == Locking(key, Registering, lease)
    ensures Ledger(PublishBlock(s, t, key, lease)) && TableOk(PublishBlock(s, t, key, lease))
    ensures AllApart(PublishBlock(s, t, key, lease))
  {
    var op := PublishBlock(s, t, key, lease).ops[t];
    assert OpOk(s, s.ops[t]);
    PublishTable(s, t, key, lease);
    forall u | u in s.ops && u != t ensures Apart(op, s.ops[u]) && Apart(s.ops[u], op) {
      assert OpOk(s, s.ops[u]);
      PublishedApart(s, t, u, key, lease);
    }
  }

  lemma PublishNoneLost(s: State, t: OpId, key: Key, lease: LeaseId)
    requires Inv(s) && t in s.ops && s.ops[t] == Locking(key, Registering, lease)
    ensures NoneLost(PublishBlock(s, t, key, lease))
  {
    var r := PublishBlock(s, t, key, lease);
    assert OpOk(s, s.ops[t]);
    OthersWitness(s, r, t);
    forall l | l in r.store.live ensures Accounted(r, l) {
      if Recorded(s, l) && l == LeaseOf(s.table, key.id) {
        assert t in r.ops && l in Held(r.ops[t]);
      }
    }
  }

  lemma PublishLoops(s: State, t: OpId, key: Key, lease: LeaseId)
    requires Inv(s) && t in s.ops && s.ops[t] == Locking(key, Registering, lease)
    ensures LoopsOwned(PublishBlock(s, t, key, lease))
  {
    var r := PublishBlock(s, t, key, lease);
    OthersWitness(s, r, t);
    forall u | u in r.ops ensures Attended(r, r.ops[u]) {
      if u != t && IsLoop(s.ops[u]) && Find(s.table.cancels, s.ops[u].key.id) == Some(LoopHandle(s.ops[u])) {
        assert s.ops[u].key.id == key.id ==> r.ops[t].oldCancel == Some(LoopHandle(s.ops[u]));
      }
    }
  }

  lemma LostSwapIsLocal(s: State, t: OpId, key: Key, handle: Handle, owned: LeaseId, lease: LeaseId)
    requires Ledger(s) && t in s.ops && OpOk(s, s.ops[t])
    requires s.ops[t] == Locking(key, Renewing(handle, owned), lease) && LeaseOf(s.table, key.id) != owned
    ensures LocalStep(s, SwapBlock(s, t, key, handle, owned, lease), t)
  {
  }

  lemma SwapOwnOp(s: State, t: OpId, key: Key, handle: Handle, owned: LeaseId, lease: LeaseId)
    requires Ledger(s) && TableOk(s) && t in s.ops && OpOk(s, s.ops[t])
    requires s.ops[t] == Locking(key, Renewing(handle, owned), lease)
    requires LeaseOf(s.table, key.id) == owned
    ensures var r := SwapBlock(s, t, key, handle, owned, lease);
            OpOk(r, r.ops[t])
  {
  }

  lemma SwapOtherOp(s: State, t: OpId, u: OpId, key: Key, handle: Handle, owned: LeaseId, lease: LeaseId)
    requires Ledger(s) && TableOk(s) && t in s.ops && u in s.ops && u != t && Apart(s.ops[t], s.ops[u])
    requires OpOk(s, s.ops[t]) && OpOk(s, s.ops[u])
    requires s.ops[t] == Locking(key, Renewing(handle, owned), lease)
    requires LeaseOf(s.table, key.id) == owned
    ensures OpOk(SwapBlock(s, t, key, handle, owned, lease), s.ops[u])
  {
  }

  lemma SwapOps(s: State, t: OpId, key: Key, handle: Handle, owned: LeaseId, lease: LeaseId)
    requires Ledger(s) && TableOk(s) && OpsOk(s) && AllApart(s)
    requires t in s.ops && s.ops[t] == Locking(key, Renewing(handle, owned), lease)
    requires LeaseOf(s.table, key.id) == owned
    ensures OpsOk(SwapBlock(s, t, key, handle, owned, lease))
  {
    var r := SwapBlock(s, t, key, handle, owned, lease);
    SwapOwnOp(s, t, key, handle, owned, lease);
    forall u | u in r.ops && u != t ensures OpOk(r, r.ops[u]) {
      SwapOtherOp(s, t, u, key, handle, owned, lease);
    }
  }

  lemma SwapTable(s: State, t: OpId, key: Key, handle: Handle, owned: LeaseId, lease: LeaseId)
    requires Ledger(s) && TableOk(s) && t in s.ops && OpOk(s, s.ops[t])
    requires s.ops[t] == Locking(key, Renewing(handle, owned), lease)
    requires LeaseOf(s.table, key.id) == owned
    ensures Ledger(SwapBlock(s, t, key, handle, owned, lease)) && TableOk(SwapBlock(s, t, key, handle, owned, lease))
  {
  }

  /** The loop goes on with a lease nobody else has. */
  lemma SwappedLoopApart(s: State, t: OpId, u: OpId, key: Key, handle: Handle, owned: LeaseId, lease: LeaseId)
    requires t in s.ops && u in s.ops && u != t && OpOk(s, s.ops[t]) && OpOk(s, s.ops[u])
    requires Apart(s.ops[t], s.ops[u]) && s.ops[t] == Locking(key, Renewing(handle, owned), lease)
    ensures Apart(KeepingAlive(key, Renewing(handle, lease)), s.ops[u])
    ensures Apart(s.ops[u], KeepingAlive(key, Renewing(handle, lease)))
  {
  }

  lemma SwapApart(s: State, t: OpId, key: Key, handle: Handle, owned: LeaseId, lease: LeaseId)
    requires OpsOk(s) && AllApart(s)
    requires t in s.ops && s.ops[t] == Locking(key, Renewing(handle, owned), lease)
    requires LeaseOf(s.table, key.id) == owned
    ensures AllApart(SwapBlock(s, t, key, handle, owned, lease))
  {
    forall u | u in s.ops && u != t
      ensures Apart(KeepingAlive(key, Renewing(handle, lease)), s.ops[u])
      ensures Apart(s.ops[u], KeepingAlive(key, Renewing(handle, lease)))
    {
      SwappedLoopApart(s, t, u, key, handle, owned, lease);
    }
  }

  lemma SwapNoneLost(s: State, t: OpId, key: Key, handle: Handle, owned: LeaseId, lease: LeaseId)
    requires NoneLost(s) && Ledger(s) && TableOk(s)
    requires t in s.ops && s.ops[t] == Locking(key, Renewing(handle, owned), lease) && OpOk(s, s.ops[t])
    requires LeaseOf(s.table, key.id) == owned
    ensures NoneLost(SwapBlock(s, t, key, handle, owned, lease))
  {
    OthersWitness(s, SwapBlock(s, t, key, handle, owned, lease), t);
  }

  lemma SwapLoops(s: State, t: OpId, key: Key, handle: Handle, owned: LeaseId, lease: LeaseId)
    requires LoopsOwned(s)
    requires t in s.ops && s.ops[t] == Locking(key, Renewing(handle, owned), lease)
    requires LeaseOf(s.table, key.id) == owned
    ensures LoopsOwned(SwapBlock(s, t, key, handle, owned, lease))
  {
    OthersWitness(s, SwapBlock(s, t, key, handle, owned, lease), t);
  }

  /** Taking entries out of the table: Deregister takes one, Close takes all. */
  ghost predicate TakenOut(s: State, r: State, t: OpId, ids: set<InstanceId>) {
    && t in s.ops && Held(s.ops[t]) == {} && !IsLoop(s.ops[t]) && !s.ops[t].CancellingOld?
    && r.store == s.store && r.minted == s.minted && r.published == s.published
    && r.superseded == s.superseded && r.abandoned == s.abandoned
    && r.table == Table(s.table.leases - ids, s.table.cancels - ids)
    && r.cancelled == s.cancelled + (set id | id in ids && id in s.table.cancels :: s.table.cancels[id])
    && OthersSame(s, r, t)
    && (t in r.ops ==> !IsLoop(r.ops[t]) && !IsPending(r.ops[t]) && !r.ops[t].KeepingAlive?)
    && (forall id :: id in ids && id in s.table.leases ==> t in r.ops && s.table.leases[id] in Held(r.ops[t]))
    && (t in r.ops ==> forall lease :: lease in Held(r.ops[t]) ==>
          exists id :: id in ids && id in s.table.leases && s.table.leases[id] == lease)
  }

  lemma TakenOutOps(s: State, r: State, t: OpId, ids: set<InstanceId>)
    requires Ledger(s) && TableOk(s) && OpsOk(s) && TakenOut(s, r, t, ids)
    ensures Ledger(r) && TableOk(r) && OpsOk(r)
  {
    forall u | u in r.ops ensures OpOk(r, r.ops[u]) {
      if u != t {
        assert OpOk(s, s.ops[u]);
      }
    }
  }

  lemma TakenOutApart(s: State, r: State, t: OpId, ids: set<InstanceId>)
    requires TableOk(s) && OpsOk(s) && AllApart(s) && TakenOut(s, r, t, ids)
    ensures AllApart(r)
  {
  }

  lemma TakenOutLive(s: State, r: State, t: OpId, ids: set<InstanceId>)
    requires TableOk(s) && NoneLost(s) && LoopsOwned(s) && TakenOut(s, r, t, ids)
    ensures NoneLost(r) && LoopsOwned(r)
  {
  }

  lemma TakenOutKeeps(s: State, r: State, t: OpId, ids: set<InstanceId>)
    requires Inv(s) && TakenOut(s, r, t, ids)
    ensures Inv(r)
  {
    TakenOutOps(s, r, t, ids);
    TakenOutApart(s, r, t, ids);
    TakenOutLive(s, r, t, ids);
  }

  lemma TakeIsTakenOut(s: State, t: OpId, key: Key)
    requires TableOk(s) && Ledger(s) && t in s.ops && s.ops[t] == Taking(key)
    ensures TakenOut(s, TakeBlock(s, t, key), t, {key.id})
  {
  }

  lemma CloseIsTakenOut(s: State, t: OpId)
    requires TableOk(s) && t in s.ops && s.ops[t].Closing?
    ensures TakenOut(s, CloseBlock(s, t), t, s.table.leases.Keys)
  {
  }

  lemma LockKeeps(s: State, t: OpId)
    requires Inv(s) && LockStep(s, t).Some?
    ensures Inv(LockStep(s, t).value)
  {
    assert OpOk(s, s.ops[t]);
    match s.ops[t]
    case Locking(key, Registering, lease) =>
      PublishOps(s, t, key, lease);
      PublishRest(s, t, key, lease);
      PublishNoneLost(s, t, key, lease);
      PublishLoops(s, t, key, lease);
    case Locking(key, Renewing(handle, owned), lease) =>
      if LeaseOf(s.table, key.id) == owned {
        SwapOps(s, t, key, handle, owned, lease);
        SwapTable(s, t, key, handle, owned, lease);
        SwapApart(s, t, key, handle, owned, lease);
        SwapNoneLost(s, t, key, handle, owned, lease);
        SwapLoops(s, t, key, handle, owned, lease);
      } else {
        LostSwapIsLocal(s, t, key, handle, owned, lease);
        LocalKeeps(s, LockStep(s, t).value, t);
      }
    case Taking(key) =>
      TakeIsTakenOut(s, t, key);
      TakenOutKeeps(s, LockStep(s, t).value, t, {key.id});
    case Closing =>
      CloseIsTakenOut(s, t);
      TakenOutKeeps(s, LockStep(s, t).value, t, s.table.leases.Keys);
  }

  lemma BeginOps(s: State, t: OpId, op: Op)
    requires OpsOk(s) && t !in s.ops && IsCall(op)
    ensures OpsOk(Continue(s, t, op))
  {
    var r := Continue(s, t, op);
    forall u | u in r.ops ensures OpOk(r, r.ops[u]) {
      if u != t {
        assert OpOk(s, s.ops[u]);
      }
    }
  }

  lemma BeginApart(s: State, t: OpId, op: Op)
    requires AllApart(s) && t !in s.ops && IsCall(op)
    ensures AllApart(Continue(s, t, op))
  {
  }

  lemma BeginLive(s: State, t: OpId, op: Op)
    requires NoneLost(s) && LoopsOwned(s) && t !in s.ops && IsCall(op)
    ensures NoneLost(Continue(s, t, op)) && LoopsOwned(Continue(s, t, op))
  {
    OthersWitness(s, Continue(s, t, op), t);
  }

  lemma BeginKeeps(s: State, t: OpId, op: Op)
    requires Inv(s) && t !in s.ops && IsCall(op)
    ensures Inv(Continue(s, t, op))
  {
    BeginOps(s, t, op);
    BeginApart(s, t, op);
    BeginLive(s, t, op);
  }

  lemma ExpireKeeps(s: State, lease: LeaseId)
    requires Inv(s)
    ensures Inv(s.(store := WithoutLease(s.store, lease)))
  {
  }

  lemma StepKeeps(s: State, step: Step)
    requires Inv(s) && Next(s, step).Some?
    ensures Inv(Next(s, step).value)
  {
    match step
    case Begin(t, op) => BeginKeeps(s, t, op);
    case Expire(lease) => ExpireKeeps(s, lease);
    case Lock(t) => LockKeeps(s, t);
    case Grant(t, lease, applied, ok) =>
      assert OpOk(s, s.ops[t]);
      GrantIsLocal(s, t, lease, applied, ok);
      LocalKeeps(s, Next(s, step).value, t);
    case Put(t, applied, ok) =>
      assert OpOk(s, s.ops[t]);
      PutIsLocal(s, t, applied, ok);
      LocalKeeps(s, Next(s, step).value, t);
    case Revoke(t, lease, applied) =>
      assert OpOk(s, s.ops[t]);
      RevokeIsLocal(s, t, lease, applied);
      LocalKeeps(s, Next(s, step).value, t);
    case Delete(t, applied) =>
      assert OpOk(s, s.ops[t]);
      DeleteIsLocal(s, t, applied);
      LocalKeeps(s, Next(s, step).value, t);
    case CancelOld(t) =>
      assert OpOk(s, s.ops[t]);
      CancelOldIsLocal(s, t);
      LocalKeeps(s, Next(s, step).value, t);
    case _ =>
      assert OpOk(s, s.ops[step.t]);
      LoopMoveIsLocal(s, step, step.t);
      LocalKeeps(s, Next(s, step).value, step.t);
  }

  lemma {:induction false} RunKeeps(s: State, run: seq<Step>)
    requires Inv(s) && Exec(s, run).Some?
    ensures Inv(Exec(s, run).value)
    decreases |run|
  {
    if run != [] {
      StepKeeps(s, run[0]);
      RunKeeps(Next(s, run[0]).value, run[1..]);
    }
  }

  // ------------------------------------------------------------- the guarantees

  ghost predicate Reachable(s: State) {
    exists run :: Exec(INIT, run) == Some(s)
  }

  lemma ReachableInv(s: State)
    requires Reachable(s)
    ensures Inv(s)
  {
    var run :| Exec(INIT, run) == Some(s);
    RunKeeps(INIT, run);
  }

  /**
   No ghost registration.  In every interleaving, with any remote call failing and any
   lease expiring, a key in the store is attached to the lease the table records for
   its instance, or to one an operation still answers for, or to a lease lost to a
   failed remote call.  A lease a keepalive loop replaced never holds a key.
   */
  lemma NoGhostRegistration(s: State, key: Key)
    requires Reachable(s) && key in s.store.keys
    ensures Find(s.table.leases, key.id) == Some(s.store.keys[key])
         || InFlight(s, s.store.keys[key]) || s.store.keys[key] in s.abandoned
    ensures s.store.keys[key] !in s.superseded
  {
    ReachableInv(s);
  }

  /** Every live lease is in exactly one place: table, one operation, superseded, or abandoned. */
  lemma LeasesConserved(s: State, lease: LeaseId)
    requires Reachable(s) && lease in s.store.live
    ensures Accounted(s, lease)
    ensures Recorded(s, lease) ==> !InFlight(s, lease) && lease !in s.superseded && lease !in s.abandoned
    ensures InFlight(s, lease) ==> lease !in s.superseded && lease !in s.abandoned
    ensures lease !in s.superseded || lease !in s.abandoned
    ensures forall t, u :: t in s.ops && u in s.ops && lease in Held(s.ops[t]) && lease in Held(s.ops[u]) ==> t == u
  {
    ReachableInv(s);
    if InFlight(s, lease) {
      var t :| t in s.ops && lease in Held(s.ops[t]);
      assert OpOk(s, s.ops[t]);
    }
    forall t, u | t in s.ops && u in s.ops && lease in Held(s.ops[t]) && lease in Held(s.ops[u])
      ensures t == u
    {
      assert t == u || Apart(s.ops[t], s.ops[u]);
    }
  }

  /** Nothing is in flight: only idle keepalive loops remain. */
  ghost predicate Quiet(s: State) {
    forall t :: t in s.ops ==> Held(s.ops[t]) == {}
  }

  /**
   When nothing is in flight, a present key belongs to its table entry exactly when
   its lease was not abandoned; so once the abandoned leases have expired, an
   unregistered instance has no key at all.
   */
  lemma QuietKeys(s: State, key: Key)
    requires Reachable(s) && Quiet(s) && key in s.store.keys
    ensures Find(s.table.leases, key.id) == Some(s.store.keys[key]) <==> s.store.keys[key] !in s.abandoned
  {
    NoGhostRegistration(s, key);
    ReachableInv(s);
  }

  lemma QuietAbsent(s: State, key: Key)
    requires Reachable(s) && Quiet(s) && key.id !in s.table.leases && s.abandoned !! s.store.live
    ensures key !in s.store.keys
  {
    ReachableInv(s);
    if key in s.store.keys { QuietKeys(s, key); }
  }

  /** A granted lease reaches its caller and a Revoke takes effect; Puts and Deletes may fail. */
  predicate Clean(step: Step) {
    match step
    case Grant(_, _, applied, ok) => applied ==> ok
    case Revoke(_, _, applied) => applied
    case _ => true
  }

  lemma {:induction false} CleanRunAbandonsNothing(s: State, run: seq<Step>)
    requires Exec(s, run).Some? && s.abandoned == {}
    requires forall i :: 0 <= i < |run| ==> Clean(run[i])
    ensures Exec(s, run).value.abandoned == {}
    decreases |run|
  {
    if run != [] {
      assert Clean(run[0]);
      assert Next(s, run[0]).value.abandoned == {};
      CleanRunAbandonsNothing(Next(s, run[0]).value, run[1..]);
    }
  }

  /** In such a run, once nothing is in flight, an unregistered instance has no key. */
  lemma CleanRunLeavesNoGhost(run: seq<Step>, key: Key)
    requires Exec(INIT, run).Some? && (forall i :: 0 <= i < |run| ==> Clean(run[i]))
    requires Quiet(Exec(INIT, run).value) && key.id !in Exec(INIT, run).value.table.leases
    ensures key !in Exec(INIT, run).value.store.keys
  {
    CleanRunAbandonsNothing(INIT, run);
    QuietAbsent(Exec(INIT, run).value, key);
  }

  /**
   One keepalive owner.  Both maps have the same keys; once no Register is between its
   locked block and its cancel call, an uncancelled loop is the one the table names,
   owns the lease the table records, and is the only such loop of its instance; so
   nobody keeps an abandoned lease alive and it goes with its TTL.
   */
  lemma SingleKeepaliveOwner(s: State, t: OpId)
    requires Reachable(s) && t in s.ops && IsLoop(s.ops[t]) && LoopHandle(s.ops[t]) !in s.cancelled
    requires !AboutToCancel(s, LoopHandle(s.ops[t]))
    ensures s.table.leases.Keys == s.table.cancels.Keys
    ensures Find(s.table.cancels, s.ops[t].key.id) == Some(LoopHandle(s.ops[t]))
    ensures Find(s.table.leases, s.ops[t].key.id) == Some(LoopLease(s.ops[t]))
    ensures LoopLease(s.ops[t]) !in s.abandoned
    ensures forall u :: (&& u in s.ops && IsLoop(s.ops[u]) && s.ops[u].key.id == s.ops[t].key.id
                         && LoopHandle(s.ops[u]) !in s.cancelled && !AboutToCancel(s, LoopHandle(s.ops[u])))
                        ==> u == t
  {
    ReachableInv(s);
    assert OpOk(s, s.ops[t]);
    forall u | u in s.ops && IsLoop(s.ops[u]) && s.ops[u].key.id == s.ops[t].key.id
              && LoopHandle(s.ops[u]) !in s.cancelled && !AboutToCancel(s, LoopHandle(s.ops[u]))
      ensures u == t
    {
      assert u == t || Apart(s.ops[u], s.ops[t]);
    }
  }

  /** A keepalive loop's locked block never creates or removes an entry, and replaces only its own lease. */
  lemma RenewalReplacesOwnLease(s: State, t: OpId, id: InstanceId)
    requires Reachable(s) && t in s.ops && s.ops[t].Locking? && s.ops[t].caller.Renewing?
    ensures LockStep(s, t).Some?
    ensures var r := LockStep(s, t).value;
            && r.table.cancels == s.table.cancels && r.table.leases.Keys == s.table.leases.Keys
            && (Find(r.table.leases, id) != Find(s.table.leases, id) ==>
                  && id == s.ops[t].key.id && Find(s.table.leases, id) == Some(s.ops[t].caller.owned)
                  && Find(r.table.leases, id) == Some(s.ops[t].lease))
  {
    ReachableInv(s);
    assert OpOk(s, s.ops[t]);
  }

  // ---------------------------------------------------- what does not hold, by example

  lemma {:induction false} ExecOneMore(s: State, run: seq<Step>, step: Step)
    requires Exec(s, run).Some?
    ensures Exec(s, run + [step]) == Next(Exec(s, run).value, step)
    decreases |run|
  {
    if run == [] {
      assert run + [step] == [step] && [step][1..] == [];
    } else {
      assert (run + [step])[1..] == run[1..] + [step];
      ExecOneMore(Next(s, run[0]).value, run[1..], step);
    }
  }

  lemma Advance(s: State, step: Step) returns (r: State)
    requires Reachable(s) && Next(s, step).Some?
    ensures r == Next(s, step).value && Reachable(r)
  {
    var run :| Exec(INIT, run) == Some(s);
    ExecOneMore(INIT, run, step);
    r := Next(s, step).value;
  }

  lemma InitReachable()
    ensures Reachable(INIT)
  {
    assert Exec(INIT, []) == Some(INIT);
  }

  function PutDone(key: Key): State {
    INIT.(store := Store({10}, map[key := 10]), minted := map[10 := key], ops := map[1 := Locking(key, Registering, 10)])
  }

  lemma PutDoneReachable(key: Key)
    ensures Reachable(PutDone(key))
  {
    InitReachable();
    var s := Advance(INIT, Begin(1, Granting(key, Registering)));
    s := Advance(s, Grant(1, 10, true, true));
    s := Advance(s, Put(1, true, true));
    assert s == PutDone(key);
  }

  /** A Deregister finds no entry and is about to delete the key. */
  lemma AboutToDelete(key: Key) returns (s: State)
    ensures Reachable(s)
    ensures s == PutDone(key).(ops := PutDone(key).ops[2 := Deleting(key, 0)])
  {
    PutDoneReachable(key);
    s := Advance(PutDone(key), Begin(2, Taking(key)));
    s := Advance(s, Lock(2));
    assert s.table == Table(map[], map[]);
  }

  /** A Register has put its key and waits for the mutex while a Deregister deletes the key. */
  lemma DeletedBeforePublish(key: Key) returns (s: State)
    ensures Reachable(s)
    ensures s == PutDone(key).(store := Store({10}, map[]))
  {
    s := AboutToDelete(key);
    s := Advance(s, Delete(2, true));
    assert s.ops == PutDone(key).ops;
  }

  /**
   The converse of NoGhostRegistration is false, even with no failure at all: a
   Deregister that runs between a Register's Put and its locked block leaves a table
   entry, with a keepalive loop, whose key is gone.
   */
  lemma TableEntryWithoutKey()
    ensures exists s :: Reachable(s) && Quiet(s) && s.abandoned == {}
                     && "a" in s.table.leases && Key("svc", "a") !in s.store.keys
  {
    var key := Key("svc", "a");
    var s := DeletedBeforePublish(key);
    s := Advance(s, Lock(1));
    s := Advance(s, CancelOld(1));
    s := Advance(s, Spawn(1));
    assert key !in s.store.keys && Quiet(s);
  }

  /** A Put that took effect but failed, then a failed Revoke: a key that no entry and no operation owns. */
  lemma FailedCallsLeaveGhost()
    ensures exists s :: Reachable(s) && s.ops == map[] && s.table.leases == map[]
                     && Find(s.store.keys, Key("svc", "a")) == Some(10) && s.abandoned == {10}
  {
    InitReachable();
    var s := Advance(INIT, Begin(1, Granting(Key("svc", "a"), Registering)));
    s := Advance(s, Grant(1, 10, true, true));
    s := Advance(s, Put(1, true, false));
    s := Advance(s, Revoke(1, 10, false));
    assert s.ops == map[];
  }
}
