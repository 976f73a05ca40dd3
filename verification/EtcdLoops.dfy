/**
 Every table entry keeps its keepalive loop: failed re-registrations, interruptions and
 other operations never leave an entry, and so an instance, without the loop that renews it.
 */
module EtcdLoops {
  import opened Options
  import opened EtcdLeases

  /** Operation `t` is the loop of the entry under `id`: the entry's cancel function and lease are its own. */
  ghost predicate Tends(s: State, t: OpId, id: InstanceId) {
    && t in s.ops && IsLoop(s.ops[t]) && s.ops[t].key.id == id
    && Find(s.table.cancels, id) == Some(LoopHandle(s.ops[t])) && Find(s.table.leases, id) == Some(LoopLease(s.ops[t]))
  }

  ghost predicate Tended(s: State, id: InstanceId) {
    exists t :: Tends(s, t, id)
  }

  ghost predicate AllTended(s: State) {
    forall id :: id in s.table.cancels ==> Tended(s, id)
  }

  /** The entries' cancel functions have not been called and nobody is about to call one. */
  ghost predicate HandlesOk(s: State) {
    && s.cancelled <= s.published
    && (forall id :: id in s.table.cancels ==>
          && s.table.cancels[id] !in s.cancelled
          && s.table.cancels[id] in s.minted && s.minted[s.table.cancels[id]].id == id)
    && (forall t :: t in s.ops && s.ops[t].CancellingOld? && s.ops[t].oldCancel.Some? ==>
          && s.ops[t].oldCancel.value in s.published
          && forall id :: id in s.table.cancels ==> s.table.cancels[id] != s.ops[t].oldCancel.value)
  }

  ghost predicate LoopInv(s: State) {
    Inv(s) && HandlesOk(s) && AllTended(s)
  }

  /** The step leaves the table alone and ends a loop only after its cancel function was called. */
  ghost predicate LoopsStay(s: State, r: State) {
    && r.table == s.table && r.published == s.published
    && s.minted.Keys <= r.minted.Keys && (forall lease :: lease in s.minted ==> r.minted[lease] == s.minted[lease])
    && (forall t :: t in r.ops && r.ops[t].CancellingOld? ==> t in s.ops && s.ops[t] == r.ops[t])
    && (forall t :: t in s.ops && IsLoop(s.ops[t]) && LoopHandle(s.ops[t]) !in s.cancelled ==>
          && t in r.ops && IsLoop(r.ops[t]) && r.ops[t].key == s.ops[t].key
          && LoopHandle(r.ops[t]) == LoopHandle(s.ops[t]) && LoopLease(r.ops[t]) == LoopLease(s.ops[t]))
  }

  lemma StayKeeps(s: State, r: State)
    requires HandlesOk(s) && AllTended(s) && LoopsStay(s, r)
    requires forall h :: h in r.cancelled && h !in s.cancelled ==> AboutToCancel(s, h)
    ensures HandlesOk(r) && AllTended(r)
  {
    forall id | id in r.table.cancels ensures Tended(r, id) {
      var t :| Tends(s, t, id);
      assert Tends(r, t, id);
    }
  }

  lemma GrantStays(s: State, t: OpId, lease: LeaseId, applied: bool, ok: bool)
    requires GrantStep(s, t, lease, applied, ok).Some?
    ensures LoopsStay(s, GrantStep(s, t, lease, applied, ok).value)
  {
  }

  lemma PutStays(s: State, t: OpId, applied: bool, ok: bool)
    requires PutStep(s, t, applied, ok).Some?
    ensures LoopsStay(s, PutStep(s, t, applied, ok).value)
  {
  }

  lemma RevokeStays(s: State, t: OpId, lease: LeaseId, applied: bool)
    requires RevokeStep(s, t, lease, applied).Some?
    ensures LoopsStay(s, RevokeStep(s, t, lease, applied).value)
  {
  }

  lemma LoopMoveStays(s: State, step: Step)
    requires Next(s, step).Some? && (step.CancelOld? || step.Spawn? || step.Interrupt? || step.Exit?)
    ensures LoopsStay(s, Next(s, step).value)
  {
  }

  lemma OtherStays(s: State, step: Step)
    requires Next(s, step).Some? && (step.Begin? || step.Delete? || step.Expire?)
    ensures LoopsStay(s, Next(s, step).value)
  {
  }

  /** A new entry comes with the operation that will be its loop, and takes the old handle out of the table. */
  lemma PublishTends(s: State, t: OpId, key: Key, lease: LeaseId)
    requires AllTended(s) && t in s.ops && s.ops[t] == Locking(key, Registering, lease)
    ensures AllTended(PublishBlock(s, t, key, lease))
  {
    var r := PublishBlock(s, t, key, lease);
    forall id | id in r.table.cancels ensures Tended(r, id) {
      if id == key.id {
        assert Tends(r, t, id);
      } else {
        var u :| Tends(s, u, id);
        assert Tends(r, u, id);
      }
    }
  }

  lemma PublishHandles(s: State, t: OpId, key: Key, lease: LeaseId)
    requires TableOk(s) && HandlesOk(s) && t in s.ops && OpOk(s, s.ops[t])
    requires s.ops[t] == Locking(key, Registering, lease)
    ensures HandlesOk(PublishBlock(s, t, key, lease))
  {
  }

  /** The loop that replaces its own lease goes on tending its entry. */
  lemma SwapTends(s: State, t: OpId, key: Key, handle: Handle, owned: LeaseId, lease: LeaseId)
    requires Ledger(s) && HandlesOk(s) && AllTended(s) && t in s.ops && OpOk(s, s.ops[t])
    requires s.ops[t] == Locking(key, Renewing(handle, owned), lease) && LeaseOf(s.table, key.id) == owned
    ensures HandlesOk(SwapBlock(s, t, key, handle, owned, lease)) && AllTended(SwapBlock(s, t, key, handle, owned, lease))
  {
    var r := SwapBlock(s, t, key, handle, owned, lease);
    assert LoopOk(s, s.ops[t]);
    forall id | id in r.table.cancels ensures Tended(r, id) {
      if id == key.id {
        assert Tends(r, t, id);
      } else {
        var u :| Tends(s, u, id);
        assert Tends(r, u, id);
      }
    }
  }

  /** The loop that finds its entry gone or taken over never tended it. */
  lemma LostSwapTends(s: State, t: OpId, key: Key, handle: Handle, owned: LeaseId, lease: LeaseId)
    requires HandlesOk(s) && AllTended(s) && t in s.ops
    requires s.ops[t] == Locking(key, Renewing(handle, owned), lease) && LeaseOf(s.table, key.id) != owned
    ensures HandlesOk(SwapBlock(s, t, key, handle, owned, lease)) && AllTended(SwapBlock(s, t, key, handle, owned, lease))
  {
    var r := SwapBlock(s, t, key, handle, owned, lease);
    forall id | id in r.table.cancels ensures Tended(r, id) {
      var u :| Tends(s, u, id);
      assert Tends(r, u, id);
    }
  }

  lemma TakenOutTended(s: State, r: State, t: OpId, ids: set<InstanceId>)
    requires AllTended(s) && TakenOut(s, r, t, ids)
    ensures AllTended(r)
  {
    forall id | id in r.table.cancels ensures Tended(r, id) {
      var u :| Tends(s, u, id);
      assert u != t && Tends(r, u, id);
    }
  }

  lemma TakenOutHandles(s: State, r: State, t: OpId, ids: set<InstanceId>)
    requires TableOk(s) && HandlesOk(s) && TakenOut(s, r, t, ids) && (t in r.ops ==> !r.ops[t].CancellingOld?)
    ensures HandlesOk(r)
  {
    forall id | id in r.table.cancels ensures r.table.cancels[id] !in r.cancelled {
      assert id !in ids && s.minted[s.table.cancels[id]].id == id;
    }
    forall u | u in r.ops && r.ops[u].CancellingOld? ensures u in s.ops && s.ops[u] == r.ops[u] {
    }
  }

  lemma LockTends(s: State, t: OpId)
    requires LoopInv(s) && LockStep(s, t).Some?
    ensures HandlesOk(LockStep(s, t).value) && AllTended(LockStep(s, t).value)
  {
    assert OpOk(s, s.ops[t]);
    match s.ops[t]
    case Locking(key, Registering, lease) =>
      PublishTends(s, t, key, lease);
      PublishHandles(s, t, key, lease);
    case Locking(key, Renewing(handle, owned), lease) =>
      if LeaseOf(s.table, key.id) == owned {
        SwapTends(s, t, key, handle, owned, lease);
      } else {
        LostSwapTends(s, t, key, handle, owned, lease);
      }
    case Taking(key) =>
      TakeIsTakenOut(s, t, key);
      TakenOutTended(s, LockStep(s, t).value, t, {key.id});
      TakenOutHandles(s, LockStep(s, t).value, t, {key.id});
    case Closing =>
      CloseIsTakenOut(s, t);
      TakenOutTended(s, LockStep(s, t).value, t, s.table.leases.Keys);
      TakenOutHandles(s, LockStep(s, t).value, t, s.table.leases.Keys);
  }

  /** Outside the mutex only a Register cancels, and only the loop it has displaced. */
  lemma CancelsNamed(s: State, step: Step)
    requires Next(s, step).Some? && !step.Lock?
    ensures forall h :: h in Next(s, step).value.cancelled && h !in s.cancelled ==> AboutToCancel(s, h)
  {
  }

  lemma StepTends(s: State, step: Step)
    requires LoopInv(s) && Next(s, step).Some?
    ensures LoopInv(Next(s, step).value)
  {
    StepKeeps(s, step);
    if step.Lock? {
      LockTends(s, step.t);
    } else {
      match step {
        case Grant(t, lease, applied, ok) => GrantStays(s, t, lease, applied, ok);
        case Put(t, applied, ok) => PutStays(s, t, applied, ok);
        case Revoke(t, lease, applied) => RevokeStays(s, t, lease, applied);
        case Begin(_, _) => OtherStays(s, step);
        case Delete(_, _) => OtherStays(s, step);
        case Expire(_) => OtherStays(s, step);
        case _ => LoopMoveStays(s, step);
      }
      CancelsNamed(s, step);
      StayKeeps(s, Next(s, step).value);
    }
  }

  lemma {:induction false} RunTends(s: State, run: seq<Step>)
    requires LoopInv(s) && Exec(s, run).Some?
    ensures LoopInv(Exec(s, run).value)
    decreases |run|
  {
    if run != [] {
      StepTends(s, run[0]);
      RunTends(Next(s, run[0]).value, run[1..]);
    }
  }

  /**
   In every reachable state an entry's cancel function has not been called, and exactly
   one loop tends the entry: it holds that function and the recorded lease, and every
   other loop of the instance is cancelled or about to be.
   */
  lemma EntryKeepsLoop(s: State, id: InstanceId)
    requires Reachable(s) && id in s.table.cancels
    ensures id in s.table.leases && s.table.cancels[id] !in s.cancelled
    ensures exists t :: Tends(s, t, id)
                     && forall u :: u in s.ops && IsLoop(s.ops[u]) && s.ops[u].key.id == id && u != t ==>
                          LoopHandle(s.ops[u]) in s.cancelled || AboutToCancel(s, LoopHandle(s.ops[u]))
  {
    var run :| Exec(INIT, run) == Some(s);
    RunTends(INIT, run);
    var t :| Tends(s, t, id);
    assert !AboutToCancel(s, LoopHandle(s.ops[t]));
    SingleKeepaliveOwner(s, t);
  }

  // ------------------------------------------------------- calls without interference

  lemma ExecFirst(s: State, run: seq<Step>)
    requires run != [] && Next(s, run[0]).Some?
    ensures Exec(s, run) == Exec(Next(s, run[0]).value, run[1..])
  {
  }

  lemma Steps4(s: State, a: Step, b: Step, c: Step, d: Step)
    requires Next(s, a).Some? && Next(Next(s, a).value, b).Some?
    requires Next(Next(Next(s, a).value, b).value, c).Some?
    ensures Exec(s, [a, b, c, d]) == Next(Next(Next(Next(s, a).value, b).value, c).value, d)
  {
    var s1 := Next(s, a).value;
    var s2 := Next(s1, b).value;
    var s3 := Next(s2, c).value;
    ExecFirst(s, [a, b, c, d]);
    ExecFirst(s1, [b, c, d]);
    ExecFirst(s2, [c, d]);
    if Next(s3, d).Some? {
      ExecFirst(s3, [d]);
    }
    assert [a, b, c, d][1..] == [b, c, d] && [b, c, d][1..] == [c, d] && [c, d][1..] == [d] && [d][1..] == [];
  }

  /** An interrupted loop has been granted a lease and has put its key under it. */
  function Reput(s: State, t: OpId, lease: LeaseId): State
    requires t in s.ops && s.ops[t].KeepingAlive?
  {
    var op := s.ops[t];
    Continue(s.(store := Store(s.store.live + {lease}, s.store.keys[op.key := lease]), minted := s.minted[lease := op.key]),
             t, Locking(op.key, op.caller, lease))
  }

  lemma RenewalSteps(s: State, t: OpId, lease: LeaseId)
    requires t in s.ops && s.ops[t].KeepingAlive? && s.ops[t].caller.Renewing?
    requires s.ops[t].caller.handle !in s.cancelled && lease != 0 && lease !in s.minted
    ensures Exec(s, [Interrupt(t), Grant(t, lease, true, true), Put(t, true, true), Lock(t)])
         == LockStep(Reput(s, t, lease), t)
  {
    var s1 := Next(s, Interrupt(t)).value;
    var s2 := Next(s1, Grant(t, lease, true, true)).value;
    assert Next(s2, Put(t, true, true)).value.ops == Reput(s, t, lease).ops;
    Steps4(s, Interrupt(t), Grant(t, lease, true, true), Put(t, true, true), Lock(t));
  }

  /**
   The loop of an entry re-registers: when its keepalive is interrupted, whatever became
   of its lease, the next grant and Put that succeed give the entry a new lease and a key.
   */
  lemma LoopRenews(s: State, t: OpId, lease: LeaseId)
    requires Reachable(s) && t in s.ops && s.ops[t].KeepingAlive? && Tends(s, t, s.ops[t].key.id)
    requires lease != 0 && lease !in s.minted
    ensures var key := s.ops[t].key;
            var r := Exec(s, [Interrupt(t), Grant(t, lease, true, true), Put(t, true, true), Lock(t)]);
            && r.Some? && Find(r.value.table.leases, key.id) == Some(lease)
            && r.value.table.cancels == s.table.cancels && Find(r.value.store.keys, key) == Some(lease)
            && Tends(r.value, t, key.id) && r.value.ops[t].KeepingAlive?
  {
    EntryKeepsLoop(s, s.ops[t].key.id);
    assert s.ops[t].caller.handle !in s.cancelled;
    RenewalSteps(s, t, lease);
  }

  /** A Register that is not disturbed puts the key and enters its lease, and holds the displaced one to revoke it. */
  lemma RegisterEnters(s: State, t: OpId, key: Key, lease: LeaseId)
    requires Reachable(s) && t !in s.ops && lease != 0 && lease !in s.minted
    ensures var r := Exec(s, [Begin(t, Granting(key, Registering)), Grant(t, lease, true, true), Put(t, true, true), Lock(t)]);
            && r.Some? && Find(r.value.table.leases, key.id) == Some(lease) && Find(r.value.store.keys, key) == Some(lease)
            && r.value.ops == s.ops[t := CancellingOld(key, lease, Find(s.table.cancels, key.id), LeaseOf(s.table, key.id))]
  {
    var begin := Begin(t, Granting(key, Registering));
    Steps4(s, begin, Grant(t, lease, true, true), Put(t, true, true), Lock(t));
    assert Exec(s, [begin, Grant(t, lease, true, true), Put(t, true, true), Lock(t)]).value.ops
        == s.ops[t := CancellingOld(key, lease, Find(s.table.cancels, key.id), LeaseOf(s.table, key.id))];
  }

  lemma RemovalSteps(s: State, t: OpId, key: Key)
    requires t !in s.ops && key.id in s.table.leases && s.table.leases[key.id] != 0
    ensures Exec(s, [Begin(t, Taking(key)), Lock(t), Delete(t, true), Revoke(t, s.table.leases[key.id], true)])
         == Some(s.(table := Removed(s.table, key.id),
                    cancelled := s.cancelled + (if key.id in s.table.cancels then {s.table.cancels[key.id]} else {}),
                    store := WithoutLease(s.store.(keys := s.store.keys - {key}), s.table.leases[key.id])))
  {
    var revoke := Revoke(t, s.table.leases[key.id], true);
    var s1 := Next(s, Begin(t, Taking(key))).value;
    var s2 := Next(s1, Lock(t)).value;
    var s3 := Next(s2, Delete(t, true)).value;
    assert Next(s3, revoke).value.ops == s.ops;
    Steps4(s, Begin(t, Taking(key)), Lock(t), Delete(t, true), revoke);
  }

  /** A Deregister that is not disturbed leaves neither entry nor key nor lease, and has cancelled the loop. */
  lemma DeregisterRemoves(s: State, t: OpId, key: Key)
    requires Reachable(s) && t !in s.ops && key.id in s.table.leases
    ensures var lease := s.table.leases[key.id];
            var r := Exec(s, [Begin(t, Taking(key)), Lock(t), Delete(t, true), Revoke(t, lease, true)]);
            && r.Some? && r.value.table == Removed(s.table, key.id) && r.value.ops == s.ops
            && key !in r.value.store.keys && lease !in r.value.store.live
            && key.id in s.table.cancels && s.table.cancels[key.id] in r.value.cancelled
  {
    ReachableInv(s);
    RemovalSteps(s, t, key);
  }

  /** Close empties the table, cancels every entry's loop and has every recorded lease to revoke; without any it is done. */
  lemma CloseEmpties(s: State, t: OpId)
    requires Reachable(s) && t in s.ops && s.ops[t].Closing?
    ensures LockStep(s, t).Some?
    ensures var r := LockStep(s, t).value;
            && r.table == Table(map[], map[])
            && (forall id :: id in s.table.leases ==> id in s.table.cancels && s.table.cancels[id] in r.cancelled)
            && (if s.table.leases == map[] then t !in r.ops
                else t in r.ops && r.ops[t].RevokingAll?
                     && forall lease :: lease in r.ops[t].leases <==> exists id :: Find(s.table.leases, id) == Some(lease))
  {
    ReachableInv(s);
    if s.table.leases != map[] {
      var id :| id in s.table.leases;
      assert s.table.leases[id] in s.table.leases.Values;
    }
    forall lease | lease in s.table.leases.Values ensures exists id :: Find(s.table.leases, id) == Some(lease) {
      var id :| id in s.table.leases && s.table.leases[id] == lease;
      assert Find(s.table.leases, id) == Some(lease);
    }
  }

  /** A Close is over with the last revocation, effective or not, and a cancelled loop that waits can end. */
  lemma OperationsEnd(s: State, t: OpId, lease: LeaseId, applied: bool)
    requires t in s.ops
    ensures s.ops[t] == RevokingAll({lease}) ==> RevokeStep(s, t, lease, applied).Some? && t !in RevokeStep(s, t, lease, applied).value.ops
    ensures IsLoop(s.ops[t]) && (s.ops[t].KeepingAlive? || s.ops[t].Granting?) && LoopHandle(s.ops[t]) in s.cancelled ==>
              Next(s, Exit(t)) == Some(Finish(s, t))
  {
  }
}
