/**
 When an entry of the lease table has its key.  The converse of "no ghost registration"
 is false; this module says, for every run, exactly when it holds.
 */
module EtcdEntries {
  import opened Options
  import opened EtcdLeases

  /** The history of a lease: its Put has not taken effect, it holds its key, or a later write took the key. */
  datatype Seat = Unput | Seated | Unseated

  /** The step is the Put of `lease` taking effect. */
  predicate Seats(s: State, step: Step, lease: LeaseId) {
    step.Put? && step.applied && step.t in s.ops && s.ops[step.t].Putting? && s.ops[step.t].lease == lease
  }

  /** The step is a Delete of `key`, or a Put of another lease under it, taking effect. */
  predicate Overwrites(s: State, step: Step, key: Key, lease: LeaseId) {
    match step
    case Delete(t, applied) => applied && t in s.ops && s.ops[t].Deleting? && s.ops[t].key == key
    case Put(t, applied, _) =>
      applied && t in s.ops && s.ops[t].Putting? && s.ops[t].key == key && s.ops[t].lease != lease
    case _ => false
  }

  function SeatAfter(s: State, step: Step, lease: LeaseId, seat: Seat): Seat {
    if Seats(s, step, lease) then Seated
    else if seat == Seated && lease in s.minted && Overwrites(s, step, s.minted[lease], lease) then Unseated
    else seat
  }

  /** The history of `lease` over a run from `s`, given what it was at `s`. */
  function SeatOf(s: State, run: seq<Step>, lease: LeaseId, seat: Seat): Seat
    decreases |run|
  {
    if run == [] || Next(s, run[0]).None? then seat
    else SeatOf(Next(s, run[0]).value, run[1..], lease, SeatAfter(s, run[0], lease, seat))
  }

  /** No step of the run deletes `key` or puts another lease under it. */
  ghost predicate Untouched(s: State, run: seq<Step>, key: Key, lease: LeaseId)
    decreases |run|
  {
    run != [] && Next(s, run[0]).Some? ==>
      !Overwrites(s, run[0], key, lease) && Untouched(Next(s, run[0]).value, run[1..], key, lease)
  }

  ghost predicate NotPutting(s: State, lease: LeaseId) {
    forall t :: t in s.ops && s.ops[t].Putting? ==> s.ops[t].lease != lease
  }

  ghost predicate NotLocking(s: State, lease: LeaseId) {
    forall t :: t in s.ops && s.ops[t].Locking? ==> s.ops[t].lease != lease
  }

  ghost predicate SeatOk(s: State, lease: LeaseId, seat: Seat) {
    match seat
    case Unput => lease !in s.published && lease !in s.store.keys.Values && NotLocking(s, lease)
    case Seated =>
      && lease in s.minted && NotPutting(s, lease)
      && (lease in s.store.live ==> Find(s.store.keys, s.minted[lease]) == Some(lease))
    case Unseated =>
      && lease in s.minted && NotPutting(s, lease) && Find(s.store.keys, s.minted[lease]) != Some(lease)
  }

  lemma PutSeats(s: State, step: Step, lease: LeaseId, seat: Seat)
    requires Inv(s) && step.Put? && Next(s, step).Some? && SeatOk(s, lease, seat)
    ensures SeatOk(Next(s, step).value, lease, SeatAfter(s, step, lease, seat))
  {
    assert OpOk(s, s.ops[step.t]);
    forall u | u in s.ops && u != step.t && s.ops[u].Putting? ensures s.ops[u].lease != s.ops[step.t].lease {
      assert Apart(s.ops[u], s.ops[step.t]);
    }
  }

  lemma GrantSeats(s: State, step: Step, lease: LeaseId, seat: Seat)
    requires Inv(s) && step.Grant? && Next(s, step).Some? && SeatOk(s, lease, seat)
    ensures SeatOk(Next(s, step).value, lease, SeatAfter(s, step, lease, seat))
  {
  }

  /** No new key, a key lost only with its lease, no new Put, and only leases waiting for the mutex are published. */
  ghost predicate OnlyLoses(s: State, r: State) {
    && r.minted == s.minted && r.store.live <= s.store.live
    && (forall k :: k in r.store.keys ==> k in s.store.keys && r.store.keys[k] == s.store.keys[k])
    && (forall k :: k in s.store.keys && s.store.keys[k] in r.store.live ==> k in r.store.keys)
    && (forall t :: t in r.ops && (r.ops[t].Putting? || r.ops[t].Locking?) ==> t in s.ops && r.ops[t] == s.ops[t])
    && (forall lease :: lease in r.published ==> lease in s.published || !NotLocking(s, lease))
  }

  lemma LosesSeats(s: State, r: State, lease: LeaseId, seat: Seat)
    requires SeatOk(s, lease, seat) && OnlyLoses(s, r)
    ensures SeatOk(r, lease, seat)
  {
  }

  lemma WithoutLoses(s: State, lease: LeaseId)
    ensures OnlyLoses(s, s.(store := WithoutLease(s.store, lease)))
  {
  }

  lemma RevokeLoses(s: State, step: Step)
    requires step.Revoke? && Next(s, step).Some?
    ensures OnlyLoses(s, Next(s, step).value)
  {
    WithoutLoses(s, step.lease);
  }

  lemma LockLoses(s: State, t: OpId)
    requires LockStep(s, t).Some?
    ensures OnlyLoses(s, LockStep(s, t).value)
  {
  }

  lemma DeleteSeats(s: State, step: Step, lease: LeaseId, seat: Seat)
    requires Inv(s) && step.Delete? && Next(s, step).Some? && SeatOk(s, lease, seat)
    ensures SeatOk(Next(s, step).value, lease, SeatAfter(s, step, lease, seat))
  {
  }

  lemma OtherLoses(s: State, step: Step)
    requires !step.Put? && !step.Grant? && !step.Delete? && Next(s, step).Some?
    ensures OnlyLoses(s, Next(s, step).value)
  {
    match step
    case Lock(t) => LockLoses(s, t);
    case Revoke(_, _, _) => RevokeLoses(s, step);
    case Expire(lease) => WithoutLoses(s, lease);
    case _ =>
  }

  lemma StepSeats(s: State, step: Step, lease: LeaseId, seat: Seat)
    requires Inv(s) && Next(s, step).Some? && SeatOk(s, lease, seat)
    ensures SeatOk(Next(s, step).value, lease, SeatAfter(s, step, lease, seat))
  {
    match step
    case Put(_, _, _) => PutSeats(s, step, lease, seat);
    case Grant(_, _, _, _) => GrantSeats(s, step, lease, seat);
    case Delete(_, _) => DeleteSeats(s, step, lease, seat);
    case _ =>
      OtherLoses(s, step);
      LosesSeats(s, Next(s, step).value, lease, seat);
  }

  lemma {:induction false} RunSeats(s: State, run: seq<Step>, lease: LeaseId, seat: Seat)
    requires Inv(s) && Exec(s, run).Some? && SeatOk(s, lease, seat)
    ensures SeatOk(Exec(s, run).value, lease, SeatOf(s, run, lease, seat))
    decreases |run|
  {
    if run != [] {
      StepSeats(s, run[0], lease, seat);
      StepKeeps(s, run[0]);
      RunSeats(Next(s, run[0]).value, run[1..], lease, SeatAfter(s, run[0], lease, seat));
    }
  }

  /**
   In every run, a table entry has its key if and only if its lease is alive and no
   Delete of the key, and no Put of another lease under it, took effect after its own Put.
   */
  lemma EntryHasKey(run: seq<Step>, id: InstanceId)
    requires Exec(INIT, run).Some? && id in Exec(INIT, run).value.table.leases
    ensures var s := Exec(INIT, run).value;
            var lease := s.table.leases[id];
            && lease in s.minted && s.minted[lease].id == id
            && (Find(s.store.keys, s.minted[lease]) == Some(lease)
                <==> lease in s.store.live && SeatOf(INIT, run, lease, Unput) == Seated)
  {
    var s := Exec(INIT, run).value;
    RunKeeps(INIT, run);
    RunSeats(INIT, run, s.table.leases[id], Unput);
  }

  lemma {:induction false} UntouchedSeat(s: State, run: seq<Step>, key: Key, lease: LeaseId)
    requires Inv(s) && Exec(s, run).Some? && lease in s.minted && s.minted[lease] == key && Untouched(s, run, key, lease)
    ensures SeatOf(s, run, lease, Seated) == Seated
    decreases |run|
  {
    if run != [] {
      StepKeeps(s, run[0]);
      MintedStays(s, run[0], lease);
      UntouchedSeat(Next(s, run[0]).value, run[1..], key, lease);
    }
  }

  lemma MintedStays(s: State, step: Step, lease: LeaseId)
    requires lease in s.minted && Next(s, step).Some?
    ensures lease in Next(s, step).value.minted && Next(s, step).value.minted[lease] == s.minted[lease]
  {
  }

  /**
   What a caller can rely on: a key put under a lease is still there, attached to it, as
   long as the lease lives and nobody deletes the key or puts it again.
   */
  lemma PutKeyStays(s: State, put: Step, run: seq<Step>)
    requires Reachable(s) && put.Put? && put.applied && Next(s, put).Some?
    requires var r := Next(s, put).value;
             var op := s.ops[put.t];
             Exec(r, run).Some? && Untouched(r, run, op.key, op.lease) && op.lease in Exec(r, run).value.store.live
    ensures Find(Exec(Next(s, put).value, run).value.store.keys, s.ops[put.t].key) == Some(s.ops[put.t].lease)
  {
    ReachableInv(s);
    StepKeeps(s, put);
    var r, op := Next(s, put).value, s.ops[put.t];
    PutSeated(s, put);
    UntouchedSeat(r, run, op.key, op.lease);
    RunSeats(r, run, op.lease, Seated);
    MintedRuns(r, run, op.lease);
  }

  lemma PutSeated(s: State, put: Step)
    requires Inv(s) && put.Put? && put.applied && Next(s, put).Some?
    ensures SeatOk(Next(s, put).value, s.ops[put.t].lease, Seated)
    ensures Next(s, put).value.minted[s.ops[put.t].lease] == s.ops[put.t].key
  {
    assert OpOk(s, s.ops[put.t]);
    forall u | u in s.ops && u != put.t && s.ops[u].Putting? ensures s.ops[u].lease != s.ops[put.t].lease {
      assert Apart(s.ops[u], s.ops[put.t]);
    }
  }

  lemma {:induction false} MintedRuns(s: State, run: seq<Step>, lease: LeaseId)
    requires lease in s.minted && Exec(s, run).Some?
    ensures lease in Exec(s, run).value.minted && Exec(s, run).value.minted[lease] == s.minted[lease]
    decreases |run|
  {
    if run != [] {
      MintedStays(s, run[0], lease);
      MintedRuns(Next(s, run[0]).value, run[1..], lease);
    }
  }
}
