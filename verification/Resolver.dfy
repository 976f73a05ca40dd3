/**
 The client-side resolver: a cached instance list and an atomic uint64 ticket counter
 that many goroutines advance.  A call copies the list under the read lock and takes
 its ticket later, so copies, tickets and list replacements interleave freely.
 */
module Resolver {
  import opened Services

  const U64 := 0x1_0000_0000_0000_0000
  const I64: int := 0x8000_0000_0000_0000

  type UInt64 = n: nat | n < U64

  /** int(uint64): the upper half becomes negative. */
  function Signed(ticket: UInt64): int {
    if ticket < I64 then ticket else ticket - U64
  }

  /** Go's `%` truncates toward zero. */
  function Rem(a: int, n: nat): int
    requires n > 0
  {
    if a >= 0 then a % n else -((-a) % n)
  }

  function Index(ticket: UInt64, n: nat): int
    requires n > 0
  {
    Rem(Signed(ticket), n)
  }

  lemma TicketTaken(next: UInt64)
    ensures ((next + 1) % U64 + U64 - 1) % U64 == next
  {
  }

  datatype Resolved = NoInstances | IndexOutOfRange | Instance(svc: Service)

  class Resolver {
    var services: seq<Service>
    var next: UInt64

    constructor ()
      ensures services == [] && next == 0
    {
      services, next := [], 0;
    }

    method Replace(snapshot: seq<Service>)
      modifies this`services
      ensures services == snapshot
    {
      services := snapshot;
    }

    /** Round robin.  An empty list takes no ticket; an index out of range is a run-time panic. */
    method Resolve() returns (r: Resolved)
      modifies this`next
      ensures services == [] ==> r == NoInstances && next == old(next)
      ensures services != [] ==> next == (old(next) + 1) % U64
      ensures services != [] ==>
                var i := Index(old(next), |services|);
                r == if 0 <= i < |services| then Instance(services[i]) else IndexOutOfRange
    {
      var copied := services;
      if |copied| == 0 {
        return NoInstances;
      }
      TicketTaken(next);
      next := (next + 1) % U64;
      var i := Index((next + U64 - 1) % U64, |copied|);
      if 0 <= i < |copied| {
        return Instance(copied[i]);
      }
      return IndexOutOfRange;
    }
  }

  /**
   The index is in range exactly for tickets below 2^63 and for those whose negative
   value the list length divides; any other ticket of the upper half panics.
   */
  lemma IndexInRange(ticket: UInt64, n: nat)
    requires n > 0
    ensures 0 <= Index(ticket, n) < n <==> ticket < I64 || (U64 - ticket) % n == 0
  {
  }

  // ------------------------------------------------------------- interleaved calls

  type CallId = nat

  /** `copies`: lists held by calls that have not taken their ticket; `picked`: indices chosen so far. */
  datatype System = System(services: seq<Service>, next: UInt64, copies: map<CallId, seq<Service>>, picked: seq<int>)

  datatype Step = Copy(call: CallId) | Take(call: CallId) | Install(services: seq<Service>)

  function Next(s: System, step: Step): System {
    match step
    case Install(services) => s.(services := services)
    case Copy(call) => if s.services == [] then s else s.(copies := s.copies[call := s.services])
    case Take(call) =>
      if call !in s.copies || s.copies[call] == [] then s
      else System(s.services, (s.next + 1) % U64, s.copies - {call}, s.picked + [Index(s.next, |s.copies[call]|)])
  }

  function Exec(s: System, run: seq<Step>): System {
    if run == [] then s else Next(Exec(s, run[..|run| - 1]), run[|run| - 1])
  }

  function Times(picked: seq<int>, i: int): nat {
    if picked == [] then 0
    else Times(picked[..|picked| - 1], i) + (if picked[|picked| - 1] == i then 1 else 0)
  }

  lemma TimesNext(picked: seq<int>, index: int, i: int)
    ensures Times(picked + [index], i) == Times(picked, i) + (if index == i then 1 else 0)
  {
  }

  /** How many of the tickets below `t` select index `i` among `n`. */
  function Below(t: nat, n: nat, i: nat): int
    requires i < n
  {
    (t + n - 1 - i) / n
  }

  lemma {:induction false} Steps(n: int, k: int, q: int)
    requires n > 0 && k < q
    ensures n * k + n <= n * q
    decreases q - k
  {
    if k + 1 < q {
      Steps(n, k, q - 1);
    }
  }

  lemma SameQuotient(n: int, k: int, q: int, r: int)
    requires n > 0 && 0 <= r < n && n * q <= n * k + r < n * q + n
    ensures k == q
  {
    if k < q {
      Steps(n, k, q);
    } else if q < k {
      Steps(n, q, k);
    }
  }

  lemma DivIs(a: int, n: int, q: int)
    requires n > 0 && n * q <= a < n * q + n
    ensures a / n == q
  {
    SameQuotient(n, a / n, q, a % n);
  }

  lemma BelowNext(t: nat, n: nat, i: nat)
    requires i < n
    ensures Below(t + 1, n, i) == Below(t, n, i) + (if t % n == i then 1 else 0)
  {
    var q, r := t / n, t % n;
    assert t == n * q + r;
    if r < i {
      DivIs(t + n - 1 - i, n, q);
      DivIs(t + n - i, n, q);
    } else if r == i {
      DivIs(t + n - 1 - i, n, q);
      assert n * (q + 1) == n * q + n;
      DivIs(t + n - i, n, q + 1);
    } else {
      assert n * (q + 1) == n * q + n;
      DivIs(t + n - 1 - i, n, q + 1);
      DivIs(t + n - i, n, q + 1);
    }
  }

  /** A quotient grows over `m` steps by m/n, rounded down or up. */
  lemma QuotientGrowth(a: nat, m: nat, n: nat)
    requires n > 0
    ensures m / n <= (a + m) / n - a / n <= (m + n - 1) / n
  {
    GrowthOf(a / n, a % n, m / n, m % n, n, a, m);
  }

  lemma GrowthOf(q: nat, r: nat, p: nat, u: nat, n: nat, a: nat, m: nat)
    requires r < n && u < n && a == n * q + r && m == n * p + u
    ensures p <= (a + m) / n - q <= (m + n - 1) / n
  {
    Distribute(n, q, p);
    DivIs(a + m, n, if r + u < n then q + p else q + p + 1);
    DivIs(m + n - 1, n, if u == 0 then p else p + 1);
  }

  lemma Distribute(n: nat, q: nat, p: nat)
    ensures n * (q + p) == n * q + n * p
    ensures n * (p + 1) == n * p + n && n * (q + p + 1) == n * q + n * p + n
  {
  }

  /** Calls that have not taken their ticket hold the current list. */
  ghost predicate UpToDate(s: System) {
    forall c :: c in s.copies ==> s.copies[c] == s.services
  }

  ghost predicate Unchanged(run: seq<Step>) {
    forall k :: 0 <= k < |run| ==> !run[k].Install?
  }

  /** Every copy is the one list, and each index was picked as often as the tickets from `first` on select it. */
  ghost predicate Counted(s: System, services: seq<Service>, first: nat, i: nat)
    requires i < |services|
  {
    && s.services == services && (forall c :: c in s.copies ==> s.copies[c] == services)
    && s.next == first + |s.picked|
    && Times(s.picked, i) == Below(s.next, |services|, i) - Below(first, |services|, i)
  }

  lemma TakeCounted(s: System, call: CallId, first: nat, i: nat)
    requires i < |s.services| && Counted(s, s.services, first, i) && s.next < I64
    ensures Counted(Next(s, Take(call)), s.services, first, i)
  {
    if call in s.copies {
      TimesNext(s.picked, Index(s.next, |s.services|), i);
      BelowNext(s.next, |s.services|, i);
    }
  }

  lemma {:induction false} PicksCounted(s: System, run: seq<Step>, i: nat)
    requires s.picked == [] && i < |s.services| && Unchanged(run) && UpToDate(s)
    requires s.next + |run| <= I64
    ensures Counted(Exec(s, run), s.services, s.next, i) && |Exec(s, run).picked| <= |run|
  {
    if run != [] {
      var before := run[..|run| - 1];
      assert Unchanged(before);
      PicksCounted(s, before, i);
      var step := run[|run| - 1];
      assert !step.Install?;
      if step.Take? {
        TakeCounted(Exec(s, before), step.call, s.next, i);
      }
    }
  }

  /**
   Round-robin fairness.  However the calls interleave, as long as the list of n
   instances does not change and the counter stays below 2^63, of the m tickets taken
   every instance gets m/n, rounded down or up.
   */
  lemma RoundRobinIsFair(s: System, run: seq<Step>, i: nat)
    requires s.picked == [] && i < |s.services| && Unchanged(run) && UpToDate(s)
    requires s.next + |run| <= I64
    ensures var m, n := |Exec(s, run).picked|, |s.services|;
            m / n <= Times(Exec(s, run).picked, i) <= (m + n - 1) / n
  {
    PicksCounted(s, run, i);
    var m, n := |Exec(s, run).picked|, |s.services|;
    QuotientGrowth(s.next + n - 1 - i, m, n);
  }

  lemma {:induction false} NoPanicBelow(s: System, run: seq<Step>, k: nat)
    requires s.picked == [] && s.services != [] && Unchanged(run) && UpToDate(s)
    requires s.next + |run| <= I64 && k < |Exec(s, run).picked|
    ensures 0 <= Exec(s, run).picked[k] < |s.services|
  {
    if run != [] {
      var before := run[..|run| - 1];
      assert Unchanged(before);
      PicksCounted(s, before, 0);
      assert !run[|run| - 1].Install?;
      if k < |Exec(s, before).picked| {
        NoPanicBelow(s, before, k);
      }
    }
  }

  lemma ExecNext(s: System, run: seq<Step>, step: Step)
    ensures Exec(s, run + [step]) == Next(Exec(s, run), step)
  {
    assert (run + [step])[..|run|] == run;
  }

  /** A call that is not overtaken picks with the next ticket from the list it found, as Resolve does; without instances it takes none. */
  lemma CallPicks(s: System, call: CallId)
    ensures var r := Exec(s, [Copy(call), Take(call)]);
            && (s.services != [] ==> r.picked == s.picked + [Index(s.next, |s.services|)] && r.next == (s.next + 1) % U64)
            && (s.services == [] && call !in s.copies ==> r == s)
  {
    ExecNext(s, [], Copy(call));
    ExecNext(s, [Copy(call)], Take(call));
    assert [] + [Copy(call)] == [Copy(call)] && [Copy(call)] + [Take(call)] == [Copy(call), Take(call)];
  }

  /** A copied list is picked from however the list has changed since. */
  lemma CopyIsPicked(s: System, call: CallId)
    requires call in s.copies && s.copies[call] != []
    ensures Next(s, Take(call)).picked == s.picked + [Index(s.next, |s.copies[call]|)]
    ensures call !in Next(s, Take(call)).copies
  {
  }
}
