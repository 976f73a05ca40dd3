/**
 The lock-free generator of migration versions: any number of goroutines read the
 clock and race on one atomic int64 with compare-and-swap.  Loads, swaps and clock
 readings of different calls interleave freely, and the clock may run backwards.
 */
module Versions {
  const MAX: int := 0x7FFF_FFFF_FFFF_FFFF

  type CallId = nat

  /** `floor` is the shared value when the call began: a history variable. */
  datatype Call = Loading(candidate: int, floor: int) | Swapping(candidate: int, previous: int, floor: int)

  datatype Done = Done(version: int, floor: int)

  datatype State = State(last: int, calls: map<CallId, Call>, done: map<CallId, Done>, minted: seq<int>)

  const INIT := State(0, map[], map[], [])

  datatype Step = Begin(call: CallId, clock: int) | Load(call: CallId) | Swap(call: CallId)

  /** int64 addition wraps. */
  function Successor(n: int): int {
    if n == MAX then -MAX - 1 else n + 1
  }

  /** The loop body before the compare-and-swap. */
  function Raised(candidate: int, previous: int): int {
    if candidate <= previous then Successor(previous) else candidate
  }

  function Next(s: State, step: Step): State {
    match step
    case Begin(c, clock) =>
      if c in s.calls || c in s.done then s else s.(calls := s.calls[c := Loading(clock, s.last)])
    case Load(c) =>
      if c !in s.calls || !s.calls[c].Loading? then s
      else s.(calls := s.calls[c := Swapping(Raised(s.calls[c].candidate, s.last), s.last, s.calls[c].floor)])
    case Swap(c) =>
      if c !in s.calls || !s.calls[c].Swapping? then s
      else
        var call := s.calls[c];
        if s.last == call.previous
        then State(call.candidate, s.calls - {c}, s.done[c := Done(call.candidate, call.floor)], s.minted + [call.candidate])
        else s.(calls := s.calls[c := Loading(call.candidate, call.floor)])
  }

  function Exec(s: State, run: seq<Step>): State {
    if run == [] then s else Next(Exec(s, run[..|run| - 1]), run[|run| - 1])
  }

  /** The shared value is below the largest int64 whenever a call loads it. */
  ghost predicate HasRoom(s: State, run: seq<Step>) {
    forall k :: 0 <= k < |run| && run[k].Load? ==> Exec(s, run[..k]).last < MAX
  }

  /**
   What one call returns: `stores` are the values the shared one has at each of its
   swaps, after its load saw `last`.  A swap succeeds when the value is the loaded one.
   */
  function Minted(candidate: int, last: int, stores: seq<int>): int
    decreases |stores|
  {
    var raised := Raised(candidate, last);
    if stores == [] || stores[0] == last then raised else Minted(raised, stores[0], stores[1..])
  }

  class Generator {
    var last: int

    /** The loop of one call; other goroutines may store a value between each load and the swap that follows it. */
    method NextVersion(clock: int, stores: seq<int>) returns (version: int)
      modifies this
      ensures last == version == Minted(clock, old(last), stores)
    {
      version := clock;
      var i := 0;
      while true
        invariant 0 <= i <= |stores|
        invariant Minted(version, last, stores[i..]) == Minted(clock, old(last), stores)
        decreases |stores| - i
      {
        var previous := last;
        if version <= previous {
          version := Successor(previous);
        }
        if i < |stores| {
          last := stores[i];
          assert stores[i..][1..] == stores[i + 1..];
          i := i + 1;
        }
        if last == previous {
          last := version;
          return;
        }
      }
    }
  }

  /**
   Against any increasing values of other goroutines, the version is not below the clock
   reading, above every value the call saw, and no higher than that takes.
   */
  lemma {:induction false} MintedAboveAll(candidate: int, last: int, stores: seq<int>)
    requires last < MAX && forall i :: 0 <= i < |stores| ==> last < stores[i] < MAX
    requires forall i, j :: 0 <= i < j < |stores| ==> stores[i] < stores[j]
    ensures var version := Minted(candidate, last, stores);
            && version >= candidate && version > last && (forall i :: 0 <= i < |stores| ==> version > stores[i])
            && (version == candidate || version - 1 == last || version - 1 in stores)
    decreases |stores|
  {
    if stores != [] {
      MintedAboveAll(Raised(candidate, last), stores[0], stores[1..]);
    }
  }

  ghost predicate Inv(s: State) {
    && (forall i, j :: 0 <= i < j < |s.minted| ==> s.minted[i] < s.minted[j])
    && (s.minted != [] ==> s.last == s.minted[|s.minted| - 1])
    && (forall c :: c in s.calls ==> c !in s.done && s.calls[c].floor <= s.last)
    && (forall c :: c in s.calls && s.calls[c].Swapping? ==>
          s.calls[c].floor <= s.calls[c].previous < s.calls[c].candidate)
    && (forall c :: c in s.done ==> s.done[c].floor < s.done[c].version <= s.last)
    && (forall c, d :: c in s.done && d in s.done && c != d ==> s.done[c].version != s.done[d].version)
    && (forall c :: c in s.done ==> s.done[c].version in s.minted)
  }

  lemma SwapMints(s: State, c: CallId)
    requires Inv(s) && c in s.calls && s.calls[c].Swapping? && s.last == s.calls[c].previous
    ensures var r := Next(s, Swap(c));
            && s.last < r.last == s.calls[c].candidate && r.minted == s.minted + [r.last] && r.minted[|s.minted|] == r.last
            && r.done == s.done[c := Done(r.last, s.calls[c].floor)] && r.calls == s.calls - {c}
  {
  }

  lemma SwapKeeps(s: State, c: CallId)
    requires Inv(s) && c in s.calls && s.calls[c].Swapping? && s.last == s.calls[c].previous
    ensures Inv(Next(s, Swap(c))) && s.last < Next(s, Swap(c)).last && s.minted <= Next(s, Swap(c)).minted
  {
    SwapMints(s, c);
    var r := Next(s, Swap(c));
    forall d | d in s.done ensures s.done[d].version < r.last && s.done[d].version in r.minted {
      assert s.done[d].version in s.minted;
    }
  }

  lemma StepKeeps(s: State, step: Step)
    requires Inv(s) && (step.Load? ==> s.last < MAX)
    ensures Inv(Next(s, step)) && s.last <= Next(s, step).last
    ensures s.minted <= Next(s, step).minted
  {
    if step.Swap? && step.call in s.calls && s.calls[step.call].Swapping? && s.last == s.calls[step.call].previous {
      SwapKeeps(s, step.call);
    }
  }

  lemma {:induction false} RunKeeps(s: State, run: seq<Step>)
    requires Inv(s) && HasRoom(s, run)
    ensures Inv(Exec(s, run)) && s.last <= Exec(s, run).last && s.minted <= Exec(s, run).minted
  {
    if run != [] {
      RoomBefore(s, run);
      RunKeeps(s, run[..|run| - 1]);
      StepKeeps(Exec(s, run[..|run| - 1]), run[|run| - 1]);
    }
  }

  lemma RoomBefore(s: State, run: seq<Step>)
    requires run != [] && HasRoom(s, run)
    ensures HasRoom(s, run[..|run| - 1])
    ensures run[|run| - 1].Load? ==> Exec(s, run[..|run| - 1]).last < MAX
  {
    forall k | 0 <= k < |run| - 1 && run[k].Load? ensures Exec(s, run[..|run| - 1][..k]).last < MAX {
      assert run[..|run| - 1][..k] == run[..k];
    }
  }

  /**
   Versions returned by any number of concurrent calls are pairwise distinct, and the
   order of the successful swaps is the increasing order of versions.
   */
  lemma VersionsDistinct(run: seq<Step>, a: CallId, b: CallId)
    requires HasRoom(INIT, run) && a in Exec(INIT, run).done && b in Exec(INIT, run).done && a != b
    ensures Exec(INIT, run).done[a].version != Exec(INIT, run).done[b].version
    ensures forall i, j :: 0 <= i < j < |Exec(INIT, run).minted| ==> Exec(INIT, run).minted[i] < Exec(INIT, run).minted[j]
    ensures Exec(INIT, run).done[a].version in Exec(INIT, run).minted
  {
    RunKeeps(INIT, run);
  }

  /** Call `c` began no earlier than when the shared value was `v`. */
  ghost predicate BeganAfter(s: State, c: CallId, v: int) {
    && s.last >= v
    && (c in s.calls ==> s.calls[c].floor >= v)
    && (c in s.done ==> s.done[c].floor >= v)
  }

  lemma StepStaysAfter(s: State, step: Step, c: CallId, v: int)
    requires Inv(s) && s.last <= Next(s, step).last && BeganAfter(s, c, v)
    ensures BeganAfter(Next(s, step), c, v)
  {
  }

  lemma {:induction false} StaysAfter(s: State, run: seq<Step>, c: CallId, v: int)
    requires Inv(s) && HasRoom(s, run) && BeganAfter(s, c, v)
    ensures BeganAfter(Exec(s, run), c, v)
  {
    if run != [] {
      RoomBefore(s, run);
      StaysAfter(s, run[..|run| - 1], c, v);
      RunKeeps(s, run[..|run| - 1]);
      StepKeeps(Exec(s, run[..|run| - 1]), run[|run| - 1]);
      StepStaysAfter(Exec(s, run[..|run| - 1]), run[|run| - 1], c, v);
    }
  }

  lemma {:induction false} DoneStays(s: State, run: seq<Step>, c: CallId)
    requires Inv(s) && HasRoom(s, run) && c in s.done
    ensures c in Exec(s, run).done && Exec(s, run).done[c] == s.done[c]
  {
    if run != [] {
      RoomBefore(s, run);
      DoneStays(s, run[..|run| - 1], c);
      RunKeeps(s, run[..|run| - 1]);
    }
  }

  /** A call that begins after another has returned gets the larger version. */
  lemma RealTimeOrder(s: State, run: seq<Step>, a: CallId, b: CallId)
    requires Inv(s) && HasRoom(s, run) && a in s.done && b !in s.calls && b !in s.done
    requires b in Exec(s, run).done
    ensures a in Exec(s, run).done && Exec(s, run).done[b].version > Exec(s, run).done[a].version
  {
    DoneStays(s, run, a);
    StaysAfter(s, run, b, s.done[a].version);
    RunKeeps(s, run);
  }

  /** At the largest int64 the next version wraps to the smallest: there the guarantee ends. */
  lemma WrapsAtMax(candidate: int)
    requires -MAX - 1 <= candidate <= MAX
    ensures Raised(candidate, MAX) == -MAX - 1
    ensures forall previous :: -MAX - 1 <= previous <= MAX ==> (Raised(candidate, previous) > previous <==> previous < MAX)
  {
  }

  /**
   Lock-freedom: in every run, a swap fails only when another call has swapped in a
   larger value since the load; otherwise the call returns its candidate.
   */
  lemma SwapFailsOnlyBehind(run: seq<Step>, c: CallId)
    requires HasRoom(INIT, run) && c in Exec(INIT, run).calls && Exec(INIT, run).calls[c].Swapping?
    ensures var s := Exec(INIT, run);
            var r := Next(s, Swap(c));
            && s.calls[c].previous <= s.last
            && (s.calls[c].previous == s.last ==>
                  && c in r.done && r.done[c].version == s.calls[c].candidate == r.last && c !in r.calls
                  && r.minted == s.minted + [s.calls[c].candidate])
            && (s.calls[c].previous < s.last ==> r.minted == s.minted && c in r.calls && r.calls[c].Loading?)
  {
    RunBehind(run);
  }

  /** What a call has loaded is not above the shared value. */
  ghost predicate Behind(s: State) {
    forall c :: c in s.calls && s.calls[c].Swapping? ==> s.calls[c].previous <= s.last
  }

  lemma {:induction false} RunBehind(run: seq<Step>)
    requires HasRoom(INIT, run)
    ensures Behind(Exec(INIT, run))
  {
    if run != [] {
      RoomBefore(INIT, run);
      RunBehind(run[..|run| - 1]);
      RunKeeps(INIT, run[..|run| - 1]);
      StepKeeps(Exec(INIT, run[..|run| - 1]), run[|run| - 1]);
    }
  }

  lemma ExecNext(s: State, run: seq<Step>, step: Step)
    ensures Exec(s, run + [step]) == Next(Exec(s, run), step)
  {
    assert (run + [step])[..|run|] == run;
  }

  lemma ThreeSteps(s: State, a: Step, b: Step, c: Step)
    ensures Exec(s, [a, b, c]) == Next(Next(Next(s, a), b), c)
  {
    ExecNext(s, [], a);
    ExecNext(s, [a], b);
    ExecNext(s, [a, b], c);
    assert [] + [a] == [a] && [a] + [b] == [a, b] && [a, b] + [c] == [a, b, c];
  }

  /** A call that is not overtaken returns the larger of its clock reading and the shared value's successor. */
  lemma LoneCallReturns(s: State, c: CallId, clock: int)
    requires c !in s.calls && c !in s.done && s.last < MAX
    ensures var r := Exec(s, [Begin(c, clock), Load(c), Swap(c)]);
            && c in r.done && r.done[c].version == (if clock > s.last then clock else s.last + 1)
            && r.last == r.done[c].version && r.calls == s.calls
  {
    ThreeSteps(s, Begin(c, clock), Load(c), Swap(c));
    assert Next(Next(Next(s, Begin(c, clock)), Load(c)), Swap(c)).calls == s.calls;
  }
}
