/**
The five operations of the ring taken one at a time, as functions on a state in
which no operation is under way, and what they promise.
*/
module RingOperations {
  import opened PackedWords
  import opened RingMachine
  import opened RingInvariant
  import opened RingRefinement
  import opened RingRuns
  import RingConsumerSteps
  import Q = ReserveQueue

  // No worker is inside an operation.
  predicate Calm(s: State) {
    forall w | 0 <= w < |s.producers| ::
      s.producers[w].Unregistered? || s.producers[w].Idle? || s.producers[w].Holding?
  }

  // No operation is under way.
  predicate Settled(s: State) {
    Calm(s) && s.consumer.Ready?
  }

  // The steps `acts`, one after the other, lead from s to s'.
  predicate Leads(s: State, acts: seq<Action>, s': State)
    decreases |acts|
  {
    if |acts| == 0 then s == s'
    else FewWraps(s) && Enabled(s, acts[0]) && Leads(Apply(s, acts[0]), acts[1..], s')
  }

  lemma {:induction false} LeadsFurther(s: State, acts: seq<Action>, s': State, a: Action)
    requires Leads(s, acts, s') && FewWraps(s') && Enabled(s', a)
    ensures Leads(s, acts + [a], Apply(s', a))
    decreases |acts|
  {
    if |acts| == 0 {
      assert (acts + [a])[1..] == [];
    } else {
      LeadsFurther(Apply(s, acts[0]), acts[1..], s', a);
      assert (acts + [a])[1..] == acts[1..] + [a];
    }
  }

  lemma {:induction false} LeadsKeepsGood(s: State, acts: seq<Action>, s': State)
    requires Good(s) && Leads(s, acts, s')
    ensures Good(s')
    decreases |acts|
  {
    if |acts| > 0 {
      StepRefines(s, acts[0]);
      LeadsKeepsGood(Apply(s, acts[0]), acts[1..], s');
    }
  }

  lemma CalmUnlocked(s: State)
    requires Inv(s) && Calm(s)
    ensures !s.ring.next.lock && FewWraps(s)
  {
  }

  // Nothing makes the consumer spin.
  predicate Stable(s: State)
    requires Sized(s)
  {
    && !s.ring.next.lock
    && Calm(s)
    && forall w | 0 <= w < |s.seen| :: s.registered[w] ==> !s.seen[w].lock
  }

  lemma CalmStable(s: State)
    requires Inv(s) && Calm(s)
    ensures Stable(s)
  {
    CalmUnlocked(s);
    forall w | 0 <= w < |s.seen| && s.registered[w] ensures !s.seen[w].lock {
      assert WorkerOK(s.ring, w, s.producers[w], s.seen[w], s.registered[w]);
    }
  }

  /* -------------------------------- acquire ------------------------------- */

  // The offset returned, or -1.
  function AcquireResult(g: Ring, len: nat): int {
    match Decide(g.space, g.next, len, g.written)
    case Wait => -1
    case Move(target) => if target.lock then 0 else g.next.off
  }

  function AfterAcquire(s: State, w: nat, len: nat): State
    requires Sized(s) && w < |s.producers|
  {
    var g := s.ring;
    match Decide(g.space, g.next, len, g.written)
    case Wait => s
    case Move(target) =>
      var g' := Reserved(g, w, Swapping(len, g.next, g.laps, target));
      State(if target.lock then g'.(end := g.next.off, next := target.(lock := false)) else g',
            s.seen[w := Seen(g.next.off, false)], s.registered,
            s.producers[w := Holding(|g.log|)], s.consumer)
  }

  predicate HasRoom(g: Ring, len: nat) {
    var tip := g.next.off + len;
    if g.Behind() then tip < g.written
    else tip < g.space || (tip == g.space && 0 < g.written) || (tip > g.space && len < g.written)
  }

  // Acquire succeeds exactly when there is room: below the consumer, a lap
  // ahead of it; else up to the end of the buffer, or, wrapping, at its start.
  lemma AcquireExact(s: State, len: nat)
    requires Inv(s) && 0 < len <= s.ring.space
    ensures var g := s.ring;
            Decide(g.space, g.next, len, g.written).Move? <==> HasRoom(g, len)
  {
  }

  predicate IsRange(r: Record, w: nat, base: nat, len: nat, phys: int) {
    r.owner == w && r.base == base && r.len == len && !r.done && r.phys == phys
  }

  // The range just acquired is the next one of the stream, sits where acquire
  // said, and carries the requested length.
  lemma AcquireAppends(s: State, w: nat, len: nat)
    requires Inv(s) && Settled(s) && w < |s.producers| && 0 < len <= s.ring.space
    requires AcquireResult(s.ring, len) >= 0
    ensures var g, g' := s.ring, AfterAcquire(s, w, len).ring;
            && |g'.log| == |g.log| + 1 && g'.log[..|g.log|] == g.log
            && IsRange(g'.log[|g.log|], w, g.Tip(), len, AcquireResult(g, len))
            && AcquireResult(g, len) + len <= g.space
            && g'.Released() == g.Released() && g'.written == g.written
  {
    CalmUnlocked(s);
  }

  // What acquire promises: it returns an offset exactly if there is room, and
  // then worker w holds a new range there, the next of the stream; else it
  // returns -1 and nothing changed.
  predicate Acquires(s: State, s': State, w: nat, len: nat, off: int) {
    var g, g', n := s.ring, s'.ring, |s.ring.log|;
    && w < |s.producers|
    && (off >= 0 <==> HasRoom(g, len))
    && (off < 0 ==> off == -1 && s' == s)
    && (off >= 0 ==>
          && |g'.log| == n + 1 && g'.log[..n] == g.log && IsRange(g'.log[n], w, g.Tip(), len, off)
          && s'.producers == s.producers[w := Holding(n)]
          && off == (if g.next.off + len > g.space then 0 else g.next.off) && off + len <= g.space
          && g'.Released() == g.Released() && g'.written == g.written && g'.mem == g.mem)
  }

  lemma AcquireAnswers(s: State, w: nat, len: nat)
    requires Inv(s) && Settled(s) && w < |s.producers| && 0 < len <= s.ring.space
    ensures Acquires(s, AfterAcquire(s, w, len), w, len, AcquireResult(s.ring, len))
  {
    hide Chain, Placed, Pending, Boundary, Workers, Owners, ConsumerOK;
    CalmUnlocked(s);
    AcquireExact(s, len);
    if AcquireResult(s.ring, len) >= 0 {
      AcquireAppends(s, w, len);
    }
  }

  /* -------------------------------- consume ------------------------------- */

  // The stream position of the first range that is not produced.
  function FirstOpen(g: Ring): nat {
    var d := Q.DoneCount(Items(g.log));
    if d < |g.log| then g.log[d].base else g.Tip()
  }

  function LapEnd(g: Ring): nat {
    if g.Behind() then g.cur else g.Tip()
  }

  // The consumer is at the cut and what comes after it is produced.
  predicate CanFollow(g: Ring) {
    g.HasCut() && g.Released() == g.cur && FirstOpen(g) > g.cur
  }

  function Followed(g: Ring): Ring {
    if CanFollow(g) then g.(end := OFF_MAX, written := 0, lag := g.cur) else g
  }

  // The longest committed contiguous run of bytes from the read point.
  function Available(g: Ring): nat {
    var limit := Min(FirstOpen(g), LapEnd(g));
    if g.Released() < limit then limit - g.Released() else 0
  }

  function AfterConsume(s: State): State {
    var g := Followed(s.ring);
    s.(ring := g, consumer := Ready(Available(g)))
  }

  // What consume leaves in '*offset', given what was there before.
  function OffsetAfter(g: Ring, offset: nat): nat {
    if Followed(g).written == g.next.off then offset else Followed(g).written
  }

  // The value of 'ready' after observing the workers below i.
  function Scan(written: nat, seen: seq<Seen>, registered: seq<bool>, i: nat): nat
    requires |seen| == |registered| && i <= |seen|
  {
    if i == 0 then OFF_MAX
    else
      var ready := Scan(written, seen, registered, i - 1);
      if registered[i - 1] then Observe(written, seen[i - 1].off, ready) else ready
  }

  predicate ShowsOffset(written: nat, seen: seq<Seen>, registered: seq<bool>, w: nat, off: nat) {
    w < |seen| && w < |registered| && registered[w] && seen[w].off == off && written <= off
  }

  lemma {:induction false} ScanIsMinimum(written: nat, seen: seq<Seen>, registered: seq<bool>, i: nat)
    requires |seen| == |registered| && i <= |seen|
    ensures forall w, off | 0 <= w < i && ShowsOffset(written, seen, registered, w, off) ::
              Scan(written, seen, registered, i) <= off
    ensures Scan(written, seen, registered, i) == OFF_MAX
         || exists w | 0 <= w < i :: ShowsOffset(written, seen, registered, w, Scan(written, seen, registered, i))
  {
    if i > 0 {
      ScanIsMinimum(written, seen, registered, i - 1);
      var ready, off := Scan(written, seen, registered, i - 1), seen[i - 1].off;
      if registered[i - 1] && written <= off <= ready {
        assert ShowsOffset(written, seen, registered, i - 1, off);
      }
    }
  }

  function ScanAll(s: State): nat
    requires Sized(s)
  {
    Scan(s.ring.written, s.seen, s.registered, |s.producers|)
  }

  // Record bases increase along the log.
  lemma BasesIncrease(log: seq<Record>, tip: nat, j: nat, k: nat)
    requires Chain(log, tip) && j <= k < |log|
    ensures log[j].base <= log[k].base
  {
  }

  // The owner of the first open range shows its start, or the old end.
  lemma FirstOpenSeen(s: State)
    requires Inv(s) && Calm(s) && Q.DoneCount(Items(s.ring.log)) < |s.ring.log|
    ensures var g, d := s.ring, Q.DoneCount(Items(s.ring.log));
            && g.log[d].owner < |s.producers| && s.registered[g.log[d].owner]
            && s.seen[g.log[d].owner].off == g.log[d].seen
            && PendingOK(g, g.log[d]) && PlacedAt(g.log[d], g.cur, g.lag) && g.log[d].Limit() <= g.Tip()
  {
    var g, d := s.ring, Q.DoneCount(Items(s.ring.log));
    assert !g.log[d].done && (g.log[d].done || PendingOK(g, g.log[d]));
    var w := g.log[d].owner;
    assert Owns(s.producers[w], d);
    assert WorkerOK(g, w, s.producers[w], s.seen[w], s.registered[w]);
  }

  // A worker that shows an offset holds an open range, at or after the first.
  lemma ShownIsOpen(s: State, w: nat) returns (k: nat)
    requires Inv(s) && Calm(s) && w < |s.producers| && s.registered[w] && s.seen[w].off != OFF_MAX
    ensures k < |s.ring.log| && !s.ring.log[k].done && s.ring.log[k].seen == s.seen[w].off
    ensures PendingOK(s.ring, s.ring.log[k]) && PlacedAt(s.ring.log[k], s.ring.cur, s.ring.lag)
    ensures Q.DoneCount(Items(s.ring.log)) < |s.ring.log| && FirstOpen(s.ring) <= s.ring.log[k].base
    ensures s.ring.log[k].Limit() <= s.ring.Tip()
  {
    assert WorkerOK(s.ring, w, s.producers[w], s.seen[w], s.registered[w]);
    k := s.producers[w].k;
    assert s.ring.log[k].done || PendingOK(s.ring, s.ring.log[k]);
    BasesIncrease(s.ring.log, s.ring.Tip(), Q.DoneCount(Items(s.ring.log)), k);
  }

  // In the same lap, the scan finds the first open range.
  lemma ScanSameLap(s: State)
    requires Inv(s) && Calm(s) && !s.ring.Behind()
    ensures Min(ScanAll(s), s.ring.next.off) == FirstOpen(s.ring) - s.ring.lag
  {
    hide Chain, Placed, Pending, Boundary, WorkerOK, ConsumerOK, Owners, Scan;
    var g, n := s.ring, |s.producers|;
    ScanIsMinimum(g.written, s.seen, s.registered, n);
    var d := Q.DoneCount(Items(g.log));
    if d < |g.log| {
      FirstOpenSeen(s);
      assert g.written <= g.log[d].seen ==>
          ShowsOffset(g.written, s.seen, s.registered, g.log[d].owner, g.log[d].seen);
    }
    if ScanAll(s) != OFF_MAX {
      var w :| 0 <= w < n && ShowsOffset(g.written, s.seen, s.registered, w, ScanAll(s));
      var k := ShownIsOpen(s, w);
    }
  }

  // A lap behind, the scan finds the first open range before the cut.
  lemma ScanLapBehind(s: State)
    requires Inv(s) && Calm(s) && s.ring.Behind()
    ensures Min(ScanAll(s), s.ring.cur - s.ring.lag) == Min(FirstOpen(s.ring), s.ring.cur) - s.ring.lag
  {
    hide Chain, Placed, Pending, Boundary, WorkerOK, ConsumerOK, Owners, Scan;
    var g, n := s.ring, |s.producers|;
    ScanIsMinimum(g.written, s.seen, s.registered, n);
    var d := Q.DoneCount(Items(g.log));
    if d < |g.log| {
      FirstOpenSeen(s);
      assert g.written <= g.log[d].seen ==>
          ShowsOffset(g.written, s.seen, s.registered, g.log[d].owner, g.log[d].seen);
    }
    if ScanAll(s) != OFF_MAX {
      var w :| 0 <= w < n && ShowsOffset(g.written, s.seen, s.registered, w, ScanAll(s));
      var k := ShownIsOpen(s, w);
    }
  }

  // At the cut, the scan is clear exactly when what follows is produced.
  lemma ScanAtCut(s: State)
    requires Inv(s) && Calm(s) && s.ring.HasCut() && s.ring.Released() == s.ring.cur
    ensures ScanAll(s) == OFF_MAX <==> FirstOpen(s.ring) > s.ring.cur
  {
    hide Chain, Placed, Pending, Boundary, WorkerOK, ConsumerOK, Owners, Scan;
    var g, n := s.ring, |s.producers|;
    ScanIsMinimum(g.written, s.seen, s.registered, n);
    var d := Q.DoneCount(Items(g.log));
    if d < |g.log| {
      FirstOpenSeen(s);
      assert g.written <= g.log[d].seen ==>
          ShowsOffset(g.written, s.seen, s.registered, g.log[d].owner, g.log[d].seen);
    }
    if ScanAll(s) != OFF_MAX {
      var w :| 0 <= w < n && ShowsOffset(g.written, s.seen, s.registered, w, ScanAll(s));
      var k := ShownIsOpen(s, w);
    }
  }

  lemma SameLapAvailable(s: State)
    requires Inv(s) && Calm(s) && !s.ring.Behind()
    ensures s.ring.written <= s.ring.next.off && s.ring.written <= Min(ScanAll(s), s.ring.next.off)
    ensures Min(ScanAll(s), s.ring.next.off) - s.ring.written == Available(s.ring)
    ensures s.ring.written == s.ring.next.off ==> Available(s.ring) == 0
  {
    ScanSameLap(s);
    FirstOpenInUse(s.ring);
  }

  lemma LapBehindAvailable(s: State)
    requires Inv(s) && Calm(s) && s.ring.Behind() && EndOK(s.ring, false)
    ensures var g, end := s.ring, Min(s.ring.space, s.ring.end);
            && g.next.off < g.written <= Min(ScanAll(s), end)
            && Min(ScanAll(s), end) - g.written == Available(g)
            && (ScanAll(s) == OFF_MAX && g.written == end <==> CanFollow(g))
            && (CanFollow(g) ==> g.end != OFF_MAX)
  {
    hide Chain, Placed, Pending, Boundary, WorkerOK, ConsumerOK, Owners, Scan;
    ScanLapBehind(s);
    CalmUnlocked(s);
    FirstOpenInUse(s.ring);
    if s.ring.HasCut() && s.ring.Released() == s.ring.cur {
      ScanAtCut(s);
    }
  }

  lemma FirstOpenInUse(g: Ring)
    requires Geometry(g)
    ensures g.Released() <= FirstOpen(g) <= g.Tip()
  {
    var d := Q.DoneCount(Items(g.log));
    if d < |g.log| {
      assert g.log[d].done || PendingOK(g, g.log[d]);
    }
  }

  // The wait for the worker that wrapped is over.
  lemma CanFollowIsAtCut(s: State)
    requires Inv(s) && Calm(s) && CanFollow(s.ring)
    ensures AtCut(s.ring)
  {
    var g := s.ring;
    CalmUnlocked(s);
    forall k | 0 <= k < |g.log| && !g.log[k].done ensures !g.log[k].Wrapped() {
      assert g.log[k].done || PendingOK(g, g.log[k]);
      BasesIncrease(g.log, g.Tip(), Q.DoneCount(Items(g.log)), k);
    }
  }

  // Position x is the end of the longest produced prefix of the stream within
  // the lap of the consumer: every range that starts before x is produced, and
  // x is the start of an open range, or the end of the lap.
  predicate LongestProduced(g: Ring, x: nat) {
    && g.Released() <= x <= LapEnd(g)
    && (forall k | 0 <= k < |g.log| :: g.log[k].done || x <= g.log[k].base)
    && (x == LapEnd(g) || exists k | 0 <= k < |g.log| :: !g.log[k].done && g.log[k].base == x)
  }

  lemma AvailableIsLongest(g: Ring)
    requires Geometry(g)
    ensures LongestProduced(g, g.Released() + Available(g))
  {
    var d := Q.DoneCount(Items(g.log));
    forall k | 0 <= k < |g.log| && !g.log[k].done ensures g.Released() <= g.log[k].base && FirstOpen(g) <= g.log[k].base {
      assert g.log[k].done || PendingOK(g, g.log[k]);
      BasesIncrease(g.log, g.Tip(), d, k);
    }
  }

  // Consume moves on to the next lap only if it is at the cut, releasing
  // nothing by that, and then makes the longest produced prefix available.
  lemma {:induction false} AvailableExact(s: State)
    requires Inv(s) && Settled(s)
    ensures var g := Followed(s.ring);
            && g.Released() == s.ring.Released() && g.log == s.ring.log
            && LongestProduced(g, g.Released() + Available(g))
  {
    hide Geometry, Available, LongestProduced, Workers, Owners;
    FollowedKeeps(s);
    AvailableIsLongest(Followed(s.ring));
  }

  lemma FollowedKeeps(s: State)
    requires Inv(s) && Settled(s)
    ensures Geometry(Followed(s.ring)) && Followed(s.ring).Released() == s.ring.Released()
  {
    if CanFollow(s.ring) {
      CanFollowIsAtCut(s);
      FollowedGeometry(s.ring);
    }
  }

  lemma FollowedGeometry(g: Ring)
    requires Geometry(g) && AtCut(g)
    ensures Geometry(g.(end := OFF_MAX, written := 0, lag := g.cur))
  {
    RingConsumerSteps.ClearedGeometry(g);
    RingConsumerSteps.ResetGeometry(g.(end := OFF_MAX));
  }

  /* ------------------------- progress and capacity ------------------------ */

  predicate AllProduced(log: seq<Record>) {
    forall k | 0 <= k < |log| :: log[k].done
  }

  // With everything produced, consume finds something unless nothing is left.
  lemma Progress(s: State)
    requires Inv(s) && Settled(s) && AllProduced(s.ring.log)
    ensures Available(Followed(s.ring)) == 0 <==> s.ring.Released() == s.ring.Tip()
  {
  }

  // One consume, then the release of all of its result.
  function Round(g: Ring): Ring {
    Freed(Followed(g), Available(Followed(g)))
  }

  lemma AllProducedOpen(g: Ring)
    requires AllProduced(g.log)
    ensures FirstOpen(g) == g.Tip()
  {
  }

  // With everything produced, a round empties the lap of the consumer, after
  // moving on to the next one if it was at the cut.
  lemma RoundEmptiesLap(g: Ring)
    requires Hands(g) && g.next.off < g.space && AllProduced(g.log)
    ensures Hands(Round(g)) && Round(g).log == g.log && Round(g).next == g.next && Round(g).space == g.space
    ensures Round(g).cur == g.cur
    ensures Round(g).Released() == if g.Released() == g.cur || !g.Behind() then g.Tip() else g.cur
  {
    AllProducedOpen(g);
    AllProducedOpen(Followed(g));
    if !g.Behind() {
      assert Available(g) == g.Tip() - g.Released();
    } else if g.Released() == g.cur {
      assert CanFollow(g);
      assert Available(Followed(g)) == g.Tip() - g.cur;
    } else {
      assert Available(g) == g.cur - g.Released();
    }
  }

  // With everything produced, two rounds drain the ring, wrapped or not.
  lemma TwoRoundsDrain(s: State)
    requires Inv(s) && Settled(s) && AllProduced(s.ring.log)
    ensures Round(Round(s.ring)).Released() == Round(Round(s.ring)).Tip() == s.ring.Tip()
  {
    RoundEmptiesLap(s.ring);
    RoundEmptiesLap(Round(s.ring));
  }

  // An empty ring, at whatever offset it stopped, takes any request of at most
  // half the space; beyond that it depends on the offset.
  lemma EmptyRingAccepts(s: State, len: nat)
    requires Inv(s) && Settled(s) && s.ring.Released() == s.ring.Tip() && 0 < len <= s.ring.space
    ensures var g := s.ring;
            AcquireResult(g, len) >= 0 <==>
              (g.next.off + len < g.space || (g.next.off + len == g.space && 0 < g.next.off) || len < g.next.off)
    ensures 2 * len <= s.ring.space ==> AcquireResult(s.ring, len) >= 0
  {
    CalmUnlocked(s);
  }

  // The whole space at once is never granted.
  lemma WholeSpaceRefused(s: State)
    requires Inv(s)
    ensures AcquireResult(s.ring, s.ring.space) == -1
  {
  }

  function AfterProduce(s: State, w: nat): State
    requires Enabled(s, Produce(w))
  {
    Apply(s, Produce(w))
  }

  // A ring that was used once, by worker w for len bytes, refuses the same
  // request after it was drained, if len is more than half the space.
  lemma HalfSpaceRefused(s: State, w: nat, len: nat)
    requires Inv(s) && Settled(s) && w < |s.producers| && s.producers[w].Idle?
    requires s.ring.log == [] && s.ring.cur == 0 && s.ring.next.off == 0
    requires s.ring.space < 2 * len && len < s.ring.space
    ensures var s1 := AfterAcquire(s, w, len);
            && AcquireResult(s.ring, len) == 0
            && Enabled(s1, Produce(w))
            && var g := Round(AfterProduce(s1, w).ring);
               g.Released() == g.Tip() && AcquireResult(g, len) == -1
  {
    var s1 := AfterAcquire(s, w, len);
    var g := AfterProduce(s1, w).ring;
    assert g.log[0].done && |g.log| == 1;
    assert Q.DoneCount(Items(g.log)) == 1;
  }
}
