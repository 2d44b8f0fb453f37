/**
Consume while the producers go on: in every run it returns at least what an
uninterrupted call would have returned when it first read 'next', and it sets
the offset unless it found the ring empty then.
*/
module RingPromptness {
  import opened PackedWords
  import opened RingMachine
  import opened RingInvariant
  import opened RingRefinement
  import opened RingRuns
  import opened RingOperations
  import opened RingSafety
  import RingProducerSteps
  import RingConsumerSteps
  import Q = ReserveQueue

  // No range before position x is open.
  predicate OpenFrom(log: seq<Record>, x: nat) {
    forall k | 0 <= k < |log| :: log[k].done || x <= log[k].base
  }

  // A scan that is going to let the consumer reach position x.
  predicate ScanReaches(g: Ring, v: View, ready: nat, x: nat) {
    && (ready == OFF_MAX || x <= g.lag + ready)
    && (!v.lapped ==> x <= v.tip)
    && (v.lapped ==> x <= g.cur || (g.Released() == g.cur && ready == OFF_MAX))
  }

  // The call of consume under way is going to return the bytes up to x.
  predicate Reaches(g: Ring, c: Consumer, x: nat) {
    && OpenFrom(g.log, x) && x <= g.Tip()
    && match c
       case Ready(avail) => x <= g.Released() + avail
       case Reading(retried) => retried
       case Checking(v, i, ready) => ScanReaches(g, v, ready, x)
       case Observing(v, i, ready) => ScanReaches(g, v, ready, x)
       case Limiting(v, ready) => ScanReaches(g, v, ready, x)
       case _ => true
  }

  /* ------------------------------ worker steps ---------------------------- */

  // Acquired and produced ranges, as the consumer needs to know of them.
  predicate Proceeds(g: Ring, g': Ring) {
    && g'.lag == g.lag && g'.written == g.written && g.Tip() <= g'.Tip()
    && (g.Behind() ==> g'.cur == g.cur)
    && |g.log| <= |g'.log|
    && (forall k | 0 <= k < |g.log| :: g'.log[k].base == g.log[k].base && (g.log[k].done ==> g'.log[k].done))
    && (forall k | |g.log| <= k < |g'.log| :: g.Tip() <= g'.log[k].base)
  }

  lemma WorkerProceeds(s: State, a: Action)
    requires Inv(s) && FewWraps(s) && Enabled(s, a) && ByWorker(a)
    ensures Proceeds(s.ring, Apply(s, a).ring) && Apply(s, a).consumer == s.consumer
  {
    hide Chain, Placed, Pending, Boundary, Owners, Locked, EndOK, ConsumerOK;
    var g, p := s.ring, s.producers[a.w];
    assert WorkerOK(g, a.w, p, s.seen[a.w], s.registered[a.w]);
    if a.CasOk? {
      assert g.laps < ReadLap(p, g.laps) + WRAP_MODULUS;
      RingProducerSteps.CasSawCurrent(g, p.word, p.lap);
      ReservedProceeds(g, a.w, p);
    }
  }

  lemma ReservedProceeds(g: Ring, w: nat, p: Producer)
    requires p.Swapping? && p.word == g.next && Sound(g, p.word, p.len, p.target)
    ensures Proceeds(g, Reserved(g, w, p))
  {
  }

  lemma ProceedsReaches(g: Ring, g': Ring, workers: nat, c: Consumer, x: nat)
    requires Proceeds(g, g') && Reaches(g, c, x) && ConsumerOK(g, workers, c)
    ensures Reaches(g', c, x)
  {
  }

  /* ----------------------------- consumer steps --------------------------- */

  lemma OpenFromFirst(g: Ring)
    requires Geometry(g)
    ensures OpenFrom(g.log, FirstOpen(g)) && g.Released() <= FirstOpen(g) <= g.Tip()
  {
    var d := Q.DoneCount(Items(g.log));
    FirstOpenInUse(g);
    forall k | 0 <= k < |g.log| && !g.log[k].done ensures FirstOpen(g) <= g.log[k].base {
      BasesIncrease(g.log, g.Tip(), d, k);
    }
  }

  // Where an uninterrupted call would end.
  function Promised(g: Ring): nat {
    g.Released() + Available(Followed(g))
  }

  lemma PromisedAt(g: Ring)
    requires Geometry(g)
    ensures Promised(g) <= FirstOpen(g)
    ensures g.Behind() ==> Promised(g) <= g.cur || g.Released() == g.cur
  {
    OpenFromFirst(g);
    if CanFollow(g) {
      assert FirstOpen(Followed(g)) == FirstOpen(g);
    }
  }

  lemma FirstReadReaches(s: State)
    requires Inv(s) && Enabled(s, ReadNext)
    ensures Reaches(Apply(s, ReadNext).ring, Apply(s, ReadNext).consumer, Promised(s.ring))
  {
    hide Available, Followed, FirstOpen, Chain, Placed, Pending, Granted, WorkerOK;
    PromisedAt(s.ring);
    OpenFromFirst(s.ring);
    RingConsumerSteps.FreshView(s.ring, s.consumer.retried);
  }

  lemma SecondReadReaches(s: State, x: nat)
    requires Inv(s) && Enabled(s, ReadNext) && Reaches(s.ring, s.consumer, x)
    ensures Reaches(Apply(s, ReadNext).ring, Apply(s, ReadNext).consumer, x)
  {
    hide Chain, Placed, Pending, Granted, WorkerOK;
    RingConsumerSteps.FreshView(s.ring, s.consumer.retried);
  }

  // A worker seen at or above 'written' holds a range that starts at or after x.
  lemma ObserveReaches(s: State, x: nat)
    requires Inv(s) && Enabled(s, ObserveWorker) && Reaches(s.ring, s.consumer, x)
    ensures Reaches(Apply(s, ObserveWorker).ring, Apply(s, ObserveWorker).consumer, x)
  {
    hide Chain, Boundary, Granted;
    var g, c := s.ring, s.consumer;
    var p, off := s.producers[c.i], s.seen[c.i].off;
    assert WorkerOK(g, c.i, p, s.seen[c.i], s.registered[c.i]);
    RingConsumerSteps.StableSeen(g, c.i, p, s.seen[c.i], s.registered[c.i]);
    if off != OFF_MAX && g.written <= off {
      ShownReaches(g, p.k, x);
    }
  }

  lemma ShownReaches(g: Ring, k: nat, x: nat)
    requires Geometry(g) && OpenFrom(g.log, x) && k < |g.log| && !g.log[k].done && g.written <= g.log[k].seen
    ensures x <= g.lag + g.log[k].seen && (g.Behind() ==> x <= g.cur)
  {
    RingConsumerSteps.SeenBoundary(g, k);
    assert g.log[k].done || PendingOK(g, g.log[k]);
    assert PlacedAt(g.log[k], g.cur, g.lag);
  }

  lemma EndScanReaches(s: State, x: nat)
    requires Inv(s) && Enabled(s, EndScan) && Reaches(s.ring, s.consumer, x)
    ensures Reaches(Apply(s, EndScan).ring, Apply(s, EndScan).consumer, x)
  {
  }

  lemma ReadEndReaches(s: State, x: nat)
    requires Inv(s) && Enabled(s, ReadEnd) && Reaches(s.ring, s.consumer, x)
    ensures Reaches(Apply(s, ReadEnd).ring, Apply(s, ReadEnd).consumer, x)
  {
    hide Chain, Placed, Pending, Granted, Boundary, WorkerOK;
    var g, c := s.ring, s.consumer;
    RingConsumerSteps.LappedUnlocked(s);
    RingConsumerSteps.LappedGrant(g, |s.producers|, c.view, c.ready);
  }

  lemma ConsumerReaches(s: State, a: Action, x: nat)
    requires Inv(s) && Enabled(s, a) && !ByWorker(a) && !s.consumer.Ready? && Reaches(s.ring, s.consumer, x)
    ensures Reaches(Apply(s, a).ring, Apply(s, a).consumer, x)
    ensures Apply(s, a).ring.Released() == s.ring.Released()
  {
    hide Inv, Reaches, Enabled, Apply;
    match a
    case ReadNext => SecondReadReaches(s, x); SilentKeeps(s, a);
    case ObserveWorker => ObserveReaches(s, x); SilentKeeps(s, a);
    case EndScan => EndScanReaches(s, x); SilentKeeps(s, a);
    case ReadEnd => ReadEndReaches(s, x); SilentKeeps(s, a);
    case _ => OtherReaches(s, a, x);
  }

  lemma OtherReaches(s: State, a: Action, x: nat)
    requires Inv(s) && Enabled(s, a) && !ByWorker(a) && !s.consumer.Ready? && Reaches(s.ring, s.consumer, x)
    requires !a.ReadNext? && !a.ObserveWorker? && !a.EndScan? && !a.ReadEnd?
    ensures Reaches(Apply(s, a).ring, Apply(s, a).consumer, x)
    ensures Apply(s, a).ring.Released() == s.ring.Released()
  {
    hide Chain, Placed, Pending, Boundary, Granted, WorkerOK, Owners;
    SilentKeeps(s, a);
  }

  lemma StepReaches(s: State, a: Action, x: nat)
    requires Inv(s) && FewWraps(s) && Enabled(s, a) && !s.consumer.Ready? && Reaches(s.ring, s.consumer, x)
    ensures Reaches(Apply(s, a).ring, Apply(s, a).consumer, x)
    ensures Apply(s, a).ring.Released() == s.ring.Released()
  {
    hide Geometry, Workers, Owners, Enabled, Apply, Reaches, Proceeds;
    if ByWorker(a) {
      WorkerProceeds(s, a);
      WorkerKeepsHands(s, a);
      ProceedsReaches(s.ring, Apply(s, a).ring, |s.producers|, s.consumer, x);
    } else {
      ConsumerReaches(s, a, x);
    }
  }

  /* --------------------------------- runs --------------------------------- */

  // Step i reads 'next' for the first time in a call of consume, and at j the
  // call has not returned before.
  predicate CallFrom(run: seq<State>, acts: seq<Action>, i: nat, j: nat) {
    && IsRun(run, acts) && i < j <= |acts|
    && acts[i] == ReadNext && run[i].consumer == Reading(false)
    && forall n | i < n < j :: !run[n].consumer.Ready?
  }

  lemma {:induction false} CallReaches(run: seq<State>, acts: seq<Action>, i: nat, j: nat)
    requires CallFrom(run, acts, i, j)
    ensures Reaches(run[j].ring, run[j].consumer, Promised(run[i].ring))
    ensures run[j].ring.Released() == run[i].ring.Released()
  {
    hide Inv, Enabled, Apply, Reaches, FewWraps, Promised, Init;
    ReachableGood(run, acts, j - 1);
    assert Step(run[j - 1], acts[j - 1], run[j]);
    if j == i + 1 {
      FirstReadReaches(run[i]);
      SilentKeeps(run[i], acts[i]);
    } else {
      assert CallFrom(run, acts, i, j - 1);
      CallReaches(run, acts, i, j - 1);
      StepReaches(run[j - 1], acts[j - 1], Promised(run[i].ring));
    }
  }

  // In every interleaving, a call of consume returns at least what was
  // available when it first read 'next', past the cut if it could follow then;
  // and what it returns is produced when it returns.
  lemma {:induction false} ConsumeReturnsEnough(run: seq<State>, acts: seq<Action>, i: nat, j: nat)
    requires CallFrom(run, acts, i, j) && run[j].consumer.Ready?
    ensures Available(Followed(run[i].ring)) <= run[j].consumer.avail
    ensures run[j].ring.Released() == run[i].ring.Released()
    ensures run[j].ring.Released() + run[j].consumer.avail <= FirstOpen(run[j].ring)
  {
    hide Available, Followed, Geometry, Contents, FirstOpen;
    CallReaches(run, acts, i, j);
    ReachableGood(run, acts, j);
    GrantBeforeOpen(run[j].ring, run[j].consumer.avail);
  }

  lemma GrantBeforeOpen(g: Ring, n: nat)
    requires Geometry(g) && Granted(g, n)
    ensures g.Released() + n <= FirstOpen(g)
  {
  }

  /* ------------------------------- the offset ----------------------------- */

  // After the reset, 'next' stays ahead of 'written', which is 0.
  predicate RetriedAhead(s: State) {
    s.consumer == Reading(true) ==> s.ring.next.off > 0
  }

  lemma StepAhead(s: State, a: Action)
    requires Inv(s) && FewWraps(s) && Enabled(s, a) && RetriedAhead(s)
    ensures RetriedAhead(Apply(s, a))
  {
    hide Chain, Placed, Pending, Boundary, Owners, Locked, EndOK;
    if ByWorker(a) {
      var g, p := s.ring, s.producers[a.w];
      assert WorkerOK(g, a.w, p, s.seen[a.w], s.registered[a.w]);
      if a.CasOk? {
        assert g.laps < ReadLap(p, g.laps) + WRAP_MODULUS;
        RingProducerSteps.CasSawCurrent(g, p.word, p.lap);
      }
    }
  }

  lemma {:induction false} CallAhead(run: seq<State>, acts: seq<Action>, i: nat, j: nat)
    requires CallFrom(run, acts, i, j)
    ensures RetriedAhead(run[j])
  {
    hide Inv, Enabled, Apply, FewWraps, Init, RetriedAhead;
    ReachableGood(run, acts, j - 1);
    assert Step(run[j - 1], acts[j - 1], run[j]);
    if j == i + 1 {
      FirstAhead(run[i]);
    } else {
      assert CallFrom(run, acts, i, j - 1);
      CallAhead(run, acts, i, j - 1);
    }
    StepAhead(run[j - 1], acts[j - 1]);
  }

  lemma FirstAhead(s: State)
    requires s.consumer == Reading(false)
    ensures RetriedAhead(s)
  {
  }

  // What a call that returns in run[j] leaves in '*offset': it sets it unless
  // it returns right after a read of 'next'.
  function OffsetLeft(run: seq<State>, acts: seq<Action>, j: nat, offset: nat): nat
    requires 0 < j < |run| && j <= |acts|
  {
    if acts[j - 1] == ReadNext then offset else run[j].ring.written
  }

  // In every interleaving, a call leaves '*offset' unset if and only if its
  // first read of 'next' finds the ring empty; else it sets it to an offset in
  // the buffer.
  lemma {:induction false} ConsumeSetsOffset(run: seq<State>, acts: seq<Action>, i: nat, j: nat)
    requires CallFrom(run, acts, i, j) && run[j].consumer.Ready?
    ensures acts[j - 1] == ReadNext <==> run[i].ring.written == run[i].ring.next.off
    ensures run[i].ring.written == run[i].ring.next.off <==> run[i].ring.Released() == run[i].ring.Tip()
    ensures run[j].ring.written < run[j].ring.space == run[i].ring.space
  {
    hide Inv, Enabled, Apply, FewWraps, Init, Contents, Reaches;
    ReachableGood(run, acts, i);
    ReachableGood(run, acts, j - 1);
    ReachableGood(run, acts, j);
    assert Step(run[i], acts[i], run[i + 1]) && Step(run[j - 1], acts[j - 1], run[j]);
    FirstRead(run[i]);
    SameSpace(run, acts, i, j);
    HandsApart(run[j]);
    if j > i + 1 {
      assert CallFrom(run, acts, i, j - 1);
      CallAhead(run, acts, i, j - 1);
      CallReaches(run, acts, i, j - 1);
      if acts[j - 1] == ReadNext {
        LaterRead(run[j - 1], Promised(run[i].ring));
      }
    }
  }

  // The first read returns at once exactly from an empty ring.
  lemma FirstRead(s: State)
    requires Inv(s) && Enabled(s, ReadNext)
    ensures Apply(s, ReadNext).consumer.Ready? <==> s.ring.written == s.ring.next.off
    ensures s.ring.written == s.ring.next.off <==> s.ring.Released() == s.ring.Tip()
  {
    RingConsumerSteps.FreshView(s.ring, s.consumer.retried);
  }

  // A later read of the same call never returns.
  lemma LaterRead(s: State, x: nat)
    requires Inv(s) && Enabled(s, ReadNext) && RetriedAhead(s) && Reaches(s.ring, s.consumer, x)
    ensures !Apply(s, ReadNext).consumer.Ready?
  {
  }

  lemma HandsApart(s: State)
    requires Inv(s)
    ensures s.ring.written < s.ring.space
  {
  }

  lemma {:induction false} SameSpace(run: seq<State>, acts: seq<Action>, i: nat, j: nat)
    requires IsRun(run, acts) && i <= j <= |acts|
    ensures run[j].ring.space == run[i].ring.space
  {
    hide Enabled, Apply, FewWraps, Init;
    if i < j {
      SameSpace(run, acts, i, j - 1);
      assert Step(run[j - 1], acts[j - 1], run[j]);
      StepSize(run[j - 1], acts[j - 1]);
    }
  }

  // In every interleaving, the offset is the read point of the consumer, and
  // the count bytes from there are the next bytes of the queue, inside the buffer.
  lemma {:induction false} OffsetPointsAtData(run: seq<State>, acts: seq<Action>, i: nat, j: nat, offset: nat)
    requires CallFrom(run, acts, i, j) && run[j].consumer.Ready?
    ensures var g, n, off := run[j].ring, run[j].consumer.avail, OffsetLeft(run, acts, j, offset);
            && off == (if run[i].ring.written == run[i].ring.next.off then offset else g.written)
            && (n > 0 ==>
                  && off + n <= g.space == |g.mem| && g.Released() + n <= |Q.Deliverable(Items(g.log))|
                  && g.mem[off..off + n] == Q.Deliverable(Items(g.log))[g.Released()..g.Released() + n])
  {
    hide Inv, Contents, Enabled, Apply, FewWraps, Init, Q.Deliverable, Granted;
    ConsumeSetsOffset(run, acts, i, j);
    ReachableGood(run, acts, j);
    ReachableGood(run, acts, j - 1);
    assert Step(run[j - 1], acts[j - 1], run[j]);
    GrantedNow(run[j]);
    GrantFits(run[j].ring, run[j].consumer.avail);
    GrantContents(run[j].ring, run[j].consumer.avail);
    if acts[j - 1] == ReadNext {
      ReadGivesNothing(run[j - 1]);
    }
  }

  lemma GrantedNow(s: State)
    requires Inv(s) && s.consumer.Ready?
    ensures Geometry(s.ring) && Granted(s.ring, s.consumer.avail)
  {
  }

  lemma ReadGivesNothing(s: State)
    requires Enabled(s, ReadNext)
    ensures var c := Apply(s, ReadNext).consumer; c.Ready? ==> c.avail == 0
  {
  }

  // In every interleaving, the client's assertion that '*offset' is in the
  // buffer holds after a call if and only if it was in the buffer before, or
  // the first read of 'next' did not find the ring empty.
  lemma OffsetInBufferExactly(run: seq<State>, acts: seq<Action>, i: nat, j: nat, offset: nat)
    requires CallFrom(run, acts, i, j) && run[j].consumer.Ready?
    ensures OffsetLeft(run, acts, j, offset) < run[i].ring.space
       <==> offset < run[i].ring.space || run[i].ring.written != run[i].ring.next.off
  {
    ConsumeSetsOffset(run, acts, i, j);
  }
}
