/**
What the invariant says about the ring in every reachable state, and about
pairs of steps in every run.
*/
module RingSafety {
  import opened Integers
  import opened PackedWords
  import opened RingMachine
  import opened RingInvariant
  import opened RingRefinement
  import opened RingRuns
  import RingProducerSteps
  import RingConsumerSteps
  import Q = ReserveQueue

  /* ------------------------------- geometry ------------------------------- */

  // The part of a range that is not released yet.
  function LiveStart(g: Ring, r: Record): nat {
    r.phys + if r.base < g.Released() then g.Released() - r.base else 0
  }

  function LiveEnd(r: Record): nat { r.phys + r.len }

  predicate Live(g: Ring, r: Record) { g.Released() < r.Limit() }

  // An outstanding or unreleased range lies in the buffer, the whole of it.
  lemma RangeInBuffer(s: State, k: nat)
    requires Inv(s) && k < |s.ring.log| && Live(s.ring, s.ring.log[k])
    ensures LiveStart(s.ring, s.ring.log[k]) < LiveEnd(s.ring.log[k]) <= s.ring.space == |s.ring.mem|
  {
    assert PlacedAt(s.ring.log[k], s.ring.cur, s.ring.lag);
  }

  // Every byte of an acquired range can be written: no write of a worker that
  // keeps to its range is out of bounds.
  lemma FillEnabled(s: State, w: nat, j: nat, v: Byte)
    requires Inv(s) && w < |s.producers| && s.producers[w].Holding?
    ensures var k := s.producers[w].k;
            k < |s.ring.log| && (Enabled(s, Fill(w, j, v)) <==> j < s.ring.log[k].len)
  {
    var g, k := s.ring, s.producers[w].k;
    assert WorkerOK(g, w, s.producers[w], s.seen[w], s.registered[w]);
    assert g.log[k].done || PendingOK(g, g.log[k]);
    if j < g.log[k].len {
      RecordPosition(g, k, j);
    }
  }

  // Two outstanding or unreleased ranges do not overlap.
  lemma RangesDisjoint(s: State, j: nat, k: nat)
    requires Inv(s) && j < k < |s.ring.log| && Live(s.ring, s.ring.log[j]) && Live(s.ring, s.ring.log[k])
    ensures var g := s.ring;
            && LiveEnd(g.log[j]) <= g.space && LiveEnd(g.log[k]) <= g.space
            && (LiveEnd(g.log[j]) <= LiveStart(g, g.log[k]) || LiveEnd(g.log[k]) <= LiveStart(g, g.log[j]))
  {
    var g := s.ring;
    assert PlacedAt(g.log[j], g.cur, g.lag) && PlacedAt(g.log[k], g.cur, g.lag);
  }

  // What the consumer was given and has not released is apart from every range
  // that a producer may still be writing to.
  lemma GrantApart(s: State, k: nat)
    requires Inv(s) && s.consumer.Ready? && k < |s.ring.log| && !s.ring.log[k].done
    ensures var g, n := s.ring, s.consumer.avail;
            LiveEnd(g.log[k]) <= g.written || g.written + n <= g.log[k].phys
  {
    var g := s.ring;
    assert g.log[k].done || PendingOK(g, g.log[k]);
    assert PlacedAt(g.log[k], g.cur, g.lag);
  }

  lemma WorkerKeepsHands(s: State, a: Action)
    requires Enabled(s, a) && ByWorker(a)
    ensures var s' := Apply(s, a);
            && s'.consumer == s.consumer && s'.ring.written == s.ring.written && s'.ring.lag == s.ring.lag
            && |s'.ring.mem| == |s.ring.mem|
            && (!a.Fill? ==> s'.ring.mem == s.ring.mem)
  {
  }

  lemma FillKeepsGrant(s: State, a: Action)
    requires Inv(s) && Enabled(s, a) && a.Fill? && s.consumer.Ready?
    ensures Granting(Apply(s, a)) == Granting(s)
  {
    hide Chain, Placed, Pending, Hands, Boundary, Owners, Locked, EndOK, ConsumerOK;
    assert WorkerOK(s.ring, a.w, s.producers[a.w], s.seen[a.w], s.registered[a.w]);
    GrantApart(s, s.producers[a.w].k);
    FillEnabled(s, a.w, a.j, a.v);
  }

  // No step of a worker changes what the consumer was given.
  lemma GrantKept(s: State, a: Action)
    requires Inv(s) && Enabled(s, a) && ByWorker(a) && s.consumer.Ready?
    ensures Apply(s, a).consumer == s.consumer && Apply(s, a).ring.Released() == s.ring.Released()
    ensures Granting(Apply(s, a)) == Granting(s)
  {
    hide Inv, Enabled, Apply;
    WorkerKeepsHands(s, a);
    if a.Fill? {
      FillKeepsGrant(s, a);
    }
  }

  // The bytes the consumer was given and has not released.
  function Granting(s: State): seq<Byte>
    requires s.consumer.Ready?
  {
    if s.ring.written + s.consumer.avail <= |s.ring.mem|
    then s.ring.mem[s.ring.written..s.ring.written + s.consumer.avail] else []
  }

  // Between two operations of the consumer it may read what it was given at any
  // time, and always reads the same.
  lemma {:induction false} GrantStable(run: seq<State>, acts: seq<Action>, i: nat, j: nat)
    requires IsRun(run, acts) && i <= j <= |acts| && run[i].consumer.Ready?
    requires forall n | i <= n < j :: ByWorker(acts[n])
    ensures run[j].consumer == run[i].consumer && Granting(run[j]) == Granting(run[i])
  {
    hide Inv, Enabled, Apply, FewWraps;
    if i < j {
      GrantStable(run, acts, i, j - 1);
      ReachableGood(run, acts, j - 1);
      assert Step(run[j - 1], acts[j - 1], run[j]);
      GrantKept(run[j - 1], acts[j - 1]);
    }
  }

  // In every run, a result of consume ends where a record ends, and so does
  // what is left of it after a release.
  lemma GrantEndsAtBoundary(run: seq<State>, acts: seq<Action>, i: nat)
    requires IsRun(run, acts) && i < |run| && run[i].consumer.Ready?
    ensures var g := run[i].ring; Boundary(g.log, g.Tip(), g.Released() + run[i].consumer.avail)
  {
    ReachableGood(run, acts, i);
  }

  /* ------------------------------ conservation ---------------------------- */

  function AcquiredBytes(log: seq<Record>): nat {
    if |log| == 0 then 0 else AcquiredBytes(log[..|log| - 1]) + log[|log| - 1].len
  }

  // Bytes of the log at or after a stream position.
  function Unreleased(log: seq<Record>, x: nat): nat {
    if |log| == 0 then 0
    else
      var r := log[|log| - 1];
      Unreleased(log[..|log| - 1], x) + if r.Limit() <= x then 0 else if r.base < x then r.Limit() - x else r.len
  }

  function Skipped(g: Ring): nat {
    if g.HasCut() then g.space - (g.cur - g.lag) else 0
  }

  lemma {:induction false} UnreleasedFrom(log: seq<Record>, tip: nat, x: nat, n: nat)
    requires Chain(log, tip) && n <= |log|
    ensures var limit := if n < |log| then log[n].base else tip;
            AcquiredBytes(log[..n]) == limit && Unreleased(log[..n], x) == if x < limit then limit - x else 0
  {
    if n > 0 {
      UnreleasedFrom(log, tip, x, n - 1);
      assert log[..n][..n - 1] == log[..n - 1];
      assert n < |log| ==> Follows(log, n);
    }
  }

  // Acquired bytes are released, or still in the buffer; with the space that
  // was skipped at the end, the latter never fill the buffer.
  lemma Conservation(s: State)
    requires Inv(s)
    ensures AcquiredBytes(s.ring.log) == s.ring.Released() + Unreleased(s.ring.log, s.ring.Released())
    ensures Unreleased(s.ring.log, s.ring.Released()) + Skipped(s.ring) < s.ring.space
  {
    var g := s.ring;
    UnreleasedFrom(g.log, g.Tip(), g.Released(), |g.log|);
    assert g.log[..|g.log|] == g.log;
  }

  // "Full" never looks like "empty": the hands meet only when nothing is left.
  lemma FullIsNotEmpty(s: State)
    requires Inv(s) && !s.ring.next.lock
    ensures s.ring.next.off == s.ring.written <==> Unreleased(s.ring.log, s.ring.Released()) == 0
  {
    Conservation(s);
    var g := s.ring;
    UnreleasedFrom(g.log, g.Tip(), g.Released(), |g.log|);
    assert g.log[..|g.log|] == g.log;
  }

  /* ---------------------------- the 'end' offset -------------------------- */

  // In every run, outside the two windows, 'end' is set exactly while a producer
  // wrapped by exceeding the space and the consumer has not followed.
  lemma EndHandOff(run: seq<State>, acts: seq<Action>, i: nat)
    requires IsRun(run, acts) && i < |run| && !run[i].ring.next.lock && !run[i].consumer.Resetting?
    ensures var g := run[i].ring;
            && (g.end != OFF_MAX <==> g.HasCut())
            && (g.end != OFF_MAX ==> g.end == g.cur - g.lag && g.written <= g.end < g.space)
  {
    ReachableGood(run, acts, i);
  }

  // 'end' is stored only when it is clear, and then it is the cut.
  lemma EndNotOverwritten(s: State, w: nat)
    requires Inv(s) && Enabled(s, StoreEnd(w))
    ensures s.ring.end == OFF_MAX && s.ring.HasCut() && s.producers[w].prev == s.ring.cur - s.ring.lag
  {
    var p := s.producers[w];
    assert WorkerOK(s.ring, w, p, s.seen[w], s.registered[w]);
    assert s.ring.log[p.k].done || PendingOK(s.ring, s.ring.log[p.k]);
  }

  // In every run, the reset to 0 waits until the worker that wrapped has
  // produced, and releases nothing.
  lemma ResetAfterProduce(run: seq<State>, acts: seq<Action>, i: nat, k: nat)
    requires IsRun(run, acts) && i < |acts| && acts[i] == ResetWritten
    requires k < |run[i].ring.log| && run[i].ring.log[k].base == run[i].ring.cur
    ensures run[i].ring.log[k].Wrapped() ==> run[i].ring.log[k].done
    ensures run[i + 1].ring.Released() == run[i].ring.Released() == run[i].ring.cur
  {
    ReachableGood(run, acts, i);
    assert Step(run[i], acts[i], run[i + 1]);
  }

  /* ------------------------------ assertions ------------------------------ */

  // The ASSERTs of ringbuf_acquire and ringbuf_produce, at their program points.
  predicate WorkerAsserts(g: Ring, p: Producer, seen: Seen, registered: bool) {
    match p
    case Idle => seen == CLEAR
    case Publishing(len, word, lap) => word.off < g.space
    case Deciding(len, word, lap) => word.off < g.space
    case StoringEnd(k, prev, target) => g.written <= prev && g.end == OFF_MAX && target.off <= g.space
    case Clearing(k, prev, target) => target.off <= g.space
    case Unlocking(k, target) => target.off <= g.space
    case Holding(k) => registered && seen.off != OFF_MAX
    case _ => true
  }

  // The ASSERTs of ringbuf_consume and ringbuf_release.
  predicate ConsumerAsserts(g: Ring, workers: nat, c: Consumer) {
    match c
    case Checking(v, i, ready) =>
      && v.next < g.space
      && g.written <= ready
      && (i >= workers && !(v.next < g.written) ==>
            g.written <= Min(ready, v.next) && Min(ready, v.next) - g.written <= g.space)
    case Limiting(v, ready) =>
      && v.next < ready
      && g.written <= Min(ready, Min(g.space, g.end))
      && Min(ready, Min(g.space, g.end)) - g.written <= g.space
    case Ready(avail) =>
      && avail <= g.space
      && g.written <= g.space && g.written <= g.end
      && g.written + avail <= g.space
    case _ => true
  }

  // What a worker has read and is about to store fits the packed words.
  predicate InRange(space: nat, p: Producer, seen: Seen) {
    && (seen.off < space || seen.off == OFF_MAX)
    && (p.Publishing? || p.Deciding? || p.Swapping? ==> p.word.off < space && Fits(p.word) && p.len <= space)
    && (p.Swapping? ==> Fits(p.target) && p.target.off <= space)
    && (p.Clearing? || p.StoringEnd? || p.Unlocking? ==> Fits(p.target))
  }

  predicate WorkersInRange(s: State)
    requires Sized(s)
  {
    forall w | 0 <= w < |s.producers| :: InRange(s.ring.space, s.producers[w], s.seen[w])
  }

  lemma DecideInRange(space: nat, word: Word, len: nat, written: nat)
    requires word.off < space < OFF_MASK && len <= space && Fits(word)
    ensures var d := Decide(space, word, len, written);
            word.off + len < TWO_63 && (d.Move? ==> Fits(d.target) && d.target.off <= space)
  {
  }

  lemma WorkerStaysInRange(s: State, a: Action)
    requires Inv(s) && WorkersInRange(s) && Enabled(s, a) && ByWorker(a)
    ensures InRange(s.ring.space, Apply(s, a).producers[a.w], Apply(s, a).seen[a.w])
  {
    hide Chain, Placed, Pending, Boundary, Hands, ConsumerOK, Owners, EndOK, Locked, Sound, Seasoned, LockHeld, Decide;
    var p := s.producers[a.w];
    assert WorkerOK(s.ring, a.w, p, s.seen[a.w], s.registered[a.w]);
    assert InRange(s.ring.space, p, s.seen[a.w]);
    if a.LoadWritten? {
      DecideInRange(s.ring.space, p.word, p.len, s.ring.written);
    }
  }

  // A step of a worker leaves the other workers alone.
  lemma OthersStay(s: State, a: Action, v: nat)
    requires Enabled(s, a) && v < |s.producers| && (ByWorker(a) ==> v != a.w)
    ensures var s' := Apply(s, a);
            && Sized(s') && |s'.producers| == |s.producers| && s'.ring.space == s.ring.space
            && s'.producers[v] == s.producers[v] && s'.seen[v] == s.seen[v]
  {
  }

  lemma StepStaysInRange(s: State, a: Action)
    requires Inv(s) && WorkersInRange(s) && Enabled(s, a) && Inv(Apply(s, a))
    ensures WorkersInRange(Apply(s, a))
  {
    hide Inv, Enabled, Apply, InRange;
    var s' := Apply(s, a);
    StepSize(s, a);
    forall v | 0 <= v < |s'.producers| ensures InRange(s'.ring.space, s'.producers[v], s'.seen[v]) {
      if ByWorker(a) && v == a.w {
        WorkerStaysInRange(s, a);
      } else {
        OthersStay(s, a, v);
      }
    }
  }

  lemma StepSize(s: State, a: Action)
    requires Enabled(s, a)
    ensures Sized(Apply(s, a)) && |Apply(s, a).producers| == |s.producers| && Apply(s, a).ring.space == s.ring.space
  {
  }

  lemma {:induction false} ReachableInRange(run: seq<State>, acts: seq<Action>, i: nat)
    requires IsRun(run, acts) && i < |run|
    ensures Inv(run[i]) && WorkersInRange(run[i])
  {
    ReachableGood(run, acts, i);
    if i > 0 {
      ReachableInRange(run, acts, i - 1);
      assert Step(run[i - 1], acts[i - 1], run[i]);
      StepStaysInRange(run[i - 1], acts[i - 1]);
    }
  }

  // In every run the fields of the packed words never carry into each other:
  // 'next', what workers read from it and what they will store there all fit.
  lemma PackingSound(run: seq<State>, acts: seq<Action>, i: nat, w: nat)
    requires IsRun(run, acts) && i < |run| && w < |run[i].producers|
    ensures var g, p := run[i].ring, run[i].producers[w];
            && Fits(g.next) && g.next.off <= g.space < OFF_MASK && (!g.next.lock ==> g.next.off < g.space)
            && (p.Swapping? ==> Fits(p.word) && Fits(p.target) && p.word.off + p.len < TWO_63)
            && (p.Unlocking? ==> Fits(p.target.(lock := false)))
  {
    ReachableInRange(run, acts, i);
    assert InRange(run[i].ring.space, run[i].producers[w], run[i].seen[w]);
  }

  lemma WorkerAssertsHold(s: State, w: nat)
    requires Inv(s) && WorkersInRange(s) && w < |s.producers|
    ensures WorkerAsserts(s.ring, s.producers[w], s.seen[w], s.registered[w])
  {
    hide Boundary, ConsumerOK, Owners, EndOK, Locked;
    var p := s.producers[w];
    assert WorkerOK(s.ring, w, p, s.seen[w], s.registered[w]);
    assert InRange(s.ring.space, p, s.seen[w]);
    if p.StoringEnd? || p.Holding? {
      assert s.ring.log[p.k].done || PendingOK(s.ring, s.ring.log[p.k]);
      assert PlacedAt(s.ring.log[p.k], s.ring.cur, s.ring.lag);
    }
  }

  lemma ConsumerAssertsHold(s: State)
    requires Inv(s)
    ensures ConsumerAsserts(s.ring, |s.producers|, s.consumer)
  {
  }

  // No ASSERT of acquire, produce, consume or release fails in any run.
  lemma AssertionsHold(run: seq<State>, acts: seq<Action>, i: nat)
    requires IsRun(run, acts) && i < |run|
    ensures Sized(run[i]) && forall w | 0 <= w < |run[i].producers| ::
              WorkerAsserts(run[i].ring, run[i].producers[w], run[i].seen[w], run[i].registered[w])
    ensures ConsumerAsserts(run[i].ring, |run[i].producers|, run[i].consumer)
  {
    ReachableInRange(run, acts, i);
    ConsumerAssertsHold(run[i]);
    forall w | 0 <= w < |run[i].producers|
      ensures WorkerAsserts(run[i].ring, run[i].producers[w], run[i].seen[w], run[i].registered[w])
    {
      WorkerAssertsHold(run[i], w);
    }
  }

  /* ----------------------- nothing before its produce --------------------- */

  // The step by which the owner of range k produces it.
  predicate ProducesRange(s: State, a: Action, k: nat) {
    Enabled(s, a) && a.Produce? && s.producers[a.w].k == k
  }

  lemma CommitIsProduce(s: State, a: Action, k: nat)
    requires AbsOp(s, a) == Q.Commit(k)
    ensures ProducesRange(s, a, k)
  {
  }

  // A range of which the consumer has released, or been given, any byte was
  // produced before.
  lemma GivenAfterProduce(run: seq<State>, acts: seq<Action>, m: nat, k: nat)
    requires IsRun(run, acts) && m <= |acts| && k < |run[m].ring.log|
    requires run[m].ring.log[k].base
           < run[m].ring.Released() + if run[m].consumer.Ready? then run[m].consumer.avail else 0
    ensures exists i | 0 <= i < m :: ProducesRange(run[i], acts[i], k)
  {
    var s, qs, ops := run[m], Queues(run), Ops(run, acts);
    ReachableGood(run, acts, m);
    assert s.ring.log[k].done || PendingOK(s.ring, s.ring.log[k]);
    RunRefines(run, acts);
    assert qs[m].items[k].done;
    Q.DoneWasCommitted(qs, ops, m, k);
    var i :| 0 <= i < m && ops[i] == Q.Commit(k);
    CommitIsProduce(run[i], acts[i], k);
  }

  /* --------------------------- no ABA on 'next' --------------------------- */

  // The order in which 'next' moves: laps first, then the offset.
  predicate NotBefore(g: Ring, g': Ring) {
    g.laps < g'.laps || (g.laps == g'.laps && g.next.off <= g'.next.off)
  }

  // Every successful CAS moves 'next' strictly forward; no other step moves its
  // counter or its offset; and no CAS succeeds while the lock bit is set.
  lemma NextMovesForward(s: State, a: Action)
    requires Inv(s) && FewWraps(s) && Enabled(s, a)
    ensures NotBefore(s.ring, Apply(s, a).ring)
    ensures a.CasOk? ==> !s.ring.next.lock && !NotBefore(Apply(s, a).ring, s.ring)
    ensures !a.CasOk? ==> Apply(s, a).ring.laps == s.ring.laps && Apply(s, a).ring.next.off == s.ring.next.off
    ensures !a.CasOk? && !s.ring.next.lock ==> Apply(s, a).ring.next == s.ring.next
  {
    hide Chain, Placed, Pending, Boundary, Owners, Locked, EndOK, ConsumerOK;
    if ByWorker(a) {
      assert WorkerOK(s.ring, a.w, s.producers[a.w], s.seen[a.w], s.registered[a.w]);
      if a.CasOk? {
        var p := s.producers[a.w];
        assert s.ring.laps < ReadLap(p, s.ring.laps) + WRAP_MODULUS;
        RingProducerSteps.CasSawCurrent(s.ring, p.word, p.lap);
      }
    }
  }

  // Two readings of 'next' are the same word exactly when the offsets agree and
  // the laps differ by a multiple of 2^31: a CAS needs the window to be shorter.
  lemma CounterCollides(off: nat, lap: nat, off': nat, lap': nat)
    requires lap <= lap'
    ensures Word(off, lap % WRAP_MODULUS, false) == Word(off', lap' % WRAP_MODULUS, false)
       <==> off == off' && (lap' - lap) % WRAP_MODULUS == 0
  {
    var m := WRAP_MODULUS;
    assert lap == lap / m * m + lap % m && lap' == lap' / m * m + lap' % m;
  }

  // Between a worker's read of 'next' and its CAS, the worker keeps what it read.
  predicate KeepsRead(p: Producer, word: Word, lap: nat) {
    (p.Publishing? || p.Deciding? || p.Swapping?) ==> p.word == word && p.lap == lap
  }

  lemma {:induction false} ReadKept(run: seq<State>, acts: seq<Action>, i: nat, m: nat, w: nat)
    requires IsRun(run, acts) && i < m <= |acts| && acts[i] == LoadNext(w)
    requires forall n | i < n < m :: acts[n] != LoadNext(w)
    ensures w < |run[m].producers| && KeepsRead(run[m].producers[w], run[i].ring.next, run[i].ring.laps)
  {
    assert Step(run[m - 1], acts[m - 1], run[m]);
    if i + 1 < m {
      ReadKept(run, acts, i, m - 1, w);
    }
  }

  lemma RunMovesForward(run: seq<State>, acts: seq<Action>, i: nat)
    requires IsRun(run, acts) && i < |acts|
    ensures NotBefore(run[i].ring, run[i + 1].ring)
    ensures NotBefore(run[i + 1].ring, run[i].ring) && !run[i].ring.next.lock ==>
              run[i + 1].ring.laps == run[i].ring.laps && run[i + 1].ring.next == run[i].ring.next
  {
    ReachableGood(run, acts, i);
    assert Step(run[i], acts[i], run[i + 1]);
    NextMovesForward(run[i], acts[i]);
  }

  lemma {:induction false} NextMonotone(run: seq<State>, acts: seq<Action>, i: nat, j: nat)
    requires IsRun(run, acts) && i <= j <= |acts|
    ensures NotBefore(run[i].ring, run[j].ring)
  {
    if i < j {
      NextMonotone(run, acts, i, j - 1);
      RunMovesForward(run, acts, j - 1);
    }
  }

  // A CAS succeeds only if 'next' has not changed since the worker read it.
  lemma CasMeansUnchanged(run: seq<State>, acts: seq<Action>, i: nat, j: nat, m: nat, w: nat)
    requires IsRun(run, acts) && i < m <= j < |acts|
    requires acts[i] == LoadNext(w) && acts[j] == CasOk(w) && forall n | i < n < j :: acts[n] != LoadNext(w)
    ensures run[m].ring.next == run[i].ring.next && run[m].ring.laps == run[i].ring.laps
  {
    ReadKept(run, acts, i, j, w);
    ReachableGood(run, acts, j);
    assert Step(run[j], acts[j], run[j + 1]);
    var s := run[j];
    assert WorkerOK(s.ring, w, s.producers[w], s.seen[w], s.registered[w]);
    assert s.ring.laps < ReadLap(s.producers[w], s.ring.laps) + WRAP_MODULUS;
    RingProducerSteps.CasSawCurrent(s.ring, s.producers[w].word, s.producers[w].lap);
    StaysPut(run, acts, i, m, j);
  }

  // If 'next' is back where it was, it never moved.
  lemma {:induction false} StaysPut(run: seq<State>, acts: seq<Action>, i: nat, m: nat, j: nat)
    requires IsRun(run, acts) && i <= m <= j <= |acts|
    requires !run[i].ring.next.lock && run[j].ring.next == run[i].ring.next && run[j].ring.laps == run[i].ring.laps
    ensures run[m].ring.next == run[i].ring.next && run[m].ring.laps == run[i].ring.laps
  {
    if i < m {
      StaysPut(run, acts, i, m - 1, j);
      RunMovesForward(run, acts, m - 1);
      NextMonotone(run, acts, m, j);
    }
  }

  // Without a successful CAS, 'next' stays as it is.
  lemma {:induction false} NextStays(run: seq<State>, acts: seq<Action>, i: nat, j: nat)
    requires IsRun(run, acts) && i <= j <= |acts| && !run[i].ring.next.lock
    requires forall n | i <= n < j :: !acts[n].CasOk?
    ensures run[j].ring.next == run[i].ring.next
  {
    hide Inv, Enabled, Apply, FewWraps;
    if i < j {
      NextStays(run, acts, i, j - 1);
      ReachableGood(run, acts, j - 1);
      assert Step(run[j - 1], acts[j - 1], run[j]);
      NextMovesForward(run[j - 1], acts[j - 1]);
    }
  }

  // Lock-freedom: a worker finds 'next' changed at its CAS only if some worker
  // acquired a range since it read 'next'.
  lemma FailedCasMeansProgress(run: seq<State>, acts: seq<Action>, i: nat, j: nat, w: nat)
    requires IsRun(run, acts) && i < j <= |acts| && acts[i] == LoadNext(w)
    requires forall n | i < n < j :: acts[n] != LoadNext(w)
    requires w < |run[j].producers| && run[j].producers[w].Swapping? && run[j].ring.next != run[j].producers[w].word
    ensures exists n | i < n < j :: acts[n].CasOk?
  {
    assert Step(run[i], acts[i], run[i + 1]);
    ReadKept(run, acts, i, j, w);
    if forall n | i < n < j :: !acts[n].CasOk? {
      NextStays(run, acts, i, j);
    }
  }

  /* ---------------------- the retry, and termination ---------------------- */

  predicate Retried(c: Consumer) {
    match c
    case Ready(avail) => true
    case Reading(retried) => retried
    case Checking(v, i, ready) => v.retried
    case Observing(v, i, ready) => v.retried
    case Limiting(v, ready) => v.retried
    case TestingEnd(retried) => retried
    case ClearingEnd(retried) => retried
    case Resetting(retried) => retried
  }

  lemma {:induction false} RetriedUntilCall(run: seq<State>, acts: seq<Action>, i: nat, m: nat)
    requires IsRun(run, acts) && i < m <= |acts| && acts[i] == ResetWritten
    requires forall n | i < n < m :: acts[n] != CallConsume
    ensures Retried(run[m].consumer)
  {
    hide Enabled, Apply, FewWraps;
    assert Step(run[m - 1], acts[m - 1], run[m]);
    if i + 1 < m {
      RetriedUntilCall(run, acts, i, m - 1);
    }
    RetriedStep(run[m - 1], acts[m - 1]);
  }

  lemma RetriedStep(s: State, a: Action)
    requires Enabled(s, a) && (a == ResetWritten || (Retried(s.consumer) && a != CallConsume))
    ensures Retried(Apply(s, a).consumer)
  {
  }

  lemma ResetOnFirstPass(s: State)
    requires Inv(s) && Enabled(s, ResetWritten)
    ensures !Retried(s.consumer)
  {
  }

  // Within one call of consume the reset, and so the jump back, happens once.
  lemma RetryAtMostOnce(run: seq<State>, acts: seq<Action>, i: nat, j: nat)
    requires IsRun(run, acts) && i < j < |acts| && acts[i] == acts[j] == ResetWritten
    ensures exists n | i < n < j :: acts[n] == CallConsume
  {
    ReachableGood(run, acts, j);
    assert Step(run[j], acts[j], run[j + 1]);
    ResetOnFirstPass(run[j]);
    if forall n | i < n < j :: acts[n] != CallConsume {
      RetriedUntilCall(run, acts, i, j);
    }
  }

  // How many steps consume has left at most, spinning aside.
  function StepsLeft(workers: nat, c: Consumer): nat {
    var call := 2 * workers + 6;
    match c
    case Ready(avail) => 0
    case Reading(retried) => call + if retried then 0 else call
    case Checking(v, i, ready) => 5 + (if i < workers then 2 * (workers - i) else 0) + if v.retried then 0 else call
    case Observing(v, i, ready) => 4 + (if i < workers then 2 * (workers - i) else 0) + if v.retried then 0 else call
    case Limiting(v, ready) => 4 + if v.retried then 0 else call
    case TestingEnd(retried) => 3 + call
    case ClearingEnd(retried) => 2 + call
    case Resetting(retried) => 1 + call
  }

  lemma ConsumeTerminates(s: State, a: Action)
    requires Inv(s) && Enabled(s, a) && !ByWorker(a) && !a.CallConsume? && !a.Release?
    ensures StepsLeft(|s.producers|, Apply(s, a).consumer) < StepsLeft(|s.producers|, s.consumer)
  {
    hide Geometry, Workers, Owners, Locked, EndOK;
  }

  /* ------------------------------ no deadlock ----------------------------- */

  // The next step of a worker, in or out of an operation.
  function NextStep(s: State, w: nat): Action
    requires w < |s.producers|
  {
    match s.producers[w]
    case Unregistered(_) => StoreClear(w)
    case Registering => StoreRegistered(w)
    case Idle => Unregister(w)
    case Loading(_) => LoadNext(w)
    case Publishing(_, _, _) => StoreSeen(w)
    case Deciding(_, _, _) => LoadWritten(w)
    case Refusing => Refuse(w)
    case Swapping(_, word, _, _) => if s.ring.next == word then CasOk(w) else CasFail(w)
    case Clearing(_, _, _) => ClearSeen(w)
    case StoringEnd(_, _, _) => StoreEnd(w)
    case Unlocking(_, _) => Unlock(w)
    case Holding(_) => Produce(w)
  }

  function StepsToUnlock(p: Producer): nat {
    match p
    case Clearing(_, _, target) => if target.lock then 3 else 0
    case StoringEnd(_, _, _) => 2
    case Unlocking(_, _) => 1
    case _ => 0
  }

  // A worker waits only for the lock bit of 'next'.
  lemma WorkerWaitsForLock(s: State, w: nat)
    requires Inv(s) && w < |s.producers|
    ensures Enabled(s, NextStep(s, w)) <==> !(s.producers[w].Loading? && s.ring.next.lock)
  {
    hide Geometry, ConsumerOK, Owners, EndOK;
    assert WorkerOK(s.ring, w, s.producers[w], s.seen[w], s.registered[w]);
  }

  // The worker that set the lock bit never waits, and clears it within three
  // steps of its own.
  lemma LockerNeverWaits(s: State)
    requires Inv(s) && s.ring.next.lock
    ensures var l := s.ring.locker;
            && l < |s.producers| && Enabled(s, NextStep(s, l))
            && var s' := Apply(s, NextStep(s, l));
               l < |s'.producers| && StepsToUnlock(s'.producers[l]) < StepsToUnlock(s.producers[l]) <= 3
               && (s'.ring.next.lock <==> StepsToUnlock(s'.producers[l]) > 0)
  {
    hide Geometry, ConsumerOK, Owners, EndOK;
    var l := s.ring.locker;
    assert WorkerOK(s.ring, l, s.producers[l], s.seen[l], s.registered[l]);
  }

  function NextConsumerStep(s: State): Action {
    match s.consumer
    case Ready(_) => CallConsume
    case Reading(_) => ReadNext
    case Checking(_, i, _) => if i < |s.producers| then CheckWorker else EndScan
    case Observing(_, _, _) => ObserveWorker
    case Limiting(_, _) => ReadEnd
    case TestingEnd(_) => TestEnd
    case ClearingEnd(_) => ClearEnd
    case Resetting(_) => ResetWritten
  }

  // The consumer waits only for the lock bit of 'next', or for a worker that is
  // in the middle of acquire; that worker can take its step, or waits itself
  // for the lock bit.
  lemma ConsumerWaitsForWorker(s: State)
    requires Inv(s)
    ensures var c := s.consumer;
            && (c.Observing? ==> c.i < |s.producers|)
            && (Enabled(s, NextConsumerStep(s)) <==> !(c.Reading? && s.ring.next.lock) && !(c.Observing? && s.seen[c.i].lock))
            && (c.Observing? && s.seen[c.i].lock ==>
                  !s.producers[c.i].Unregistered? && !s.producers[c.i].Idle? && !s.producers[c.i].Holding?
                  && (Enabled(s, NextStep(s, c.i)) || s.ring.next.lock))
  {
    ConsumerAssertsHold(s);
    if s.consumer.Observing? {
      var i := s.consumer.i;
      WorkerWaitsForLock(s, i);
      assert WorkerOK(s.ring, i, s.producers[i], s.seen[i], s.registered[i]);
    }
  }

  /* --------------------- what can happen, and when ------------------------ */

  // A step of a worker depends on its own program point only, but for the two
  // values of 'next' that it waits for: it can begin an acquire at any time,
  // whatever the consumer and the other workers are doing, and a compare-and-swap
  // can also fail for no reason.
  lemma AcquireStepsOffered(s: State, w: nat, len: nat)
    requires Inv(s) && w < |s.producers|
    ensures var p := s.producers[w];
            && (Enabled(s, CallAcquire(w, len)) <==> p.Idle? && 0 < len <= s.ring.space)
            && (Enabled(s, LoadNext(w)) <==> p.Loading? && !s.ring.next.lock)
            && (Enabled(s, StoreSeen(w)) <==> p.Publishing?)
            && (Enabled(s, LoadWritten(w)) <==> p.Deciding?)
            && (Enabled(s, Refuse(w)) <==> p.Refusing?)
            && (Enabled(s, CasOk(w)) <==> p.Swapping? && s.ring.next == p.word)
            && (Enabled(s, CasFail(w)) <==> p.Swapping?)
  {
    hide Geometry, Workers, Owners, ConsumerOK, EndOK, Locked;
  }

  // So do the steps after a successful CAS, and those of registration.
  lemma OtherStepsOffered(s: State, w: nat)
    requires Inv(s) && w < |s.producers|
    ensures var p := s.producers[w];
            && (Enabled(s, ClearSeen(w)) <==> p.Clearing?)
            && (Enabled(s, StoreEnd(w)) <==> p.StoringEnd?)
            && (Enabled(s, Unlock(w)) <==> p.Unlocking?)
            && (Enabled(s, Produce(w)) <==> p.Holding?)
            && (Enabled(s, StoreClear(w)) <==> p.Unregistered?)
            && (Enabled(s, StoreRegistered(w)) <==> p.Registering?)
            && (Enabled(s, Unregister(w)) <==> p.Idle?)
  {
    hide Geometry, Workers, Owners, ConsumerOK, EndOK, Locked;
    if s.producers[w].Holding? {
      FillEnabled(s, w, 0, 0);
    }
  }

  // The consumer may release what it was given in any parts, at any time before
  // its next call: each release advances by its bytes and leaves the rest.
  lemma ReleaseOffered(s: State, n: nat)
    requires Inv(s)
    ensures Enabled(s, Release(n)) <==> s.consumer.Ready? && n <= s.consumer.avail
    ensures Enabled(s, CallConsume) <==> s.consumer.Ready?
    ensures Enabled(s, Release(n)) ==>
              var s' := Apply(s, Release(n));
              && s'.ring.Released() == s.ring.Released() + n
              && s'.consumer == Ready(s.consumer.avail - n)
              && n <= |Granting(s)| == s.consumer.avail
              && Granting(s') == Granting(s)[n..]
  {
    hide Chain, Placed, Pending, Boundary, Workers, Owners, EndOK, Locked;
    if s.consumer.Ready? && n <= s.consumer.avail {
      GrantFits(s.ring, s.consumer.avail);
      RingConsumerSteps.FreedPosition(s.ring, n);
    }
  }

  // A CAS succeeds exactly on the offset it read, unlocked, a multiple of 2^31
  // laps later.
  lemma CasSucceedsExactly(s: State, w: nat)
    requires Inv(s) && w < |s.producers| && s.producers[w].Swapping?
    ensures var g, p := s.ring, s.producers[w];
            && p.lap <= g.laps
            && (Enabled(s, CasOk(w)) <==>
                  g.next.off == p.word.off && !g.next.lock && (g.laps - p.lap) % 0x8000_0000 == 0)
  {
    hide Chain, Placed, Pending, Boundary, Owners, ConsumerOK, EndOK, Locked;
    var g, p := s.ring, s.producers[w];
    assert WorkerOK(g, w, p, s.seen[w], s.registered[w]);
    CounterCollides(p.word.off, p.lap, g.next.off, g.laps);
  }

  // Nothing but that window keeps a step out of a run.
  lemma StepTaken(s: State, a: Action)
    requires Enabled(s, a)
    requires forall w | 0 <= w < |s.producers| ::
               (s.producers[w].Publishing? || s.producers[w].Deciding? || s.producers[w].Swapping?)
               ==> s.ring.laps < s.producers[w].lap + 0x8000_0000
    ensures Step(s, a, Apply(s, a))
  {
  }
}
