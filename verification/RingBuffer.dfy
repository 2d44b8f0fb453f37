/**
The ring buffer as it is programmed: packed words in fields that are updated in
place.  Each method runs without interruption (interruptions are the subject of
the transition system); `model` is the state of the transition system that the
fields stand for, and each method takes it through the steps in `acts`.
*/
module RingBuffers {
  import opened Integers
  import opened PackedWords
  import opened RingMachine
  import opened RingInvariant
  import opened RingRefinement
  import opened RingRuns
  import opened RingOperations
  import opened RingSequential

  class Worker {
    var seenOff: nat
    var registered: bool

    constructor ()
      ensures seenOff == 0 && !registered
    {
      seenOff, registered := 0, false;
    }
  }

  function PackSeen(x: Seen): nat {
    x.off + if x.lock then WRAP_LOCK_BIT else 0
  }

  class RingBuffer {
    var space: nat
    var next: nat
    var end: nat
    var written: nat
    const workers: seq<Worker>
    ghost var model: State

    // The fields show the state m.
    ghost predicate Shows(m: State)
      reads this, workers
    {
      && (forall i, j | 0 <= i < j < |workers| :: workers[i] != workers[j])
      && |workers| == |m.producers| == |m.seen| == |m.registered|
      && space == m.ring.space && end == m.ring.end && written == m.ring.written
      && Fits(m.ring.next) && next == Pack(m.ring.next)
      && (forall i | 0 <= i < |workers| ::
            workers[i].seenOff == PackSeen(m.seen[i]) && workers[i].registered == m.registered[i])
    }

    ghost predicate Valid()
      reads this, workers
    {
      Shows(model) && Good(model) && Settled(model)
    }

    // calloc of the structure with its workers: all zero.
    constructor (nworkers: nat)
      ensures fresh(workers) && |workers| == nworkers
      ensures space == 0 && next == 0 && end == 0 && written == 0
      ensures forall i, j | 0 <= i < j < |workers| :: workers[i] != workers[j]
      ensures forall i | 0 <= i < |workers| :: workers[i].seenOff == 0 && !workers[i].registered
    {
      var ws: seq<Worker> := [];
      while |ws| < nworkers
        invariant |ws| <= nworkers && fresh(ws)
        invariant forall i, j | 0 <= i < j < |ws| :: ws[i] != ws[j]
        invariant forall i | 0 <= i < |ws| :: ws[i].seenOff == 0 && !ws[i].registered
      {
        var w := new Worker();
        ws := ws + [w];
      }
      workers := ws;
      space, next, end, written := 0, 0, 0, 0;
    }

    // ringbuf_setup.  `mem` is the buffer the offsets will refer to.
    method Setup(length: nat, ghost mem: seq<Byte>) returns (rc: int)
      requires |mem| == length
      requires forall i, j | 0 <= i < j < |workers| :: workers[i] != workers[j]
      modifies this, workers
      ensures rc == if length >= OFF_MASK then -1 else 0
      ensures rc == -1 ==> unchanged(this) && forall w <- workers :: unchanged(w)
      ensures rc == 0 ==> space == length && next == 0 && end == OFF_MAX && written == 0
      ensures rc == 0 ==> forall i | 0 <= i < |workers| :: workers[i].seenOff == 0 && !workers[i].registered
      ensures rc == 0 && length > 0 ==> Valid() && Init(model) && model.ring.space == length && model.ring.mem == mem
    {
      if length >= OFF_MASK {
        return -1;
      }
      next, written := 0, 0;
      for i := 0 to |workers|
        invariant forall j | 0 <= j < i :: workers[j].seenOff == 0 && !workers[j].registered
        invariant next == 0 && written == 0
      {
        workers[i].seenOff, workers[i].registered := 0, false;
      }
      space := length;
      end := OFF_MAX;
      model := InitialState(length, |workers|, mem);
      if length > 0 {
        ReachableGood([model], [], 0);
      }
      return 0;
    }

    // ringbuf_register.
    method Register(i: nat) returns (ghost acts: seq<Action>)
      requires Valid() && i < |workers| && model.producers[i].Unregistered?
      modifies this`model, workers[i]
      ensures Valid() && model == AfterRegister(old(model), i)
      ensures Leads(old(model), acts, model)
    {
      workers[i].seenOff := OFF_MAX;
      workers[i].registered := true;
      acts := RegisterLeads(model, i);
      model := AfterRegister(model, i);
    }

    // ringbuf_unregister.
    method Unregister(i: nat) returns (ghost acts: seq<Action>)
      requires Valid() && i < |workers| && model.producers[i].Idle?
      modifies this`model, workers[i]
      ensures Valid() && Enabled(old(model), Action.Unregister(i)) && model == Apply(old(model), Action.Unregister(i))
      ensures Leads(old(model), acts, model)
    {
      workers[i].registered := false;
      acts := OneStepLeads(model, Action.Unregister(i));
      model := Apply(model, Action.Unregister(i));
    }

    // ringbuf_acquire.
    method Acquire(i: nat, len: nat) returns (off: int, ghost acts: seq<Action>)
      requires Valid() && i < |workers| && model.producers[i].Idle? && 0 < len <= space
      modifies this`next, this`end, this`model, workers[i]
      ensures Valid() && Acquires(old(model), model, i, len, off)
      ensures model == AfterAcquire(old(model), i, len)
      ensures Leads(old(model), acts, model)
    {
      hide Geometry, Workers, Owners, Contents, Leads, Acquires;
      acts := AcquireLeads(model, i, len);
      AcquireFacts(model, i, len);
      AcquireAnswers(model, i, len);
      off := AcquireFields(i, len, model);
      model := AfterAcquire(model, i, len);
    }

    // The code of ringbuf_acquire: what it does to the fields when they show s.
    // The compare-and-swap succeeds at the first attempt.
    method AcquireFields(i: nat, len: nat, ghost s: State) returns (off: int)
      requires Shows(s) && i < |workers| && AcquireReady(s, i, len)
      modifies this`next, this`end, workers[i]
      ensures off == AcquireResult(s.ring, len)
      ensures Shows(AfterAcquire(s, i, len))
    {
      hide And, Or;
      ghost var g := s.ring;
      var w := workers[i];
      var target, nextOff := 0, 0;
      var swapped := false;
      while !swapped
        invariant workers[i] == w && w.registered == s.registered[i] && end == g.end
        invariant !swapped ==> Shows(s)
        invariant swapped ==> Decide(g.space, g.next, len, g.written).Move? && nextOff == g.next.off
        invariant swapped ==> target == next == Pack(Decide(g.space, g.next, len, g.written).target)
        invariant swapped ==> w.seenOff == g.next.off + WRAP_LOCK_BIT
        decreases !swapped
      {
        var seen := next;
        FieldsOfPack(g.next);
        nextOff := OffsetBits(seen);
        LockSet(nextOff);
        w.seenOff := Or(nextOff, WRAP_LOCK_BIT);
        var ok;
        ok, target := ComputeTarget(space, seen, len, written, g.next);
        if !ok {
          w.seenOff := OFF_MAX;
          return -1;
        }
        swapped := next == seen;
        if swapped {
          next := target;
        }
      }
      LockCleared(w.seenOff);
      w.seenOff := And(w.seenOff, Not(WRAP_LOCK_BIT));
      if LockBits(target) != 0 {
        assert written <= nextOff && end == OFF_MAX;
        end := nextOff;
        nextOff := 0;
        next := And(target, Not(WRAP_LOCK_BIT));
      }
      assert OffsetBits(target) <= space;
      off := nextOff;
    }

    // ringbuf_produce.
    method Produce(i: nat) returns (ghost acts: seq<Action>)
      requires Valid() && i < |workers| && model.producers[i].Holding?
      modifies this`model, workers[i]
      ensures Valid() && Enabled(old(model), Action.Produce(i)) && model == AfterProduce(old(model), i)
      ensures Leads(old(model), acts, model)
    {
      hide Inv, Contents, Leads;
      HolderShowsOffset(model, i);
      acts := OneStepLeads(model, Action.Produce(i));
      ProduceFields(i, model, AfterProduce(model, i));
      model := AfterProduce(model, i);
    }

    method ProduceFields(i: nat, ghost s: State, ghost s': State)
      requires Shows(s) && i < |workers| && s.registered[i] && !s.seen[i].lock && s.seen[i].off < s.ring.space < OFF_MAX
      requires s'.ring == s.ring.(log := s'.ring.log) && s'.seen == s.seen[i := CLEAR]
      requires s'.registered == s.registered && |s'.producers| == |s.producers|
      modifies workers[i]
      ensures Shows(s')
    {
      assert workers[i].registered && workers[i].seenOff != OFF_MAX;
      workers[i].seenOff := OFF_MAX;
    }

    // ringbuf_consume.  `offset0` is what *offset holds before the call.
    method Consume(offset0: nat) returns (n: nat, offset: nat, ghost acts: seq<Action>)
      requires Valid()
      modifies this`end, this`written, this`model
      ensures Valid() && model == AfterConsume(old(model)) && n == Available(Followed(old(model).ring))
      ensures offset == OffsetAfter(old(model).ring, offset0)
      ensures n > 0 ==> offset == written == model.ring.written && offset + n <= space
      ensures Leads(old(model), acts, model)
    {
      hide Inv, Contents, Leads, Available, Followed;
      acts := ConsumeLeads(model);
      ConsumeFacts(model);
      n, offset := ConsumeFields(offset0, model);
      model := AfterConsume(model);
    }

    // The loop over the workers in ringbuf_consume.
    method ScanWorkers(written: nat, ghost s: State) returns (ready: nat)
      requires Shows(s) && Stable(s) && written <= OFF_MAX
      ensures ready == Scan(written, s.seen, s.registered, |s.producers|) >= written
    {
      ready := OFF_MAX;
      for i := 0 to |workers|
        invariant ready == Scan(written, s.seen, s.registered, i) >= written
      {
        if workers[i].registered {
          var seenOff := workers[i].seenOff;
          if seenOff >= written {
            ready := Min(seenOff, ready);
          }
        }
      }
    }

    // The code of ringbuf_consume; the retry is the second round of the loop.
    method ConsumeFields(offset0: nat, ghost s: State) returns (n: nat, offset: nat)
      requires Shows(s) && ConsumeReady(s)
      modifies this`end, this`written
      ensures Shows(s.(ring := Followed(s.ring))) && n == Available(Followed(s.ring))
      ensures offset == OffsetAfter(s.ring, offset0)
      ensures n > 0 ==> offset == written
    {
      hide Available, Fits, And, FirstOpen, Scan;
      var done := false;
      n, offset := 0, offset0;
      var written := this.written;
      ghost var t := s;
      while !done
        invariant Shows(t) && written == t.ring.written
        invariant t == s || (CanFollow(s.ring) && t == s.(ring := Followed(s.ring)))
        invariant !done ==> offset == offset0
        invariant done ==> t.ring == Followed(s.ring) && n == Available(t.ring) && (n > 0 ==> offset == written)
        invariant done ==> offset == if written == t.ring.next.off then offset0 else written
        decreases !done, t == s
      {
        FieldsOfPack(t.ring.next);
        var next := OffsetBits(this.next);
        if written == next {
          n, done := 0, true;
        } else {
          var ready := ScanWorkers(written, t);
          if next < written {
            var end := Min(space, this.end);
            if ready == OFF_MAX && written == end {
              if this.end != OFF_MAX {
                this.end := OFF_MAX;
              }
              written := 0;
              this.written := written;
              t := s.(ring := Followed(s.ring));
              continue;
            }
            assert ready > next;
            ready := Min(ready, end);
            assert ready >= written;
          } else {
            ready := Min(ready, next);
          }
          n, offset, done := ready - written, written, true;
          assert ready >= written && n <= space;
        }
      }
    }

    // ringbuf_release, of at most what the last consume returned.
    method Release(nbytes: nat) returns (ghost acts: seq<Action>)
      requires Valid() && nbytes <= model.consumer.avail
      modifies this`written, this`model
      ensures Valid() && Enabled(old(model), Action.Release(nbytes))
      ensures model == Apply(old(model), Action.Release(nbytes))
      ensures Leads(old(model), acts, model)
    {
      hide Inv, Contents, Leads;
      var nwritten := written + nbytes;
      ReleaseFacts(model, nbytes);
      assert written <= space && written <= end && nwritten <= space;
      written := if nwritten == space then 0 else nwritten;
      acts := OneStepLeads(model, Action.Release(nbytes));
      model := Apply(model, Action.Release(nbytes));
    }
  }

  lemma HolderShowsOffset(s: State, i: nat)
    requires Inv(s) && i < |s.producers| && s.producers[i].Holding?
    ensures s.registered[i] && !s.seen[i].lock && s.seen[i].off < s.ring.space < OFF_MAX
    ensures Enabled(s, Produce(i))
  {
    assert WorkerOK(s.ring, i, s.producers[i], s.seen[i], s.registered[i]);
    var r := s.ring.log[s.producers[i].k];
    assert r.done || PendingOK(s.ring, r);
    assert PlacedAt(r, s.ring.cur, s.ring.lag);
  }

  lemma ReleaseFacts(s: State, n: nat)
    requires Inv(s) && Settled(s) && n <= s.consumer.avail
    ensures s.ring.written <= s.ring.space && s.ring.written <= s.ring.end && s.ring.written + n <= s.ring.space
  {
    CalmUnlocked(s);
  }

  // What a pass of ringbuf_consume over s relies on, in the lap of the
  // producers and a lap behind.
  predicate SameLapReady(s: State)
    requires Sized(s)
  {
    var g := s.ring;
    && g.written <= g.next.off < g.space && g.written <= Min(ScanAll(s), g.next.off)
    && Min(ScanAll(s), g.next.off) - g.written == Available(g)
  }

  predicate LapBehindReady(s: State)
    requires Sized(s)
  {
    var g, end := s.ring, Min(s.ring.space, s.ring.end);
    && g.next.off < g.written <= Min(ScanAll(s), end)
    && Min(ScanAll(s), end) - g.written == Available(g)
    && (ScanAll(s) == OFF_MAX && g.written == end <==> CanFollow(g))
  }

  predicate ConsumeReady(s: State) {
    && Sized(s) && Stable(s) && Fits(s.ring.next) && s.ring.written <= OFF_MAX
    && (if s.ring.Behind() then LapBehindReady(s) else SameLapReady(s))
    && (CanFollow(s.ring) ==> SameLapReady(s.(ring := Followed(s.ring))))
  }

  lemma ConsumeFacts(s: State)
    requires Good(s) && Settled(s)
    ensures ConsumeReady(s)
    ensures Followed(s.ring).written + Available(Followed(s.ring)) <= s.ring.space
  {
    var acts := ConsumeLeads(s);
    CalmStable(s);
    PassFacts(s);
    if CanFollow(s.ring) {
      FollowedFacts(s, AfterConsume(s));
    }
    ReleaseFacts(AfterConsume(s), AfterConsume(s).consumer.avail);
  }

  lemma PassFacts(s: State)
    requires Inv(s) && Settled(s)
    ensures Fits(s.ring.next) && s.ring.written <= OFF_MAX
    ensures if s.ring.Behind() then LapBehindReady(s) else SameLapReady(s)
  {
    if s.ring.Behind() {
      LapBehindAvailable(s);
    } else {
      SameLapAvailable(s);
    }
  }

  lemma FollowedFacts(s: State, s': State)
    requires Sized(s) && CanFollow(s.ring) && s' == AfterConsume(s) && Inv(s') && Settled(s')
    ensures SameLapReady(s.(ring := Followed(s.ring)))
  {
    SameLapAvailable(s');
  }

  // The facts about s that the code of ringbuf_acquire relies on.
  predicate AcquireReady(s: State, i: nat, len: nat) {
    var g := s.ring;
    && Sized(s) && i < |s.producers| && s.seen[i] == CLEAR
    && g.next.off < g.space < OFF_MASK && g.written < TWO_32 && Fits(g.next) && !g.next.lock && 0 < len <= g.space
    && (Decide(g.space, g.next, len, g.written).Move? ==> TargetMasks(g, len))
  }

  // What the masks make of a target, and the assertions of the wrap-around.
  predicate TargetMasks(g: Ring, len: nat)
    requires Decide(g.space, g.next, len, g.written).Move?
  {
    var w := Decide(g.space, g.next, len, g.written).target;
    && Fits(w) && OffsetBits(Pack(w)) <= g.space
    && (LockBits(Pack(w)) != 0 <==> w.lock)
    && And(Pack(w), Not(WRAP_LOCK_BIT)) == Pack(w.(lock := false))
    && (w.lock ==> g.written <= g.next.off && g.end == OFF_MAX)
  }

  lemma TargetMasksHold(g: Ring, len: nat)
    requires Geometry(g) && EndOK(g, false) && !g.next.lock && 0 < len <= g.space
    requires Decide(g.space, g.next, len, g.written).Move?
    ensures TargetMasks(g, len)
  {
    var w := Decide(g.space, g.next, len, g.written).target;
    TargetFits(g, len);
    FieldsOfPack(w);
    ClearPack(w);
  }

  lemma TargetFits(g: Ring, len: nat)
    requires Shape(g) && Hands(g) && EndOK(g, false) && !g.next.lock && 0 < len <= g.space
    requires Decide(g.space, g.next, len, g.written).Move?
    ensures var w := Decide(g.space, g.next, len, g.written).target;
            Fits(w) && w.off <= g.space && (w.lock ==> g.written <= g.next.off && g.end == OFF_MAX)
  {
  }

  lemma ClearPack(w: Word)
    requires Fits(w)
    ensures And(Pack(w), Not(WRAP_LOCK_BIT)) == Pack(w.(lock := false))
  {
    var low := Pack(w.(lock := false));
    FieldsOfPack(w);
    LockCleared(Pack(w));
    Split63(Pack(w), low, if w.lock then 1 else 0);
  }

  lemma AcquireFacts(s: State, i: nat, len: nat)
    requires Inv(s) && Settled(s) && i < |s.producers| && s.producers[i].Idle? && 0 < len <= s.ring.space
    ensures AcquireReady(s, i, len)
  {
    CalmUnlocked(s);
    assert WorkerOK(s.ring, i, s.producers[i], s.seen[i], s.registered[i]);
    if Decide(s.ring.space, s.ring.next, len, s.ring.written).Move? {
      TargetMasksHold(s.ring, len);
    }
  }

  // The body of the loop of ringbuf_acquire between the load of 'written' and
  // the compare-and-swap.
  method ComputeTarget(space: nat, seen: nat, len: nat, written: nat, ghost word: Word) returns (ok: bool, target: nat)
    requires Fits(word) && !word.lock && seen == Pack(word) && word.off < space
    requires 0 < len <= space < OFF_MASK && written < TWO_32
    ensures ok == Decide(space, word, len, written).Move?
    ensures ok ==> target == Pack(Decide(space, word, len, written).target)
  {
    hide And, Or;
    FieldsOfPack(word);
    var next := OffsetBits(seen);
    target := next + len;
    if next < written && target >= written {
      return false, target;
    }
    if target >= space {
      var exceed := target > space;
      LockSet(len);
      target := if exceed then Or(WRAP_LOCK_BIT, len) else 0;
      ghost var off := if exceed then len else 0;
      OffsetOfTarget(off, exceed);
      if OffsetBits(target) >= written {
        return false, target;
      }
      WrapIncrSteps(word);
      CounterJoined(Word(off, (word.wrap + 1) % WRAP_MODULUS, exceed));
      target := Or(target, WrapIncr(CounterBits(seen)));
    } else {
      CounterJoined(Word(target, word.wrap, false));
      target := Or(target, CounterBits(seen));
    }
    ok := true;
  }

  function InitialState(length: nat, workers: nat, mem: seq<Byte>): State {
    State(Ring(length, Word(0, 0, false), OFF_MAX, 0, mem, 0, 0, 0, 0, []),
          seq(workers, i => Seen(0, false)), seq(workers, i => false),
          seq(workers, i => Unregistered(true)), Ready(0))
  }

  lemma OffsetOfTarget(off: nat, lock: bool)
    requires off < TWO_32
    ensures OffsetBits(off + if lock then WRAP_LOCK_BIT else 0) == off
  {
    var x := off + if lock then WRAP_LOCK_BIT else 0;
    OffsetMask(x);
    Split32(x, off, if lock then WRAP_MODULUS else 0);
  }
}
