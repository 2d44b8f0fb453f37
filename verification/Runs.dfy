/**
Whole runs of the ring: every reachable state satisfies the invariant, every
run is a run of the reserve/commit/take queue, and the consumer has received
exactly the bytes that the queue hands out.
*/
module RingRuns {
  import opened PackedWords
  import opened RingMachine
  import opened RingInvariant
  import opened RingRefinement
  import RingProducerSteps
  import RingConsumerSteps
  import Q = ReserveQueue

  predicate Good(s: State) {
    Inv(s) && Contents(s.ring)
  }

  lemma StepKeepsInv(s: State, a: Action)
    requires Inv(s) && FewWraps(s) && Enabled(s, a)
    ensures Inv(Apply(s, a))
  {
    if ByWorker(a) {
      RingProducerSteps.WorkerStep(s, a);
    } else {
      RingConsumerSteps.ConsumerStep(s, a);
    }
  }

  predicate Silent(a: Action) {
    !a.CasOk? && !a.Fill? && !a.Produce? && !a.Release?
  }

  // The other steps change neither the memory, nor the log, nor what is released.
  lemma {:induction false} SilentRefines(s: State, a: Action)
    requires Inv(s) && Contents(s.ring) && Enabled(s, a) && Silent(a)
    ensures Refines(s, a)
  {
    SilentKeeps(s, a);
    SameContents(s.ring, Apply(s, a).ring);
  }

  lemma SilentKeeps(s: State, a: Action)
    requires Inv(s) && Enabled(s, a) && Silent(a)
    ensures var g' := Apply(s, a).ring;
            g'.log == s.ring.log && g'.mem == s.ring.mem && g'.Released() == s.ring.Released()
  {
    hide Geometry, Workers, Owners;
    if a.ResetWritten? {
      assert AtCut(s.ring);
    }
  }

  lemma StepRefines(s: State, a: Action)
    requires Good(s) && FewWraps(s) && Enabled(s, a)
    ensures Good(Apply(s, a)) && Refines(s, a)
  {
    StepKeepsInv(s, a);
    if a.CasOk? {
      CasOkRefines(s, a);
    } else if a.Fill? {
      FillRefines(s, a);
    } else if a.Produce? {
      ProduceRefines(s, a);
    } else if a.Release? {
      ReleaseRefines(s, a);
    } else {
      SilentRefines(s, a);
    }
  }

  lemma {:induction false} ReachableGood(run: seq<State>, acts: seq<Action>, i: nat)
    requires IsRun(run, acts) && i < |run|
    ensures Good(run[i])
  {
    if i == 0 {
      InitEstablishesInv(run[0]);
    } else {
      ReachableGood(run, acts, i - 1);
      assert Step(run[i - 1], acts[i - 1], run[i]);
      StepRefines(run[i - 1], acts[i - 1]);
    }
  }

  function Queues(run: seq<State>): (qs: seq<Q.Queue>)
    ensures |qs| == |run| && forall i | 0 <= i < |run| :: qs[i] == Abs(run[i])
  {
    seq(|run|, i requires 0 <= i < |run| => Abs(run[i]))
  }

  function Ops(run: seq<State>, acts: seq<Action>): (ops: seq<Q.Op>)
    requires |run| == |acts| + 1
    ensures |ops| == |acts| && forall i | 0 <= i < |acts| :: ops[i] == AbsOp(run[i], acts[i])
  {
    seq(|acts|, i requires 0 <= i < |acts| => AbsOp(run[i], acts[i]))
  }

  // Every interleaving is a run of the queue.
  lemma RunRefines(run: seq<State>, acts: seq<Action>)
    requires IsRun(run, acts)
    ensures Q.IsRun(Queues(run), Ops(run, acts))
  {
    var qs, ops := Queues(run), Ops(run, acts);
    forall i | 0 <= i < |ops| ensures Q.Allowed(qs[i], ops[i]) && qs[i + 1] == Q.Effect(qs[i], ops[i]) {
      ReachableGood(run, acts, i);
      assert Step(run[i], acts[i], run[i + 1]);
      StepRefines(run[i], acts[i]);
    }
  }

  // The bytes the consumer reads from the buffer before it releases them.
  function Read(s: State, a: Action): seq<Byte> {
    if a.Release? && s.ring.written + a.n <= |s.ring.mem|
    then s.ring.mem[s.ring.written..s.ring.written + a.n] else []
  }

  // What the consumer has read and released in the first m steps.
  function Delivered(run: seq<State>, acts: seq<Action>, m: nat): seq<Byte>
    requires m <= |acts| && |run| == |acts| + 1
  {
    if m == 0 then [] else Delivered(run, acts, m - 1) + Read(run[m - 1], acts[m - 1])
  }

  lemma ReadIsGiven(s: State, a: Action)
    requires Good(s) && FewWraps(s) && Enabled(s, a)
    ensures Q.Allowed(Abs(s), AbsOp(s, a)) && Read(s, a) == Q.Given(Abs(s), AbsOp(s, a))
  {
    hide Inv, Contents, Enabled, Apply;
    StepRefines(s, a);
    if a.Release? {
      assert AbsOp(s, a) == Q.Take(a.n);
      ReleaseReads(s, a);
    } else {
      OnlyReleaseTakes(s, a);
    }
  }

  lemma OnlyReleaseTakes(s: State, a: Action)
    requires !a.Release?
    ensures !AbsOp(s, a).Take? && Read(s, a) == []
  {
  }

  lemma ReleaseReads(s: State, a: Action)
    requires Good(s) && Enabled(s, a) && a.Release?
    requires s.ring.Released() + a.n <= |Q.Deliverable(Items(s.ring.log))|
    ensures Read(s, a) == Q.Deliverable(Items(s.ring.log))[s.ring.Released()..s.ring.Released() + a.n]
  {
    hide Geometry, Contents, Workers, Owners, Q.Deliverable;
    GrantedMore(s.ring, s.consumer.avail, a.n);
    GrantContents(s.ring, a.n);
  }

  lemma {:induction false} DeliveredIsOutput(run: seq<State>, acts: seq<Action>, m: nat)
    requires IsRun(run, acts) && m <= |acts| && Q.IsRun(Queues(run), Ops(run, acts))
    ensures Delivered(run, acts, m) == Q.Output(Queues(run), Ops(run, acts), m)
  {
    if m > 0 {
      DeliveredIsOutput(run, acts, m - 1);
      ReachableGood(run, acts, m - 1);
      assert Step(run[m - 1], acts[m - 1], run[m]);
      ReadIsGiven(run[m - 1], acts[m - 1]);
    }
  }

  // In every interleaving the consumer has received exactly the first bytes of
  // the produced ranges, taken in the order of their CAS, as produced.
  lemma {:induction false} Delivery(run: seq<State>, acts: seq<Action>, m: nat)
    requires IsRun(run, acts) && m <= |acts|
    ensures var g := run[m].ring;
            && g.Released() <= |Q.Deliverable(Items(g.log))|
            && Delivered(run, acts, m) == Q.Deliverable(Items(g.log))[..g.Released()]
  {
    RunRefines(run, acts);
    DeliveredIsOutput(run, acts, m);
    Q.OutputIsPrefix(Queues(run), Ops(run, acts), m);
  }
}
