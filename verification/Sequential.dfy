/**
An operation that is not interrupted is a sequence of atomic steps: each of the
functions of `RingOperations` is reached by the steps of the transition system.
*/
module RingSequential {
  import opened PackedWords
  import opened RingMachine
  import opened RingInvariant
  import opened RingRefinement
  import opened RingRuns
  import opened RingOperations

  // Worker w is at p, everyone else is outside any operation.
  predicate Busy(s: State, w: nat, p: Producer) {
    && Sized(s) && w < |s.producers| && s.producers[w] == p
    && (p.Publishing? || p.Deciding? || p.Swapping? ==> p.lap == s.ring.laps)
    && forall v | 0 <= v < |s.producers| && v != w ::
         s.producers[v].Unregistered? || s.producers[v].Idle? || s.producers[v].Holding?
  }

  lemma BusyFewWraps(s: State, w: nat, p: Producer)
    requires Busy(s, w, p)
    ensures FewWraps(s)
  {
  }

  // One more step of worker w.
  lemma WorkerGoesOn(s: State, acts: seq<Action>, m: State, w: nat, p: Producer, a: Action) returns (acts': seq<Action>, m': State)
    requires Leads(s, acts, m) && Busy(m, w, p) && Enabled(m, a)
    ensures m' == Apply(m, a) && acts' == acts + [a] && Leads(s, acts', m')
  {
    BusyFewWraps(m, w, p);
    LeadsFurther(s, acts, m, a);
    acts', m' := acts + [a], Apply(m, a);
  }

  // Up to the decision of acquire.
  lemma AcquireDecides(s: State, w: nat, len: nat) returns (acts: seq<Action>, m: State)
    requires Inv(s) && Settled(s) && w < |s.producers| && s.producers[w].Idle? && 0 < len <= s.ring.space
    ensures Leads(s, acts, m)
    ensures var g := s.ring;
            var p := match Decide(g.space, g.next, len, g.written)
                     case Wait => Refusing
                     case Move(target) => Swapping(len, g.next, g.laps, target);
            m == State(g, s.seen[w := Seen(g.next.off, true)], s.registered, s.producers[w := p], s.consumer)
  {
    hide Leads, Chain, Placed, Pending, Boundary, ConsumerOK;
    CalmUnlocked(s);
    var g := s.ring;
    acts, m := WorkerGoesOn(s, [], s, w, Idle, CallAcquire(w, len));
    acts, m := WorkerGoesOn(s, acts, m, w, Loading(len), LoadNext(w));
    acts, m := WorkerGoesOn(s, acts, m, w, Publishing(len, g.next, g.laps), StoreSeen(w));
    acts, m := WorkerGoesOn(s, acts, m, w, Deciding(len, g.next, g.laps), LoadWritten(w));
  }

  lemma AcquireLeads(s: State, w: nat, len: nat) returns (acts: seq<Action>)
    requires Good(s) && Settled(s) && w < |s.producers| && s.producers[w].Idle? && 0 < len <= s.ring.space
    ensures Leads(s, acts, AfterAcquire(s, w, len))
    ensures Good(AfterAcquire(s, w, len)) && Settled(AfterAcquire(s, w, len))
  {
    var g, m := s.ring, s;
    CalmUnlocked(s);
    acts, m := AcquireDecides(s, w, len);
    match Decide(g.space, g.next, len, g.written) {
      case Wait =>
        acts, m := WorkerGoesOn(s, acts, m, w, Refusing, Refuse(w));
        assert WorkerOK(g, w, s.producers[w], s.seen[w], s.registered[w]);
        assert m.seen == s.seen && m.producers == s.producers;
      case Move(target) =>
        acts, m := AcquireSwaps(s, acts, m, w, len, target);
    }
    LeadsKeepsGood(s, acts, m);
  }

  lemma {:induction false} AcquireSwaps(s: State, acts0: seq<Action>, m0: State, w: nat, len: nat, target: Word)
    returns (acts: seq<Action>, m: State)
    requires Inv(s) && Settled(s) && w < |s.producers| && Leads(s, acts0, m0)
    requires Decide(s.ring.space, s.ring.next, len, s.ring.written) == Move(target)
    requires m0 == State(s.ring, s.seen[w := Seen(s.ring.next.off, true)], s.registered,
                         s.producers[w := Swapping(len, s.ring.next, s.ring.laps, target)], s.consumer)
    ensures Leads(s, acts, m) && m == AfterAcquire(s, w, len)
  {
    hide Leads, Chain, Placed, Pending, Boundary, ConsumerOK;
    var g, k := s.ring, |s.ring.log|;
    acts, m := WorkerGoesOn(s, acts0, m0, w, Swapping(len, g.next, g.laps, target), CasOk(w));
    acts, m := WorkerGoesOn(s, acts, m, w, Clearing(k, g.next.off, target), ClearSeen(w));
    if target.lock {
      acts, m := WorkerGoesOn(s, acts, m, w, StoringEnd(k, g.next.off, target), StoreEnd(w));
      acts, m := WorkerGoesOn(s, acts, m, w, Unlocking(k, target), Unlock(w));
    }
    assert m.seen == AfterAcquire(s, w, len).seen && m.producers == AfterAcquire(s, w, len).producers;
  }

  /* -------------------------------- consume ------------------------------- */

  lemma Onward(s: State, acts: seq<Action>, m: State, a: Action) returns (acts': seq<Action>, m': State)
    requires Leads(s, acts, m) && FewWraps(m) && Enabled(m, a)
    ensures m' == Apply(m, a) && acts' == acts + [a] && Leads(s, acts', m')
  {
    LeadsFurther(s, acts, m, a);
    acts', m' := acts + [a], Apply(m, a);
  }

  // The for loop over the workers.
  lemma {:induction false} ScanLeads(s: State, acts0: seq<Action>, m0: State, v: View, i: nat)
    returns (acts: seq<Action>, m: State)
    requires Leads(s, acts0, m0) && Sized(m0) && Stable(m0) && i <= |m0.producers|
    requires m0.consumer == Checking(v, 0, OFF_MAX)
    ensures Leads(s, acts, m)
    ensures m == m0.(consumer := Checking(v, i, Scan(m0.ring.written, m0.seen, m0.registered, i)))
    decreases i
  {
    hide Leads;
    if i == 0 {
      acts, m := acts0, m0;
    } else {
      acts, m := ScanLeads(s, acts0, m0, v, i - 1);
      acts, m := Onward(s, acts, m, CheckWorker);
      if m0.registered[i - 1] {
        acts, m := Onward(s, acts, m, ObserveWorker);
      }
    }
  }

  // A pass in the lap of the producers.
  lemma SameLapLeads(s: State, acts0: seq<Action>, m0: State, retried: bool) returns (acts: seq<Action>, m: State)
    requires Good(s) && Leads(s, acts0, m0) && Calm(m0) && m0.consumer == Reading(retried) && !m0.ring.Behind()
    ensures Leads(s, acts, m) && m == m0.(consumer := Ready(Available(m0.ring)))
  {
    LeadsKeepsGood(s, acts0, m0);
    CalmStable(m0);
    SameLapAvailable(m0);
    acts, m := SameLapPass(s, acts0, m0, retried, Available(m0.ring));
  }

  lemma SameLapPass(s: State, acts0: seq<Action>, m0: State, retried: bool, n: nat)
    returns (acts: seq<Action>, m: State)
    requires Leads(s, acts0, m0) && Sized(m0) && Stable(m0) && m0.consumer == Reading(retried)
    requires m0.ring.written <= m0.ring.next.off && m0.ring.written <= Min(ScanAll(m0), m0.ring.next.off)
    requires Min(ScanAll(m0), m0.ring.next.off) - m0.ring.written == n
    ensures Leads(s, acts, m) && m == m0.(consumer := Ready(n))
  {
    hide Leads, Scan;
    acts, m := Onward(s, acts0, m0, ReadNext);
    if m0.ring.written != m0.ring.next.off {
      acts, m := ScanLeads(s, acts, m, m.consumer.view, |m0.producers|);
      acts, m := Onward(s, acts, m, EndScan);
    }
  }

  // A pass a lap behind, until it returns or starts the reset.
  lemma LapBehindLeads(s: State, acts0: seq<Action>, m0: State) returns (acts: seq<Action>, m: State)
    requires Good(s) && Leads(s, acts0, m0) && Calm(m0) && m0.consumer == Reading(false) && m0.ring.Behind()
    ensures Leads(s, acts, m)
    ensures m == m0.(consumer := if CanFollow(m0.ring) then TestingEnd(false) else Ready(Available(m0.ring)))
    ensures CanFollow(m0.ring) ==> m0.ring.end != OFF_MAX
  {
    LeadsKeepsGood(s, acts0, m0);
    CalmStable(m0);
    LapBehindAvailable(m0);
    acts, m := LapBehindPass(s, acts0, m0, Available(m0.ring), CanFollow(m0.ring));
  }

  lemma LapBehindPass(s: State, acts0: seq<Action>, m0: State, n: nat, follow: bool)
    returns (acts: seq<Action>, m: State)
    requires Leads(s, acts0, m0) && Sized(m0) && Stable(m0) && m0.consumer == Reading(false)
    requires m0.ring.next.off < m0.ring.written <= Min(ScanAll(m0), Min(m0.ring.space, m0.ring.end))
    requires Min(ScanAll(m0), Min(m0.ring.space, m0.ring.end)) - m0.ring.written == n
    requires follow <==> ScanAll(m0) == OFF_MAX && m0.ring.written == Min(m0.ring.space, m0.ring.end)
    ensures Leads(s, acts, m) && m == m0.(consumer := if follow then TestingEnd(false) else Ready(n))
  {
    hide Leads, Scan;
    acts, m := Onward(s, acts0, m0, ReadNext);
    acts, m := ScanLeads(s, acts, m, m.consumer.view, |m0.producers|);
    acts, m := Onward(s, acts, m, EndScan);
    acts, m := Onward(s, acts, m, ReadEnd);
  }

  lemma {:induction false} ConsumeLeads(s: State) returns (acts: seq<Action>)
    requires Good(s) && Settled(s)
    ensures Leads(s, acts, AfterConsume(s)) && Good(AfterConsume(s)) && Settled(AfterConsume(s))
  {
    hide Leads, Geometry, Workers, Contents, Available;
    var m := s;
    CalmUnlocked(s);
    acts, m := Onward(s, [], s, CallConsume);
    if !s.ring.Behind() {
      acts, m := SameLapLeads(s, acts, m, false);
    } else {
      acts, m := LapBehindLeads(s, acts, m);
      if CanFollow(s.ring) {
        acts, m := Onward(s, acts, m, TestEnd);
        acts, m := Onward(s, acts, m, ClearEnd);
        acts, m := Onward(s, acts, m, ResetWritten);
        acts, m := SameLapLeads(s, acts, m, true);
      }
    }
    LeadsKeepsGood(s, acts, m);
  }

  /* ------------------- single-step and two-step operations ---------------- */

  function AfterRegister(s: State, w: nat): State
    requires Sized(s) && w < |s.producers|
  {
    State(s.ring, s.seen[w := CLEAR], s.registered[w := true], s.producers[w := Idle], s.consumer)
  }

  lemma RegisterLeads(s: State, w: nat) returns (acts: seq<Action>)
    requires Good(s) && Settled(s) && w < |s.producers| && s.producers[w].Unregistered?
    ensures Leads(s, acts, AfterRegister(s, w)) && Good(AfterRegister(s, w)) && Settled(AfterRegister(s, w))
  {
    var m := s;
    acts, m := WorkerGoesOn(s, [], s, w, s.producers[w], StoreClear(w));
    acts, m := WorkerGoesOn(s, acts, m, w, Registering, StoreRegistered(w));
    assert m == AfterRegister(s, w);
    LeadsKeepsGood(s, acts, m);
  }

  // Operations that are one atomic step.
  lemma OneStepLeads(s: State, a: Action) returns (acts: seq<Action>)
    requires Good(s) && Settled(s) && Enabled(s, a)
    requires a.Unregister? || a.Produce? || a.Release? || a.Fill?
    ensures Leads(s, acts, Apply(s, a)) && Good(Apply(s, a)) && Settled(Apply(s, a))
  {
    hide Leads, Inv, Contents;
    var m := s;
    CalmUnlocked(s);
    acts, m := Onward(s, [], s, a);
    LeadsKeepsGood(s, acts, m);
  }

  // The first n of these bytes, written over what was at offset p.
  function Patched(was: seq<Byte>, p: nat, bytes: seq<Byte>, n: nat): (now: seq<Byte>)
    requires n <= |bytes| && p + |bytes| <= |was|
    ensures |now| == |was|
  {
    was[..p] + bytes[..n] + was[p + n..]
  }

  lemma PatchedMore(was: seq<Byte>, p: nat, bytes: seq<Byte>, n: nat)
    requires n < |bytes| && p + |bytes| <= |was|
    ensures Patched(was, p, bytes, n)[p + n := bytes[n]] == Patched(was, p, bytes, n + 1)
  {
  }

  lemma PatchedEnds(was: seq<Byte>, p: nat, bytes: seq<Byte>)
    requires p + |bytes| <= |was|
    ensures Patched(was, p, bytes, 0) == was
    ensures p == 0 && |bytes| == |was| ==> Patched(was, p, bytes, |bytes|) == bytes
  {
  }

  // The ring after the first n of these bytes were written to range k.
  function Filling(g: Ring, k: nat, bytes: seq<Byte>, n: nat): Ring
    requires k < |g.log| && n <= |bytes| == |g.log[k].data| && g.log[k].phys + |bytes| <= |g.mem|
  {
    var r := g.log[k];
    g.(mem := Patched(g.mem, r.phys, bytes, n), log := g.log[k := r.(data := Patched(r.data, 0, bytes, n))])
  }

  lemma FillingMore(g: Ring, k: nat, bytes: seq<Byte>, n: nat)
    requires k < |g.log| && n < |bytes| == |g.log[k].data| && g.log[k].phys + |bytes| <= |g.mem|
    ensures Filled(Filling(g, k, bytes, n), k, n, bytes[n]) == Filling(g, k, bytes, n + 1)
    ensures Filling(g, k, bytes, 0) == g
  {
    hide Patched;
    var r := g.log[k];
    PatchedMore(g.mem, r.phys, bytes, n);
    PatchedMore(r.data, 0, bytes, n);
    PatchedEnds(g.mem, r.phys, bytes);
    PatchedEnds(r.data, 0, bytes);
  }

  // A worker writes its whole range, one byte after the other.
  lemma {:induction false} FillLeads(s: State, w: nat, bytes: seq<Byte>, n: nat) returns (acts: seq<Action>)
    requires Sized(s) && Calm(s) && FewWraps(s) && w < |s.producers| && s.producers[w].Holding?
    requires var g, k := s.ring, s.producers[w].k;
             k < |g.log| && n <= |bytes| == |g.log[k].data| && |bytes| > 0 && g.log[k].phys + |bytes| <= |g.mem|
    ensures Leads(s, acts, s.(ring := Filling(s.ring, s.producers[w].k, bytes, n)))
    decreases n
  {
    hide Leads, Filling;
    var g, k := s.ring, s.producers[w].k;
    if n == 0 {
      FillingMore(g, k, bytes, 0);
      acts := [];
      NoSteps(s);
    } else {
      FillingMore(g, k, bytes, n - 1);
      var m := s.(ring := Filling(g, k, bytes, n - 1));
      acts := FillLeads(s, w, bytes, n - 1);
      FillingShape(g, k, bytes, n - 1);
      var t;
      acts, t := Onward(s, acts, m, Fill(w, n - 1, bytes[n - 1]));
    }
  }

  lemma NoSteps(s: State)
    ensures Leads(s, [], s)
  {
  }

  // The parts of the ring that writing changes, and that in the end the range
  // holds all the bytes.
  lemma FillingShape(g: Ring, k: nat, bytes: seq<Byte>, n: nat)
    requires k < |g.log| && n <= |bytes| == |g.log[k].data| && g.log[k].phys + |bytes| <= |g.mem|
    ensures var h := Filling(g, k, bytes, n);
            && |h.log| == |g.log| && |h.mem| == |g.mem|
            && h.log == g.log[k := g.log[k].(data := h.log[k].data)] && |h.log[k].data| == |bytes|
            && h == g.(mem := h.mem, log := h.log)
            && (n == |bytes| ==> h.log[k].data == bytes)
  {
    hide Patched;
    PatchedEnds(g.log[k].data, 0, bytes);
  }

  /* ------------------------ operations in succession ---------------------- */

  lemma {:induction false} LeadsTogether(s: State, acts: seq<Action>, m: State, more: seq<Action>, t: State)
    requires Leads(s, acts, m) && Leads(m, more, t)
    ensures Leads(s, acts + more, t)
    decreases |acts|
  {
    hide FewWraps, Enabled, Apply;
    if |acts| == 0 {
      assert acts + more == more;
    } else {
      LeadsTogether(Apply(s, acts[0]), acts[1..], m, more, t);
      assert (acts + more)[1..] == acts[1..] + more;
    }
  }

  // Operations taken one at a time continue a run: all that is shown of runs
  // is true of the states they reach.
  lemma {:induction false} LeadsExtendsRun(run: seq<State>, acts: seq<Action>, more: seq<Action>, t: State)
    returns (run': seq<State>)
    requires IsRun(run, acts) && Leads(run[|acts|], more, t)
    ensures IsRun(run', acts + more) && run <= run' && run'[|acts + more|] == t
    decreases |more|
  {
    hide FewWraps, Enabled, Apply, Init;
    if |more| == 0 {
      run' := run;
      assert acts + more == acts;
    } else {
      var a, s' := more[0], Apply(run[|acts|], more[0]);
      OneMoreStep(run, acts, a);
      run' := LeadsExtendsRun(run + [s'], acts + [a], more[1..], t);
      assert acts + [a] + more[1..] == acts + more;
    }
  }

  lemma OneMoreStep(run: seq<State>, acts: seq<Action>, a: Action)
    requires IsRun(run, acts) && FewWraps(run[|acts|]) && Enabled(run[|acts|], a)
    ensures IsRun(run + [Apply(run[|acts|], a)], acts + [a])
  {
    hide FewWraps, Enabled, Apply, Init;
    var run', acts' := run + [Apply(run[|acts|], a)], acts + [a];
    forall i | 0 <= i < |acts'| ensures Step(run'[i], acts'[i], run'[i + 1]) {
      assert i < |acts| ==> Step(run[i], acts[i], run[i + 1]);
    }
  }

  // One consume, then the release of all of its result.
  function AfterRound(s: State): State {
    s.(ring := Round(s.ring), consumer := Ready(0))
  }

  lemma {:induction false} RoundLeads(s: State) returns (acts: seq<Action>)
    requires Good(s) && Settled(s)
    ensures Leads(s, acts, AfterRound(s)) && Good(AfterRound(s)) && Settled(AfterRound(s))
  {
    hide Leads, Inv, Contents, Available, Followed;
    var m := AfterConsume(s);
    acts := ConsumeLeads(s);
    ReleaseEnabled(m);
    var last := OneStepLeads(m, Release(m.consumer.avail));
    LeadsTogether(s, acts, m, last, Apply(m, Release(m.consumer.avail)));
    acts := acts + last;
  }

  lemma ReleaseEnabled(s: State)
    requires Good(s) && s.consumer.Ready?
    ensures Enabled(s, Release(s.consumer.avail))
  {
  }

  lemma RoundKeeps(g: Ring)
    ensures Round(g).log == g.log && Round(g).space == g.space
  {
  }

  // Once everything is produced, two rounds drain the ring, from any state.
  lemma {:induction false} Drained(s: State) returns (acts: seq<Action>, t: State)
    requires Good(s) && Settled(s) && AllProduced(s.ring.log)
    ensures Leads(s, acts, t) && Good(t) && Settled(t) && t == AfterRound(AfterRound(s))
    ensures t.ring.Released() == t.ring.Tip() == s.ring.Tip() && t.ring.log == s.ring.log
  {
    hide Leads, Contents, Round, Geometry;
    var m := AfterRound(s);
    acts := RoundLeads(s);
    var more := RoundLeads(m);
    t := AfterRound(m);
    LeadsTogether(s, acts, m, more, t);
    acts := acts + more;
    TwoRoundsDrain(s);
    RoundKeeps(s.ring);
    RoundKeeps(m.ring);
  }

  // The bound of EmptyRingAccepts is tight: for every request above half the
  // space and below the space, a new ring can reach an empty state that
  // refuses it.
  lemma HalfSpaceIsTight(s: State, w: nat, len: nat) returns (acts: seq<Action>, t: State)
    requires Init(s) && w < |s.producers| && s.ring.space < 2 * len && len < s.ring.space
    ensures Leads(s, acts, t) && Good(t) && Settled(t)
    ensures t.ring.Released() == t.ring.Tip() && t.ring.space == s.ring.space && AcquireResult(t.ring, len) == -1
  {
    hide Leads, Inv, Contents, Round;
    NewRing(s);
    var s0 := AfterRegister(s, w);
    acts := RegisterLeads(s, w);
    var s1 := AfterAcquire(s0, w, len);
    var more := AcquireLeads(s0, w, len);
    LeadsTogether(s, acts, s0, more, s1);
    acts := acts + more;
    HalfSpaceRefused(s0, w, len);
    var s2 := AfterProduce(s1, w);
    more := OneStepLeads(s1, Produce(w));
    LeadsTogether(s, acts, s1, more, s2);
    acts := acts + more;
    t := AfterRound(s2);
    RoundKeeps(s2.ring);
    more := RoundLeads(s2);
    LeadsTogether(s, acts, s2, more, t);
    acts := acts + more;
  }

  lemma NewRing(s: State)
    requires Init(s)
    ensures Good(s) && Settled(s)
  {
    InitEstablishesInv(s);
  }
}
