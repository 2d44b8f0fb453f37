/**
What a refusal of acquire means while other threads go on.
*/
module RingRefusals {
  import opened PackedWords
  import opened RingMachine
  import opened RingInvariant
  import opened RingRuns
  import opened RingOperations
  import opened RingSafety
  import opened RingSequential

  // There is room for len bytes at an offset: below 'written' if that is ahead,
  // else up to the end of the buffer, or, wrapping, at its start.
  predicate RoomAt(space: nat, off: nat, written: nat, len: nat) {
    if off < written then off + len < written
    else off + len < space || (off + len == space && 0 < written) || (off + len > space && len < written)
  }

  // A worker is refused exactly if there is no room at the offset it read,
  // below the value of 'written' it reads; if that offset is the current one,
  // exactly if there is no room at that moment.
  lemma RefusalExact(s: State, w: nat)
    requires Inv(s) && Enabled(s, LoadWritten(w))
    ensures var g, p, p' := s.ring, s.producers[w], Apply(s, LoadWritten(w)).producers[w];
            && (p' == Refusing <==> !RoomAt(g.space, p.word.off, g.written, p.len))
            && (p' != Refusing ==> p'.Swapping? && p'.word == p.word && p'.len == p.len)
            && (p.word == g.next ==> (p' == Refusing <==> !HasRoom(g, p.len)))
  {
    hide Chain, Placed, Pending, Boundary, Owners, ConsumerOK;
    assert WorkerOK(s.ring, w, s.producers[w], s.seen[w], s.registered[w]);
    if s.producers[w].word == s.ring.next {
      AcquireExact(s, s.producers[w].len);
    }
  }

  // Worker w reads 'next' at step i and decides on it at step j.
  predicate Reads(run: seq<State>, acts: seq<Action>, i: nat, j: nat, w: nat) {
    && IsRun(run, acts) && i < j < |acts| && acts[i] == LoadNext(w) && acts[j] == LoadWritten(w)
    && forall n | i < n < j :: acts[n] != LoadNext(w)
  }

  // In every run, a worker is refused while there is room only if some worker
  // acquired a range since the refused one read 'next'.
  lemma {:induction false} RefusalMeansProgress(run: seq<State>, acts: seq<Action>, i: nat, j: nat, w: nat)
    requires Reads(run, acts, i, j, w) && w < |run[j].producers| && w < |run[j + 1].producers|
    requires run[j + 1].producers[w] == Refusing && HasRoom(run[j].ring, run[j].producers[w].len)
    ensures exists n | i < n < j :: acts[n].CasOk?
  {
    hide Inv, HasRoom, FewWraps, Init, Apply;
    assert Step(run[i], acts[i], run[i + 1]) && Step(run[j], acts[j], run[j + 1]);
    if forall n | i < n < j :: !acts[n].CasOk? {
      ReadKept(run, acts, i, j, w);
      NextStays(run, acts, i, j);
      ReachableGood(run, acts, j);
      RefusalExact(run[j], w);
    }
  }

  /* ------------------- a refusal while there is room ---------------------- */

  const PAIR := [true, true]

  // Two registered workers; worker 1 has read 'next' of the new ring.
  function Stalled(g: Ring, len: nat, p: Producer, c: Consumer): State {
    State(g, [CLEAR, CLEAR], PAIR, [p, Publishing(len, Word(0, 0, false), 0)], c)
  }

  // The new ring after worker 0 acquired and produced n bytes.
  function UsedRing(g: Ring, n: nat): Ring {
    g.(next := Word(n, 0, false), log := [Record(0, 0, n, 0, 0, true, Slice(g.mem, 0, n))])
  }

  // A worker whose read of 'next' was overtaken by one producer and the
  // consumer is refused, although the ring is empty and has room.
  lemma RefusedWithRoom(s: State, n: nat, len: nat) returns (acts: seq<Action>, t: State)
    requires Init(s) && |s.producers| == 2 && 0 < n <= len && n + len < s.ring.space
    ensures Leads(s, acts, t) && Enabled(t, LoadWritten(1)) && t.producers[1].len == len
    ensures t.ring.Released() == t.ring.Tip() && t.ring.space == s.ring.space && HasRoom(t.ring, len)
    ensures Apply(t, LoadWritten(1)).producers[1] == Refusing
  {
    hide Leads;
    acts, t := BothRegister(s);
    acts, t := OneReads(s, acts, t, len);
    acts, t := OtherProduces(s, acts, t, s.ring, n, len);
    acts, t := ConsumerTakes(s, acts, t, UsedRing(s.ring, n), n, len);
    acts, t := Onward(s, acts, t, StoreSeen(1));
  }

  lemma BothRegister(s: State) returns (acts: seq<Action>, t: State)
    requires Init(s) && |s.producers| == 2
    ensures Leads(s, acts, t) && t == State(s.ring, [CLEAR, CLEAR], PAIR, [Idle, Idle], Ready(0))
  {
    hide Leads;
    NoSteps(s);
    acts, t := Onward(s, [], s, StoreClear(0));
    acts, t := Onward(s, acts, t, StoreRegistered(0));
    acts, t := Onward(s, acts, t, StoreClear(1));
    acts, t := Onward(s, acts, t, StoreRegistered(1));
  }

  lemma OneReads(s: State, acts0: seq<Action>, m: State, len: nat) returns (acts: seq<Action>, t: State)
    requires Init(s) && Leads(s, acts0, m) && 0 < len <= s.ring.space
    requires m == State(s.ring, [CLEAR, CLEAR], PAIR, [Idle, Idle], Ready(0))
    ensures Leads(s, acts, t) && t == Stalled(s.ring, len, Idle, Ready(0))
  {
    hide Leads;
    acts, t := Onward(s, acts0, m, CallAcquire(1, len));
    acts, t := Onward(s, acts, t, LoadNext(1));
  }

  lemma OtherProduces(s: State, acts0: seq<Action>, m: State, g: Ring, n: nat, len: nat)
    returns (acts: seq<Action>, t: State)
    requires Init(s) && g == s.ring && Leads(s, acts0, m) && m == Stalled(g, len, Idle, Ready(0)) && 0 < n < g.space
    ensures Leads(s, acts, t) && t == Stalled(UsedRing(g, n), len, Idle, Ready(0))
  {
    hide Leads;
    acts, t := Onward(s, acts0, m, CallAcquire(0, n));
    acts, t := Onward(s, acts, t, LoadNext(0));
    acts, t := Onward(s, acts, t, StoreSeen(0));
    acts, t := Onward(s, acts, t, LoadWritten(0));
    acts, t := Onward(s, acts, t, CasOk(0));
    acts, t := Onward(s, acts, t, ClearSeen(0));
    acts, t := Onward(s, acts, t, Produce(0));
  }

  lemma ConsumerTakes(s: State, acts0: seq<Action>, m: State, g: Ring, n: nat, len: nat)
    returns (acts: seq<Action>, t: State)
    requires Leads(s, acts0, m) && m == Stalled(g, len, Idle, Ready(0))
    requires g.next == Word(n, 0, false) && 0 < n < g.space < OFF_MASK && g.written == 0 && g.laps == 0
    ensures Leads(s, acts, t) && t == Stalled(g.(written := n), len, Idle, Ready(0))
  {
    hide Leads;
    acts, t := Onward(s, acts0, m, CallConsume);
    acts, t := Onward(s, acts, t, ReadNext);
    acts, t := Onward(s, acts, t, CheckWorker);
    acts, t := Onward(s, acts, t, ObserveWorker);
    acts, t := Onward(s, acts, t, CheckWorker);
    acts, t := Onward(s, acts, t, ObserveWorker);
    acts, t := Onward(s, acts, t, EndScan);
    acts, t := Onward(s, acts, t, Release(n));
  }
}
