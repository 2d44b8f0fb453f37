/**
One call of acquire in the middle of a run, with retries: it asks for the same
length until it ends, and it ends with a range or for a reason.
*/
module RingCalls {
  import opened PackedWords
  import opened RingMachine
  import opened RingInvariant
  import opened RingRuns
  import opened RingOperations
  import opened RingSafety
  import opened RingRefusals

  predicate CallBy(a: Action, w: nat) { a.CallAcquire? && a.w == w }

  // Worker w calls acquire at step c, and not again before step m.
  predicate Calling(run: seq<State>, acts: seq<Action>, c: nat, m: nat, w: nat, len: nat) {
    && IsRun(run, acts) && c < m <= |acts| && acts[c] == CallAcquire(w, len)
    && forall n | c < n < m :: !CallBy(acts[n], w)
  }

  // The worker works on, or holds, a range of this length.
  predicate AsksFor(s: State, w: nat, len: nat) {
    && w < |s.producers|
    && var p := s.producers[w];
       && (p.Loading? || p.Publishing? || p.Deciding? || p.Swapping? ==> p.len == len)
       && (HasRange(p) ==> p.k < |s.ring.log| && s.ring.log[p.k].len == len)
  }

  lemma StepAsks(s: State, a: Action, w: nat, len: nat)
    requires Enabled(s, a) && AsksFor(s, w, len) && !CallBy(a, w)
    ensures AsksFor(Apply(s, a), w, len)
  {
    hide Enabled, Apply;
    LogGrows(s, a);
    if ByWorker(a) && a.w == w {
      OwnStepAsks(s, a, len);
    } else {
      OthersStay(s, a, w);
    }
  }

  // No step changes the length or the owner of a range.
  lemma LogGrows(s: State, a: Action)
    requires Enabled(s, a)
    ensures var log, log' := s.ring.log, Apply(s, a).ring.log;
            |log| <= |log'| && forall k | 0 <= k < |log| :: log'[k].len == log[k].len && log'[k].owner == log[k].owner
  {
  }

  lemma OwnStepAsks(s: State, a: Action, len: nat)
    requires Enabled(s, a) && ByWorker(a) && AsksFor(s, a.w, len) && !CallBy(a, a.w)
    ensures AsksFor(Apply(s, a), a.w, len)
  {
  }

  lemma CallAsks(s: State, w: nat, len: nat)
    requires Enabled(s, CallAcquire(w, len))
    ensures AsksFor(Apply(s, CallAcquire(w, len)), w, len)
  {
  }

  lemma {:induction false} StillAsks(run: seq<State>, acts: seq<Action>, c: nat, m: nat, w: nat, len: nat)
    requires Calling(run, acts, c, m, w, len)
    ensures AsksFor(run[m], w, len)
  {
    hide Enabled, Apply, FewWraps, Init, AsksFor;
    assert Step(run[m - 1], acts[m - 1], run[m]);
    if c + 1 < m {
      assert Calling(run, acts, c, m - 1, w, len);
      StillAsks(run, acts, c, m - 1, w, len);
      StepAsks(run[m - 1], acts[m - 1], w, len);
    } else {
      CallAsks(run[c], w, len);
    }
  }

  // In every run, however often the call retried, the range that its CAS
  // appends has the length that was asked for.
  lemma AcquiresAsRequested(run: seq<State>, acts: seq<Action>, c: nat, j: nat, w: nat, len: nat)
    requires Calling(run, acts, c, j, w, len) && j < |acts| && acts[j] == CasOk(w)
    ensures var log, log' := run[j].ring.log, run[j + 1].ring.log;
            |log'| == |log| + 1 && log'[..|log|] == log && log'[|log|].owner == w && log'[|log|].len == len
  {
    StillAsks(run, acts, c, j, w, len);
    assert Step(run[j], acts[j], run[j + 1]);
  }

  // A worker that returned from acquire holds as many bytes as it asked for,
  // and can write each of them.
  lemma HoldsAsRequested(run: seq<State>, acts: seq<Action>, c: nat, m: nat, w: nat, len: nat, j: nat, v: Byte)
    requires Calling(run, acts, c, m, w, len) && w < |run[m].producers| && run[m].producers[w].Holding?
    ensures var k := run[m].producers[w].k;
            && k < |run[m].ring.log| && run[m].ring.log[k].len == len
            && (Enabled(run[m], Fill(w, j, v)) <==> j < len)
  {
    StillAsks(run, acts, c, m, w, len);
    ReachableGood(run, acts, m);
    FillEnabled(run[m], w, j, v);
  }

  // After a failed CAS, for whatever reason, the call starts over with the same
  // length.
  lemma FailureGoesOn(run: seq<State>, acts: seq<Action>, c: nat, j: nat, w: nat, len: nat)
    requires Calling(run, acts, c, j, w, len) && j < |acts| && acts[j] == CasFail(w)
    ensures w < |run[j + 1].producers| && run[j + 1].producers[w] == Loading(len)
  {
    StillAsks(run, acts, c, j, w, len);
    assert Step(run[j], acts[j], run[j + 1]);
  }

  /* ---------------------------- how a call ends --------------------------- */

  predicate InCall(p: Producer) {
    p.Loading? || p.Publishing? || p.Deciding? || p.Refusing? || p.Swapping? || p.Clearing? || p.StoringEnd? || p.Unlocking?
  }

  // A call ends in two ways: with a range, or by the step that returns -1.
  lemma CallEnds(s: State, a: Action, w: nat)
    requires Enabled(s, a) && w < |s.producers| && InCall(s.producers[w])
    ensures w < |Apply(s, a).producers|
    ensures InCall(Apply(s, a).producers[w]) || Apply(s, a).producers[w].Holding?
         || (a == Refuse(w) && s.producers[w] == Refusing)
  {
  }

  // The worker has read 'next' and not acted on it yet.
  predicate HasRead(p: Producer) { p.Publishing? || p.Deciding? || p.Swapping? }

  lemma OwnSteps(s: State, a: Action, w: nat)
    requires Enabled(s, a) && w < |s.producers|
    ensures var s' := Apply(s, a);
            && w < |s'.producers|
            && var p, p' := s.producers[w], s'.producers[w];
               && (HasRead(p') ==> a == LoadNext(w) || HasRead(p))
               && (p' == Refusing ==> p == Refusing || (a == LoadWritten(w) && HasRead(p)))
               && (a == CasOk(w) ==> !HasRead(p'))
  {
  }

  predicate LastRead(acts: seq<Action>, h: nat, m: nat, w: nat) {
    h < m <= |acts| && acts[h] == LoadNext(w) && forall n | h < n < m :: acts[n] != LoadNext(w)
  }

  predicate RefusedAt(run: seq<State>, acts: seq<Action>, h: nat, i: nat, w: nat) {
    && |run| == |acts| + 1 && i < |acts| && LastRead(acts, h, i, w) && acts[i] == LoadWritten(w)
    && w < |run[i + 1].producers| && run[i + 1].producers[w] == Refusing
  }

  // How worker w came to where it is, since step c.
  ghost predicate Traced(run: seq<State>, acts: seq<Action>, c: nat, m: nat, w: nat) {
    && m < |run| && w < |run[m].producers|
    && (HasRead(run[m].producers[w]) ==> exists h: nat :: c < h && LastRead(acts, h, m, w))
    && (run[m].producers[w] == Refusing ==> exists h: nat, i: nat :: c < h && i < m && RefusedAt(run, acts, h, i, w))
  }

  lemma {:induction false} TraceBack(run: seq<State>, acts: seq<Action>, c: nat, m: nat, w: nat, len: nat)
    requires Calling(run, acts, c, m, w, len)
    ensures Traced(run, acts, c, m, w)
  {
    hide Enabled, Apply, FewWraps, Init;
    var n := m - 1;
    assert Step(run[n], acts[n], run[m]);
    if c == n {
      CallStarts(run[c], w, len);
    } else {
      assert Calling(run, acts, c, n, w, len);
      TraceBack(run, acts, c, n, w, len);
      OwnSteps(run[n], acts[n], w);
      TraceStep(run, acts, c, n, w);
    }
  }

  lemma CallStarts(s: State, w: nat, len: nat)
    requires Enabled(s, CallAcquire(w, len))
    ensures w < |Apply(s, CallAcquire(w, len)).producers|
    ensures Apply(s, CallAcquire(w, len)).producers[w] == Loading(len)
  {
  }

  lemma TraceStep(run: seq<State>, acts: seq<Action>, c: nat, n: nat, w: nat)
    requires c < n < |acts| && |run| == |acts| + 1 && Traced(run, acts, c, n, w) && w < |run[n + 1].producers|
    requires var p, p' := run[n].producers[w], run[n + 1].producers[w];
             && (HasRead(p') ==> acts[n] == LoadNext(w) || HasRead(p))
             && (p' == Refusing ==> p == Refusing || (acts[n] == LoadWritten(w) && HasRead(p)))
    ensures Traced(run, acts, c, n + 1, w)
  {
    var p, p' := run[n].producers[w], run[n + 1].producers[w];
    if HasRead(p') {
      if acts[n] == LoadNext(w) {
        assert LastRead(acts, n, n + 1, w);
      } else {
        var h: nat :| c < h && LastRead(acts, h, n, w);
        assert LastRead(acts, h, n + 1, w);
      }
    }
    if p' == Refusing && p != Refusing {
      var h: nat :| c < h && LastRead(acts, h, n, w);
      assert RefusedAt(run, acts, h, n, w);
    }
  }

  // A worker that has read 'next' did not acquire anything since.
  lemma {:induction false} ReaderDidNotSwap(run: seq<State>, acts: seq<Action>, n: nat, m: nat, w: nat)
    requires IsRun(run, acts) && n < m <= |acts| && acts[n] == CasOk(w)
    requires forall k | n < k < m :: acts[k] != LoadNext(w)
    ensures w < |run[m].producers| && !HasRead(run[m].producers[w])
  {
    hide Apply, FewWraps, Init, HasRead;
    assert Step(run[m - 1], acts[m - 1], run[m]);
    if n + 1 < m {
      ReaderDidNotSwap(run, acts, n, m - 1, w);
    }
    OwnSteps(run[m - 1], acts[m - 1], w);
  }

  predicate Overtaken(acts: seq<Action>, h: nat, i: nat, w: nat) {
    exists n | h < n < i :: n < |acts| && acts[n].CasOk? && acts[n].w != w
  }

  // Worker w read 'next' at h and was refused at i, for lack of room, or
  // because another worker acquired a range in between.
  predicate RefusedForCause(run: seq<State>, acts: seq<Action>, h: nat, i: nat, w: nat, len: nat) {
    && RefusedAt(run, acts, h, i, w)
    && (!HasRoom(run[i].ring, len) || Overtaken(acts, h, i, w))
  }

  lemma {:induction false} RefusalHasCause(run: seq<State>, acts: seq<Action>, c: nat, h: nat, i: nat, w: nat, len: nat)
    requires Calling(run, acts, c, i, w, len) && RefusedAt(run, acts, h, i, w)
    ensures RefusedForCause(run, acts, h, i, w, len)
  {
    hide Apply, FewWraps, Init, HasRoom, RoomAt;
    StillAsks(run, acts, c, i, w, len);
    assert Step(run[i], acts[i], run[i + 1]);
    if HasRoom(run[i].ring, len) {
      RefusalMeansProgress(run, acts, h, i, w);
      var n :| h < n < i && acts[n].CasOk?;
      if acts[n].w == w {
        ReaderDidNotSwap(run, acts, n, i, w);
      }
      assert Overtaken(acts, h, i, w);
    }
  }

  // In every run, a call that returns -1 was refused for cause, at its last
  // read of 'next'; a failed CAS alone never ends it.
  lemma {:induction false} RefuseHasCause(run: seq<State>, acts: seq<Action>, c: nat, j: nat, w: nat, len: nat)
    returns (h: nat, i: nat)
    requires Calling(run, acts, c, j, w, len) && j < |acts| && acts[j] == Refuse(w)
    ensures c < h < i < j && RefusedForCause(run, acts, h, i, w, len)
  {
    hide FewWraps, Init, Apply, RefusedForCause;
    TraceBack(run, acts, c, j, w, len);
    assert Step(run[j], acts[j], run[j + 1]);
    h, i :| c < h && i < j && RefusedAt(run, acts, h, i, w);
    assert Calling(run, acts, c, i, w, len);
    RefusalHasCause(run, acts, c, h, i, w, len);
  }
}
