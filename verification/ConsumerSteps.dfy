/**
Every step of the consumer keeps the invariant.
*/
module RingConsumerSteps {
  import opened PackedWords
  import opened RingMachine
  import opened RingInvariant

  /* ------------------- steps that keep the ring as it is ------------------ */

  lemma ConsumerMoves(s: State, s': State)
    requires Inv(s) && s' == s.(consumer := s'.consumer)
    requires ConsumerOK(s.ring, |s.producers|, s'.consumer)
    requires Observed(s.producers, s'.consumer)
    requires s'.consumer.Resetting? == s.consumer.Resetting? || !s.ring.HasCut()
    ensures Inv(s')
  {
  }

  // A stable 'next' below 'written' means a lap behind; equal to it, empty.
  lemma FreshView(g: Ring, retried: bool)
    requires Geometry(g) && !g.next.lock && (retried ==> g.written == 0)
    ensures g.Behind() <==> g.next.off < g.written
    ensures g.written == g.next.off ==> Granted(g, 0) && g.Released() == g.Tip()
    ensures g.written != g.next.off ==> ViewOK(g, View(g.next.off, g.Tip(), g.Behind(), retried))
  {
    forall k | 0 <= k < |g.log| && !g.log[k].done ensures PendingOK(g, g.log[k]) {
      assert g.log[k].done || PendingOK(g, g.log[k]);
    }
  }

  lemma ReadNextStep(s: State, a: Action)
    requires Inv(s) && Enabled(s, a) && a.ReadNext?
    ensures Inv(Apply(s, a))
  {
    FreshView(s.ring, s.consumer.retried);
    ConsumerMoves(s, Apply(s, a));
  }

  // The 'seen' value of a stable worker is clear, or belongs to a pending range.
  lemma StableSeen(g: Ring, w: nat, p: Producer, seen: Seen, registered: bool)
    requires WorkerOK(g, w, p, seen, registered) && p != Unregistered(true) && !seen.lock
    ensures seen.off == OFF_MAX || (HasRange(p) && Acquired(g, w, p.k) && seen.off == g.log[p.k].seen)
  {
  }

  // A pending range seen at or above 'written' marks a boundary of the
  // consumer's lap.
  lemma SeenBoundary(g: Ring, k: nat)
    requires Geometry(g) && k < |g.log| && !g.log[k].done && g.written <= g.log[k].seen
    ensures g.log[k].seen <= g.space && g.log[k].base == g.lag + g.log[k].seen
  {
    assert g.log[k].done || PendingOK(g, g.log[k]);
    assert PlacedAt(g.log[k], g.cur, g.lag);
  }

  lemma SkipWorker(s: State, v: View, i: nat, ready: nat)
    requires Inv(s) && i < |s.producers| && !s.registered[i] && ScanOK(s.ring, v, i, ready)
    ensures ScanOK(s.ring, v, i + 1, ready)
  {
    var g := s.ring;
    assert WorkerOK(g, i, s.producers[i], s.seen[i], s.registered[i]);
    forall k | 0 <= k < |g.log| && !g.log[k].done ensures g.log[k].owner != i {
    }
  }

  lemma CheckWorkerStep(s: State, a: Action)
    requires Inv(s) && Enabled(s, a) && a.CheckWorker?
    ensures Inv(Apply(s, a))
  {
    var c := s.consumer;
    assert WorkerOK(s.ring, c.i, s.producers[c.i], s.seen[c.i], s.registered[c.i]);
    if !s.registered[c.i] {
      SkipWorker(s, c.view, c.i, c.ready);
    }
    ConsumerMoves(s, Apply(s, a));
  }

  // Observing a stable 'seen' value, in terms of the ring alone.
  lemma ObserveRing(g: Ring, v: View, i: nat, off: nat, ready: nat)
    requires ScanOK(g, v, i, ready)
    requires forall k | 0 <= k < |g.log| :: g.log[k].done || g.log[k].owner != i || g.log[k].seen == off
    requires g.written <= off != OFF_MAX ==> off <= g.space && Boundary(g.log, g.Tip(), g.lag + off)
    ensures ScanOK(g, v, i + 1, Observe(g.written, off, ready))
  {
  }

  lemma OwnedSeen(s: State, i: nat)
    requires Inv(s) && i < |s.producers| && !s.seen[i].lock
    ensures forall k | 0 <= k < |s.ring.log| ::
              s.ring.log[k].done || s.ring.log[k].owner != i || s.ring.log[k].seen == s.seen[i].off
  {
    assert WorkerOK(s.ring, i, s.producers[i], s.seen[i], s.registered[i]);
  }

  lemma ObserveScan(s: State, v: View, i: nat, ready: nat)
    requires Inv(s) && i < |s.producers| && !s.seen[i].lock && ScanOK(s.ring, v, i, ready)
    requires s.producers[i] != Unregistered(true)
    ensures ScanOK(s.ring, v, i + 1, Observe(s.ring.written, s.seen[i].off, ready))
  {
    var g, p, off := s.ring, s.producers[i], s.seen[i].off;
    assert WorkerOK(g, i, p, s.seen[i], s.registered[i]);
    StableSeen(g, i, p, s.seen[i], s.registered[i]);
    OwnedSeen(s, i);
    if off != OFF_MAX && g.written <= off {
      SeenBoundary(g, p.k);
    }
    ObserveRing(g, v, i, off, ready);
  }

  lemma ObserveWorkerStep(s: State, a: Action)
    requires Inv(s) && Enabled(s, a) && a.ObserveWorker?
    ensures Inv(Apply(s, a))
  {
    var c := s.consumer;
    ObserveScan(s, c.view, c.i, c.ready);
    ConsumerMoves(s, Apply(s, a));
  }

  /* ---------------------------- what is granted --------------------------- */

  // The regular case: up to the observed 'ready' or to 'next'.
  lemma RegularGrant(g: Ring, workers: nat, v: View, ready: nat)
    requires Geometry(g) && ViewOK(g, v) && ScanOK(g, v, workers, ready) && !v.lapped
    requires forall k | 0 <= k < |g.log| :: g.log[k].done || g.log[k].owner < workers
    ensures g.written <= Min(ready, v.next) <= g.space
    ensures Granted(g, Min(ready, v.next) - g.written)
    ensures Boundary(g.log, g.Tip(), g.lag + Min(ready, v.next))
  {
    var m := Min(ready, v.next);
    assert v.tip == v.next + g.lag;
    forall k | 0 <= k < |g.log| && !g.log[k].done ensures g.lag + m <= g.log[k].base {
      assert g.log[k].done || PendingOK(g, g.log[k]);
      assert PlacedAt(g.log[k], g.cur, g.lag);
    }
  }

  lemma EndScanStep(s: State, a: Action)
    requires Inv(s) && Enabled(s, a) && a.EndScan?
    ensures Inv(Apply(s, a))
  {
    hide Chain, Placed, Pending, Hands, Boundary, Granted, WorkerOK;
    var c := s.consumer;
    if !c.view.lapped {
      RegularGrant(s.ring, |s.producers|, c.view, c.ready);
    }
    ConsumerMoves(s, Apply(s, a));
  }

  // The wrap-around case: up to the observed 'ready' or to the cut.
  lemma LappedGrant(g: Ring, workers: nat, v: View, ready: nat)
    requires Geometry(g) && ViewOK(g, v) && ScanOK(g, v, workers, ready) && v.lapped && EndOK(g, false)
    requires !g.next.lock
    requires forall k | 0 <= k < |g.log| :: g.log[k].done || g.log[k].owner < workers
    ensures Min(g.space, g.end) == g.cur - g.lag
    ensures g.written <= Min(ready, g.cur - g.lag) <= g.space
    ensures Granted(g, Min(ready, g.cur - g.lag) - g.written)
    ensures Boundary(g.log, g.Tip(), g.lag + Min(ready, g.cur - g.lag))
  {
    var m := Min(ready, g.cur - g.lag);
    forall k | 0 <= k < |g.log| && !g.log[k].done ensures g.lag + m <= g.log[k].base {
      assert g.log[k].done || PendingOK(g, g.log[k]);
      assert PlacedAt(g.log[k], g.cur, g.lag);
    }
  }

  // The reset waits for the worker that wrapped.
  lemma ResetWaits(g: Ring, workers: nat, v: View)
    requires Geometry(g) && ViewOK(g, v) && ScanOK(g, v, workers, OFF_MAX) && v.lapped && EndOK(g, false)
    requires !g.next.lock && g.written == Min(g.space, g.end)
    requires forall k | 0 <= k < |g.log| :: g.log[k].done || g.log[k].owner < workers
    ensures AtCut(g) && !v.retried
  {
    forall k | 0 <= k < |g.log| && !g.log[k].done ensures !g.log[k].Wrapped() {
      assert g.log[k].done || PendingOK(g, g.log[k]);
    }
  }

  // A consumer that saw a wrapped 'next' cannot see it locked again.
  lemma LappedUnlocked(s: State)
    requires Inv(s) && s.consumer.Limiting?
    ensures !s.ring.next.lock
  {
  }

  lemma ReadEndStep(s: State, a: Action)
    requires Inv(s) && Enabled(s, a) && a.ReadEnd?
    ensures Inv(Apply(s, a))
  {
    hide Chain, Placed, Pending, Hands, Boundary, Granted, WorkerOK;
    var g, c := s.ring, s.consumer;
    LappedUnlocked(s);
    LappedGrant(g, |s.producers|, c.view, c.ready);
    if c.ready == OFF_MAX && g.written == Min(g.space, g.end) {
      ResetWaits(g, |s.producers|, c.view);
    }
    ConsumerMoves(s, Apply(s, a));
  }

  lemma TestEndStep(s: State, a: Action)
    requires Inv(s) && Enabled(s, a) && a.TestEnd?
    ensures Inv(Apply(s, a))
  {
    ConsumerMoves(s, Apply(s, a));
  }

  lemma CallConsumeStep(s: State, a: Action)
    requires Inv(s) && Enabled(s, a) && a.CallConsume?
    ensures Inv(Apply(s, a))
  {
    ConsumerMoves(s, Apply(s, a));
  }

  /* ---------------------- clearing 'end', the reset ----------------------- */

  // g' differs from g in 'end', 'written' and the lap of the consumer, and
  // 'written' stands for the released position as before or for a later one.
  predicate Advances(g: Ring, g': Ring) {
    && g' == g.(end := g'.end, written := g'.written, lag := g'.lag)
    && !g.next.lock
    && (g.Behind() && g'.Behind() ==> g'.lag == g.lag && g.written <= g'.written)
    && (!g.Behind() ==> !g'.Behind() && g.written <= g'.written)
  }

  lemma AdvancesOthers(g: Ring, g': Ring, v: nat, q: Producer, seen: Seen, registered: bool)
    requires Advances(g, g') && WorkerOK(g, v, q, seen, registered)
    ensures WorkerOK(g', v, q, seen, registered)
  {
  }

  lemma ConsumerAdvances(s: State, s': State)
    requires Inv(s) && s' == s.(ring := s'.ring, consumer := s'.consumer) && Advances(s.ring, s'.ring)
    requires Geometry(s'.ring) && EndOK(s'.ring, s'.consumer.Resetting?)
    requires ConsumerOK(s'.ring, |s.producers|, s'.consumer) && !s'.consumer.Observing?
    ensures Inv(s')
  {
    forall v | 0 <= v < |s'.producers|
      ensures WorkerOK(s'.ring, v, s'.producers[v], s'.seen[v], s'.registered[v])
    {
      assert WorkerOK(s.ring, v, s.producers[v], s.seen[v], s.registered[v]);
      AdvancesOthers(s.ring, s'.ring, v, s.producers[v], s.seen[v], s.registered[v]);
    }
  }

  lemma ClearedGeometry(g: Ring)
    requires Geometry(g)
    ensures Geometry(g.(end := OFF_MAX))
  {
    var g' := g.(end := OFF_MAX);
    assert g'.Tip() == g.Tip() && g'.Released() == g.Released();
    forall k | 0 <= k < |g'.log| ensures g'.log[k].done || PendingOK(g', g'.log[k]) {
      assert g.log[k].done || PendingOK(g, g.log[k]);
    }
  }

  lemma ClearEndStep(s: State, a: Action)
    requires Inv(s) && Enabled(s, a) && a.ClearEnd?
    ensures Inv(Apply(s, a))
  {
    ClearedGeometry(s.ring);
    ConsumerAdvances(s, Apply(s, a));
  }

  lemma ResetGeometry(g: Ring)
    requires Geometry(g) && AtCut(g)
    ensures Geometry(g.(written := 0, lag := g.cur))
  {
    var g' := g.(written := 0, lag := g.cur);
    assert g'.Tip() == g.Tip() && g'.Released() == g.Released();
    forall k | 0 <= k < |g'.log| ensures PlacedAt(g'.log[k], g'.cur, g'.lag) {
      assert PlacedAt(g.log[k], g.cur, g.lag);
    }
    forall k | 0 <= k < |g'.log| ensures g'.log[k].done || PendingOK(g', g'.log[k]) {
      assert g.log[k].done || PendingOK(g, g.log[k]);
    }
  }

  lemma ResetWrittenStep(s: State, a: Action)
    requires Inv(s) && Enabled(s, a) && a.ResetWritten?
    ensures Inv(Apply(s, a))
  {
    ResetGeometry(s.ring);
    ConsumerAdvances(s, Apply(s, a));
  }

  /* -------------------------------- release ------------------------------- */

  // The released position advances by n bytes, over the end of the lap or not.
  lemma FreedPosition(g: Ring, n: nat)
    requires Geometry(g) && Granted(g, n)
    ensures Freed(g, n).Released() == g.Released() + n && Freed(g, n).Tip() == g.Tip()
    ensures Shape(Freed(g, n)) && Hands(Freed(g, n))
    ensures g.written + n == g.space ==> g.Behind() && !g.HasCut()
  {
  }

  lemma FreedPlaced(g: Ring, n: nat)
    requires Geometry(g) && Granted(g, n)
    ensures Placed(Freed(g, n))
  {
    var g' := Freed(g, n);
    forall k | 0 <= k < |g'.log| ensures PlacedAt(g'.log[k], g'.cur, g'.lag) {
      assert PlacedAt(g.log[k], g.cur, g.lag);
    }
  }

  lemma FreedPending(g: Ring, n: nat)
    requires Geometry(g) && Granted(g, n)
    ensures Pending(Freed(g, n))
  {
    hide Chain, Placed, Boundary;
    var g' := Freed(g, n);
    FreedPosition(g, n);
    forall k | 0 <= k < |g'.log| ensures g'.log[k].done || PendingOK(g', g'.log[k]) {
      assert g.log[k].done || PendingOK(g, g.log[k]);
    }
  }

  lemma FreedGeometry(g: Ring, n: nat)
    requires Geometry(g) && Granted(g, n)
    ensures Geometry(Freed(g, n))
  {
    hide Chain, Placed, Pending, Hands, Shape, Boundary, Granted;
    FreedPosition(g, n);
    FreedPlaced(g, n);
    FreedPending(g, n);
  }

  lemma ReleaseRing(g: Ring, workers: nat, avail: nat, n: nat)
    requires Geometry(g) && EndOK(g, false) && n <= avail && ConsumerOK(g, workers, Ready(avail))
    ensures Geometry(Freed(g, n)) && EndOK(Freed(g, n), false)
    ensures ConsumerOK(Freed(g, n), workers, Ready(avail - n))
  {
    FreedPosition(g, n);
    FreedGeometry(g, n);
  }

  // Release may happen while a worker holds the lock bit of 'next'.
  lemma FreedOthers(g: Ring, n: nat, v: nat, q: Producer, seen: Seen, registered: bool)
    requires Geometry(g) && Granted(g, n) && (g.next.lock ==> g.HasCut()) && WorkerOK(g, v, q, seen, registered)
    ensures WorkerOK(Freed(g, n), v, q, seen, registered)
  {
    FreedPosition(g, n);
  }

  lemma ReleaseStep(s: State, a: Action)
    requires Inv(s) && Enabled(s, a) && a.Release?
    ensures Inv(Apply(s, a))
  {
    hide Geometry, Boundary, WorkerOK;
    var g, s' := s.ring, Apply(s, a);
    ReleaseRing(g, |s.producers|, s.consumer.avail, a.n);
    FreedPosition(g, a.n);
    forall v | 0 <= v < |s'.producers|
      ensures WorkerOK(s'.ring, v, s'.producers[v], s'.seen[v], s'.registered[v])
    {
      assert WorkerOK(g, v, s.producers[v], s.seen[v], s.registered[v]);
      FreedOthers(g, a.n, v, s.producers[v], s.seen[v], s.registered[v]);
    }
  }

  lemma ConsumerStep(s: State, a: Action)
    requires Inv(s) && Enabled(s, a) && !ByWorker(a)
    ensures Inv(Apply(s, a))
  {
    hide Inv, Enabled, Apply;
    match a
    case CallConsume => CallConsumeStep(s, a);
    case ReadNext => ReadNextStep(s, a);
    case CheckWorker => CheckWorkerStep(s, a);
    case ObserveWorker => ObserveWorkerStep(s, a);
    case EndScan => EndScanStep(s, a);
    case ReadEnd => ReadEndStep(s, a);
    case TestEnd => TestEndStep(s, a);
    case ClearEnd => ClearEndStep(s, a);
    case ResetWritten => ResetWrittenStep(s, a);
    case Release(n) => ReleaseStep(s, a);
  }
}
