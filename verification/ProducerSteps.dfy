/**
Every step of a worker keeps the invariant.
*/
module RingProducerSteps {
  import opened PackedWords
  import opened RingMachine
  import opened RingInvariant

  /* ----------------- steps of a worker that keep the ring ----------------- */

  // A worker moves from p to p', both owning the same ranges.
  lemma OwnersKept(log: seq<Record>, producers: seq<Producer>, w: nat, p: Producer)
    requires Owners(log, producers) && w < |producers|
    requires forall k :: Owns(producers[w], k) ==> Owns(p, k)
    ensures Owners(log, producers[w := p])
  {
  }

  lemma WorkerMoves(s: State, s': State, w: nat)
    requires Inv(s) && Sized(s') && w < |s.producers| == |s'.producers|
    requires s'.ring == s.ring && s'.consumer == s.consumer
    requires s'.producers == s.producers[w := s'.producers[w]]
    requires s'.seen == s.seen[w := s'.seen[w]]
    requires s'.registered == s.registered[w := s'.registered[w]]
    requires WorkerOK(s.ring, w, s'.producers[w], s'.seen[w], s'.registered[w])
    requires forall k :: Owns(s.producers[w], k) ==> Owns(s'.producers[w], k)
    requires s'.producers[w] != Unregistered(true)
    requires LockPhase(s.producers[w]) ==> LockPhase(s'.producers[w])
    ensures Inv(s')
  {
    OwnersKept(s.ring.log, s.producers, w, s'.producers[w]);
    forall v | 0 <= v < |s'.producers|
      ensures WorkerOK(s'.ring, v, s'.producers[v], s'.seen[v], s'.registered[v])
    {
      assert WorkerOK(s.ring, v, s.producers[v], s.seen[v], s.registered[v]);
    }
  }

  lemma RegistrationStep(s: State, a: Action)
    requires Inv(s) && Enabled(s, a) && (a.StoreClear? || a.StoreRegistered? || a.Unregister?)
    ensures Inv(Apply(s, a))
  {
    assert WorkerOK(s.ring, a.w, s.producers[a.w], s.seen[a.w], s.registered[a.w]);
    WorkerMoves(s, Apply(s, a), a.w);
  }

  lemma LoopStep(s: State, a: Action)
    requires Inv(s) && Enabled(s, a) && (a.CallAcquire? || a.LoadNext? || a.StoreSeen? || a.Refuse? || a.CasFail?)
    ensures Inv(Apply(s, a))
  {
    hide Chain, Placed, Pending, Boundary, Hands, ConsumerOK, Owners, EndOK, Locked;
    assert WorkerOK(s.ring, a.w, s.producers[a.w], s.seen[a.w], s.registered[a.w]);
    WorkerMoves(s, Apply(s, a), a.w);
  }

  lemma ClearSeenStep(s: State, a: Action)
    requires Inv(s) && Enabled(s, a) && a.ClearSeen?
    ensures Inv(Apply(s, a))
  {
    assert WorkerOK(s.ring, a.w, s.producers[a.w], s.seen[a.w], s.registered[a.w]);
    WorkerMoves(s, Apply(s, a), a.w);
  }

  // A decision taken on the current 'next' and 'written'.
  lemma DecisionSound(g: Ring, word: Word, len: nat, target: Word)
    requires Shape(g) && Hands(g) && word == g.next && !word.lock && 0 < len <= g.space
    requires Decide(g.space, word, len, g.written) == Move(target)
    ensures Sound(g, word, len, target)
  {
  }

  lemma LoadWrittenStep(s: State, a: Action)
    requires Inv(s) && Enabled(s, a) && a.LoadWritten?
    ensures Inv(Apply(s, a))
  {
    var w, g, p := a.w, s.ring, s.producers[a.w];
    assert WorkerOK(g, w, p, s.seen[w], s.registered[w]);
    var d := Decide(g.space, p.word, p.len, g.written);
    if d.Move? && p.lap == g.laps && p.word.off == g.next.off {
      DecisionSound(g, p.word, p.len, d.target);
    }
    WorkerMoves(s, Apply(s, a), w);
  }

  /* ---------------------------- the CAS succeeds -------------------------- */

  // No wrap-around was missed: a CAS that succeeds saw the current 'next'.
  lemma CasSawCurrent(g: Ring, word: Word, lap: nat)
    requires Shape(g) && Seasoned(g, word, lap) && word == g.next
    requires g.laps < lap + WRAP_MODULUS
    ensures lap == g.laps && !g.next.lock
  {
    ModularGap(lap, g.laps);
  }

  // Two lap counts less than 2^31 apart have the same counter only when equal.
  lemma ModularGap(lap: nat, laps: nat)
    requires lap <= laps < lap + WRAP_MODULUS && lap % WRAP_MODULUS == laps % WRAP_MODULUS
    ensures lap == laps
  {
    var m := WRAP_MODULUS;
    assert laps == laps / m * m + laps % m && lap == lap / m * m + lap % m;
  }

  // What the CAS of worker w may rely on.
  predicate Swaps(g: Ring, w: nat, p: Producer) {
    && Geometry(g) && p.Swapping? && p.word == g.next && !g.next.lock && 0 < p.len <= g.space
    && Sound(g, p.word, p.len, p.target)
  }

  lemma ReservedChain(g: Ring, w: nat, p: Producer)
    requires Swaps(g, w, p)
    ensures Chain(Reserved(g, w, p).log, Reserved(g, w, p).Tip())
    ensures Reserved(g, w, p).Tip() == g.Tip() + p.len
  {
    var g' := Reserved(g, w, p);
    assert g'.Tip() == g.Tip() + p.len;
    assert g'.log[|g.log|].base == g.Tip();
    forall k | 0 < k < |g'.log| ensures Follows(g'.log, k) {
      assert k < |g.log| ==> Follows(g.log, k);
    }
  }

  lemma ReservedHands(g: Ring, w: nat, p: Producer)
    requires Swaps(g, w, p)
    ensures Shape(Reserved(g, w, p)) && Hands(Reserved(g, w, p))
  {
  }

  lemma ReservedPlaced(g: Ring, w: nat, p: Producer)
    requires Swaps(g, w, p)
    ensures Placed(Reserved(g, w, p))
  {
    var g' := Reserved(g, w, p);
    forall k | 0 <= k < |g'.log| ensures PlacedAt(g'.log[k], g'.cur, g'.lag) {
      if k < |g.log| {
        assert PlacedAt(g.log[k], g.cur, g.lag);
      }
    }
  }

  lemma ReservedPending(g: Ring, w: nat, p: Producer)
    requires Swaps(g, w, p)
    ensures Pending(Reserved(g, w, p))
  {
    var g' := Reserved(g, w, p);
    forall k | 0 <= k < |g'.log| && !g'.log[k].done ensures PendingOK(g', g'.log[k]) {
      if k < |g.log| {
        assert g.log[k].done || PendingOK(g, g.log[k]);
      }
    }
  }

  // Boundaries stay boundaries when the log grows.
  lemma BoundaryExtends(log: seq<Record>, tip: nat, r: Record, tip': nat, x: nat)
    requires Boundary(log, tip, x) && r.base == tip
    ensures Boundary(log + [r], tip', x)
  {
    var log' := log + [r];
    if x == tip {
      assert log'[|log|].base == x;
    } else {
      var k :| 0 <= k < |log| && log[k].base == x;
      assert log'[k].base == x;
    }
  }

  lemma ReservedGeometry(g: Ring, w: nat, p: Producer)
    requires Swaps(g, w, p)
    ensures Geometry(Reserved(g, w, p))
  {
    var g' := Reserved(g, w, p);
    ReservedChain(g, w, p);
    ReservedHands(g, w, p);
    ReservedPlaced(g, w, p);
    ReservedPending(g, w, p);
    BoundaryExtends(g.log, g.Tip(), g'.log[|g.log|], g'.Tip(), g.cur);
    BoundaryExtends(g.log, g.Tip(), g'.log[|g.log|], g'.Tip(), g.Tip());
  }

  // Other workers: whoever read 'next' before can no longer succeed.
  lemma ReservedOthers(g: Ring, w: nat, p: Producer, v: nat, q: Producer, seen: Seen, registered: bool)
    requires Swaps(g, w, p) && WorkerOK(g, v, q, seen, registered)
    ensures WorkerOK(Reserved(g, w, p), v, q, seen, registered)
  {
  }

  // What the consumer needs to know about a successful CAS.
  predicate Grows(g: Ring, g': Ring, r: Record) {
    && g'.log == g.log + [r] && r.base == g.Tip() < g'.Tip()
    && g'.lag == g.lag && g'.written == g.written && g'.space == g.space
    && g.lag <= g.cur && g.Released() <= g.Tip()
    && (g.Behind() ==> g'.cur == g.cur && g'.next.lock == g.next.lock && !r.Wrapped())
    && (!g.Behind() ==> g'.cur == g.cur || g.Tip() <= g'.cur)
  }

  lemma ReservedGrows(g: Ring, w: nat, p: Producer)
    requires Swaps(g, w, p)
    ensures Grows(g, Reserved(g, w, p), Reserved(g, w, p).log[|g.log|])
  {
  }

  lemma GrowsView(g: Ring, g': Ring, r: Record, v: View)
    requires Grows(g, g', r) && ViewOK(g, v)
    ensures ViewOK(g', v)
  {
    BoundaryExtends(g.log, g.Tip(), r, g'.Tip(), v.tip);
  }

  lemma GrowsScan(g: Ring, g': Ring, r: Record, v: View, i: nat, ready: nat)
    requires Grows(g, g', r) && v.tip <= g.Tip() && ScanOK(g, v, i, ready)
    ensures ScanOK(g', v, i, ready)
  {
    if ready != OFF_MAX {
      BoundaryExtends(g.log, g.Tip(), r, g'.Tip(), g.lag + ready);
    }
  }

  lemma GrowsGranted(g: Ring, g': Ring, r: Record, n: nat)
    requires Grows(g, g', r) && Granted(g, n)
    ensures Granted(g', n)
  {
  }

  lemma GrowsConsumer(g: Ring, g': Ring, r: Record, workers: nat, c: Consumer)
    requires Grows(g, g', r) && ConsumerOK(g, workers, c)
    ensures ConsumerOK(g', workers, c)
  {
    match c
    case Ready(avail) =>
      GrowsGranted(g, g', r, avail);
      BoundaryExtends(g.log, g.Tip(), r, g'.Tip(), g.Released() + avail);
    case Reading(retried) =>
    case Checking(view, i, ready) =>
      GrowsView(g, g', r, view);
      GrowsScan(g, g', r, view, i, ready);
    case Observing(view, i, ready) =>
      GrowsView(g, g', r, view);
      GrowsScan(g, g', r, view, i, ready);
    case Limiting(view, ready) =>
      GrowsView(g, g', r, view);
      GrowsScan(g, g', r, view, workers, ready);
    case TestingEnd(retried) =>
    case ClearingEnd(retried) =>
    case Resetting(retried) =>
  }

  lemma ReservedEnd(g: Ring, w: nat, p: Producer, workers: nat, c: Consumer)
    requires Swaps(g, w, p) && EndOK(g, c.Resetting?) && ConsumerOK(g, workers, c)
    ensures EndOK(Reserved(g, w, p), c.Resetting?)
    ensures p.target.lock ==> Reserved(g, w, p).HasCut() && Reserved(g, w, p).end == OFF_MAX
  {
  }

  lemma ReservedOwner(g: Ring, w: nat, p: Producer)
    requires Swaps(g, w, p) && (p.target.lock ==> g.end == OFF_MAX)
    ensures WorkerOK(Reserved(g, w, p), w, Clearing(|g.log|, p.word.off, p.target), Seen(p.word.off, true), true)
  {
  }

  lemma ReservedOwners(g: Ring, w: nat, p: Producer, producers: seq<Producer>)
    requires Swaps(g, w, p) && Owners(g.log, producers) && w < |producers| && producers[w] == p
    ensures Owners(Reserved(g, w, p).log, producers[w := Clearing(|g.log|, p.word.off, p.target)])
  {
    var log' := Reserved(g, w, p).log;
    assert forall k | 0 <= k < |g.log| :: log'[k] == g.log[k];
  }

  lemma CasOkStep(s: State, a: Action)
    requires Inv(s) && FewWraps(s) && Enabled(s, a) && a.CasOk?
    ensures Inv(Apply(s, a))
  {
    var w, g, p := a.w, s.ring, s.producers[a.w];
    assert WorkerOK(g, w, p, s.seen[w], s.registered[w]);
    assert g.laps < ReadLap(p, g.laps) + WRAP_MODULUS;
    CasSawCurrent(g, p.word, p.lap);
    CasOkParts(s, Apply(s, a), w);
  }

  lemma CasOkWorkers(s: State, s': State, w: nat)
    requires Sized(s) && Workers(s) && w < |s.producers| && Swaps(s.ring, w, s.producers[w])
    requires s.producers[w].target.lock ==> s.ring.end == OFF_MAX
    requires s'.ring == Reserved(s.ring, w, s.producers[w])
    requires s'.producers == s.producers[w := Clearing(|s.ring.log|, s.producers[w].word.off, s.producers[w].target)]
    requires s'.seen == s.seen && s'.registered == s.registered
    ensures Workers(s')
  {
    var g, p := s.ring, s.producers[w];
    forall v | 0 <= v < |s'.producers|
      ensures WorkerOK(s'.ring, v, s'.producers[v], s'.seen[v], s'.registered[v])
    {
      assert WorkerOK(g, v, s.producers[v], s.seen[v], s.registered[v]);
      if v != w {
        ReservedOthers(g, w, p, v, s.producers[v], s.seen[v], s.registered[v]);
      } else {
        ReservedOwner(g, w, p);
      }
    }
  }

  lemma CasOkRing(g: Ring, w: nat, p: Producer, workers: nat, c: Consumer)
    requires Swaps(g, w, p) && ConsumerOK(g, workers, c)
    ensures Geometry(Reserved(g, w, p)) && ConsumerOK(Reserved(g, w, p), workers, c)
  {
    var g' := Reserved(g, w, p);
    ReservedGeometry(g, w, p);
    ReservedGrows(g, w, p);
    GrowsConsumer(g, g', g'.log[|g.log|], workers, c);
  }

  lemma CasOkLocked(g: Ring, w: nat, p: Producer, producers: seq<Producer>)
    requires Swaps(g, w, p) && w < |producers|
    ensures Locked(Reserved(g, w, p), producers[w := Clearing(|g.log|, p.word.off, p.target)])
  {
  }

  lemma CasOkParts(s: State, s': State, w: nat)
    requires Inv(s) && w < |s.producers| && Swaps(s.ring, w, s.producers[w])
    requires s'.ring == Reserved(s.ring, w, s.producers[w])
    requires s'.producers == s.producers[w := Clearing(|s.ring.log|, s.producers[w].word.off, s.producers[w].target)]
    requires s'.seen == s.seen && s'.registered == s.registered && s'.consumer == s.consumer
    ensures Inv(s')
  {
    var g, p := s.ring, s.producers[w];
    CasOkRing(g, w, p, |s.producers|, s.consumer);
    ReservedOwners(g, w, p, s.producers);
    ReservedEnd(g, w, p, |s.producers|, s.consumer);
    CasOkWorkers(s, s', w);
    CasOkLocked(g, w, p, s.producers);
  }

  /* ---------------------- storing 'end' and unlocking --------------------- */

  // g' differs from g only in 'end' and in the lock bit of 'next'.
  predicate SameHands(g: Ring, g': Ring) {
    g' == g.(end := g'.end, next := g.next.(lock := g'.next.lock))
  }

  lemma SameHandsGeometry(g: Ring, g': Ring)
    requires SameHands(g, g') && Geometry(g)
    ensures Geometry(g')
  {
    assert g'.Tip() == g.Tip() && g'.Released() == g.Released();
    forall k | 0 <= k < |g'.log| ensures g'.log[k].done || PendingOK(g', g'.log[k]) {
      assert g.log[k].done || PendingOK(g, g.log[k]);
    }
  }

  lemma SameHandsConsumer(g: Ring, g': Ring, workers: nat, c: Consumer)
    requires SameHands(g, g') && (g'.next.lock ==> g.next.lock) && ConsumerOK(g, workers, c)
    ensures ConsumerOK(g', workers, c)
  {
    assert g'.Tip() == g.Tip() && g'.Released() == g.Released();
  }

  // While 'next' is locked, a worker other than the locker is not in its phase.
  lemma SameHandsOthers(g: Ring, g': Ring, v: nat, q: Producer, seen: Seen, registered: bool)
    requires SameHands(g, g') && g.next.lock && g.locker != v
    requires WorkerOK(g, v, q, seen, registered)
    ensures WorkerOK(g', v, q, seen, registered)
  {
  }

  lemma LockerMoves(s: State, s': State, w: nat)
    requires Inv(s) && w < |s.producers| && LockPhase(s.producers[w])
    requires SameHands(s.ring, s'.ring) && Sized(s') && |s'.producers| == |s.producers|
    requires s'.producers == s.producers[w := s'.producers[w]]
    requires s'.seen == s.seen && s'.registered == s.registered && s'.consumer == s.consumer
    requires forall k :: Owns(s.producers[w], k) ==> Owns(s'.producers[w], k)
    requires WorkerOK(s'.ring, w, s'.producers[w], s'.seen[w], s'.registered[w])
    requires s'.ring.next.lock ==> LockPhase(s'.producers[w])
    requires !s'.ring.next.lock ==> s'.ring.end == s.ring.cur - s.ring.lag
    ensures Inv(s')
  {
    hide Chain, Placed, Pending, Boundary;
    assert WorkerOK(s.ring, w, s.producers[w], s.seen[w], s.registered[w]);
    assert s.ring.next.lock && s.ring.locker == w && s.ring.HasCut();
    assert Owns(s.producers[w], s.producers[w].k);
    SameHandsGeometry(s.ring, s'.ring);
    SameHandsConsumer(s.ring, s'.ring, |s.producers|, s.consumer);
    OwnersKept(s.ring.log, s.producers, w, s'.producers[w]);
    forall v | 0 <= v < |s'.producers|
      ensures WorkerOK(s'.ring, v, s'.producers[v], s'.seen[v], s'.registered[v])
    {
      assert WorkerOK(s.ring, v, s.producers[v], s.seen[v], s.registered[v]);
      if v != w {
        SameHandsOthers(s.ring, s'.ring, v, s.producers[v], s.seen[v], s.registered[v]);
      }
    }
  }

  // The range of the locker is the one that wrapped: it saw the cut.
  lemma LockerSawCut(g: Ring, w: nat, k: nat, target: Word)
    requires Geometry(g) && Acquired(g, w, k) && LockHeld(g, w, k, target)
    ensures g.HasCut() && g.log[k].seen == g.cur - g.lag
  {
    assert g.log[k].done || PendingOK(g, g.log[k]);
  }

  lemma StoreEndStep(s: State, a: Action)
    requires Inv(s) && Enabled(s, a) && a.StoreEnd?
    ensures Inv(Apply(s, a))
  {
    var p := s.producers[a.w];
    assert WorkerOK(s.ring, a.w, p, s.seen[a.w], s.registered[a.w]);
    LockerSawCut(s.ring, a.w, p.k, p.target);
    LockerMoves(s, Apply(s, a), a.w);
  }

  lemma UnlockStep(s: State, a: Action)
    requires Inv(s) && Enabled(s, a) && a.Unlock?
    ensures Inv(Apply(s, a))
  {
    var p := s.producers[a.w];
    assert WorkerOK(s.ring, a.w, p, s.seen[a.w], s.registered[a.w]);
    LockerSawCut(s.ring, a.w, p.k, p.target);
    LockerMoves(s, Apply(s, a), a.w);
  }

  /* ------------------------- filling and producing ------------------------ */

  // g' differs from g in the data of record k, whether it is done, and memory.
  predicate SameRanges(g: Ring, g': Ring, k: nat) {
    && k < |g.log| && |g'.log| == |g.log| && |g'.mem| == |g.mem|
    && g' == g.(log := g'.log, mem := g'.mem)
    && g'.log == g.log[k := g'.log[k]]
    && g'.log[k] == g.log[k].(data := g'.log[k].data, done := g'.log[k].done)
    && |g'.log[k].data| == |g.log[k].data|
    && (g.log[k].done ==> g'.log[k].done)
  }

  lemma SameRangesBoundary(g: Ring, g': Ring, k: nat, x: nat)
    requires SameRanges(g, g', k) && Boundary(g.log, g.Tip(), x)
    ensures Boundary(g'.log, g'.Tip(), x)
  {
    if x != g.Tip() {
      var j :| 0 <= j < |g.log| && g.log[j].base == x;
      assert g'.log[j].base == x;
    }
  }

  lemma SameRangesChain(g: Ring, g': Ring, k: nat)
    requires SameRanges(g, g', k) && Chain(g.log, g.Tip())
    ensures Chain(g'.log, g'.Tip())
  {
    SameBases(g.log, g'.log, g.Tip());
  }

  lemma SameBases(log: seq<Record>, log': seq<Record>, tip: nat)
    requires Chain(log, tip) && |log'| == |log|
    requires forall j | 0 <= j < |log| ::
               log'[j].base == log[j].base && log'[j].len == log[j].len && |log'[j].data| == |log[j].data|
    ensures Chain(log', tip)
  {
    forall j | 0 < j < |log'| ensures Follows(log', j) {
      assert Follows(log, j);
    }
  }

  lemma SameRangesPlaced(g: Ring, g': Ring, k: nat)
    requires SameRanges(g, g', k) && Placed(g) && Pending(g)
    ensures Placed(g') && Pending(g')
  {
    forall j | 0 <= j < |g'.log| ensures PlacedAt(g'.log[j], g'.cur, g'.lag) {
      assert PlacedAt(g.log[j], g.cur, g.lag);
    }
    forall j | 0 <= j < |g'.log| ensures g'.log[j].done || PendingOK(g', g'.log[j]) {
      assert g.log[j].done || PendingOK(g, g.log[j]);
    }
  }

  lemma SameRangesGeometry(g: Ring, g': Ring, k: nat)
    requires SameRanges(g, g', k) && Geometry(g)
    ensures Geometry(g')
  {
    SameRangesBoundary(g, g', k, g.cur);
    SameRangesChain(g, g', k);
    SameRangesPlaced(g, g', k);
  }

  lemma SameRangesView(g: Ring, g': Ring, k: nat, v: View)
    requires SameRanges(g, g', k) && ViewOK(g, v)
    ensures ViewOK(g', v)
  {
    SameRangesBoundary(g, g', k, v.tip);
  }

  lemma SameRangesScan(g: Ring, g': Ring, k: nat, v: View, i: nat, ready: nat)
    requires SameRanges(g, g', k) && ScanOK(g, v, i, ready)
    ensures ScanOK(g', v, i, ready)
  {
    if ready != OFF_MAX {
      SameRangesBoundary(g, g', k, g.lag + ready);
    }
  }

  lemma SameRangesConsumer(g: Ring, g': Ring, k: nat, workers: nat, c: Consumer)
    requires SameRanges(g, g', k) && ConsumerOK(g, workers, c)
    ensures ConsumerOK(g', workers, c)
  {
    match c
    case Ready(avail) =>
      SameRangesBoundary(g, g', k, g.Released() + avail);
    case Reading(retried) =>
    case Checking(view, i, ready) =>
      SameRangesView(g, g', k, view);
      SameRangesScan(g, g', k, view, i, ready);
    case Observing(view, i, ready) =>
      SameRangesView(g, g', k, view);
      SameRangesScan(g, g', k, view, i, ready);
    case Limiting(view, ready) =>
      SameRangesView(g, g', k, view);
      SameRangesScan(g, g', k, view, workers, ready);
    case TestingEnd(retried) =>
    case ClearingEnd(retried) =>
    case Resetting(retried) =>
  }

  lemma SameRangesOthers(g: Ring, g': Ring, k: nat, v: nat, q: Producer, seen: Seen, registered: bool)
    requires SameRanges(g, g', k) && (g'.log[k].done ==> g.log[k].done || g.log[k].owner != v)
    requires WorkerOK(g, v, q, seen, registered)
    ensures WorkerOK(g', v, q, seen, registered)
  {
  }

  lemma HolderMoves(s: State, s': State, w: nat, k: nat)
    requires Inv(s) && w < |s.producers| && s.producers[w] == Holding(k)
    requires SameRanges(s.ring, s'.ring, k) && Sized(s') && |s'.producers| == |s.producers|
    requires s'.producers == s.producers[w := s'.producers[w]]
    requires s'.seen == s.seen[w := s'.seen[w]] && s'.registered == s.registered && s'.consumer == s.consumer
    requires WorkerOK(s'.ring, w, s'.producers[w], s'.seen[w], s'.registered[w])
    requires s'.ring.log[k].done || s'.producers[w] == Holding(k)
    requires !s'.producers[w].Unregistered?
    ensures Inv(s')
  {
    hide Chain, Placed, Pending, Boundary, WorkerOK, ConsumerOK;
    HolderWorkers(s, s', w, k);
    SameRangesGeometry(s.ring, s'.ring, k);
    SameRangesConsumer(s.ring, s'.ring, k, |s.producers|, s.consumer);
  }

  lemma HolderWorkers(s: State, s': State, w: nat, k: nat)
    requires Sized(s) && Workers(s) && w < |s.producers| && s.producers[w] == Holding(k)
    requires SameRanges(s.ring, s'.ring, k) && Sized(s') && |s'.producers| == |s.producers|
    requires s'.producers == s.producers[w := s'.producers[w]]
    requires s'.seen == s.seen[w := s'.seen[w]] && s'.registered == s.registered
    requires WorkerOK(s'.ring, w, s'.producers[w], s'.seen[w], s'.registered[w])
    ensures Workers(s')
  {
    assert WorkerOK(s.ring, w, s.producers[w], s.seen[w], s.registered[w]);
    forall v | 0 <= v < |s'.producers|
      ensures WorkerOK(s'.ring, v, s'.producers[v], s'.seen[v], s'.registered[v])
    {
      assert WorkerOK(s.ring, v, s.producers[v], s.seen[v], s.registered[v]);
      if v != w {
        SameRangesOthers(s.ring, s'.ring, k, v, s.producers[v], s.seen[v], s.registered[v]);
      }
    }
  }

  lemma FillStep(s: State, a: Action)
    requires Inv(s) && Enabled(s, a) && a.Fill?
    ensures Inv(Apply(s, a))
  {
    assert WorkerOK(s.ring, a.w, s.producers[a.w], s.seen[a.w], s.registered[a.w]);
    HolderMoves(s, Apply(s, a), a.w, s.producers[a.w].k);
  }

  lemma ProduceStep(s: State, a: Action)
    requires Inv(s) && Enabled(s, a) && a.Produce?
    ensures Inv(Apply(s, a))
  {
    assert WorkerOK(s.ring, a.w, s.producers[a.w], s.seen[a.w], s.registered[a.w]);
    HolderMoves(s, Apply(s, a), a.w, s.producers[a.w].k);
  }

  lemma WorkerStep(s: State, a: Action)
    requires Inv(s) && FewWraps(s) && Enabled(s, a) && ByWorker(a)
    ensures Inv(Apply(s, a))
  {
    hide Inv, Enabled, Apply, FewWraps;
    match a
    case StoreClear(w) => RegistrationStep(s, a);
    case StoreRegistered(w) => RegistrationStep(s, a);
    case Unregister(w) => RegistrationStep(s, a);
    case CallAcquire(w, len) => LoopStep(s, a);
    case LoadNext(w) => LoopStep(s, a);
    case StoreSeen(w) => LoopStep(s, a);
    case LoadWritten(w) => LoadWrittenStep(s, a);
    case Refuse(w) => LoopStep(s, a);
    case CasFail(w) => LoopStep(s, a);
    case CasOk(w) => CasOkStep(s, a);
    case ClearSeen(w) => ClearSeenStep(s, a);
    case StoreEnd(w) => StoreEndStep(s, a);
    case Unlock(w) => UnlockStep(s, a);
    case Fill(w, j, v) => FillStep(s, a);
    case Produce(w) => ProduceStep(s, a);
  }
}
