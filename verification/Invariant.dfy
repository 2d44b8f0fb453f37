/**
The inductive invariant of the ring: what every reachable state satisfies,
whatever the interleaving.
*/
module RingInvariant {
  import opened PackedWords
  import opened RingMachine

  /* ------------------------------- the log -------------------------------- */

  predicate Follows(log: seq<Record>, k: nat)
    requires 0 < k < |log|
  {
    log[k].base == log[k - 1].Limit()
  }

  // The ranges tile the stream from position 0 up to `tip`, in log order.
  predicate Chain(log: seq<Record>, tip: nat) {
    && (forall k | 0 <= k < |log| :: 0 < log[k].len == |log[k].data| && log[k].Limit() <= tip)
    && (forall j, k | 0 <= j < k < |log| :: log[j].Limit() <= log[k].base)
    && (forall k | 0 < k < |log| :: Follows(log, k))
    && (if |log| == 0 then tip == 0 else log[0].base == 0 && log[|log| - 1].Limit() == tip)
  }

  // x is the stream position where some record starts, or the next one will.
  predicate Boundary(log: seq<Record>, tip: nat, x: nat) {
    x == tip || exists k | 0 <= k < |log| :: log[k].base == x
  }

  // No record straddles a lap, and records of the last two laps sit in the
  // buffer where their stream position says.
  predicate PlacedAt(r: Record, cur: nat, lag: nat) {
    && (r.base < cur ==> r.Limit() <= cur)
    && (r.base < lag ==> r.Limit() <= lag)
    && (cur <= r.base ==> r.phys == r.base - cur)
    && (lag <= r.base < cur ==> r.phys == r.base - lag)
  }

  /* ----------------------------- the geometry ----------------------------- */

  predicate Shape(g: Ring) {
    && |g.mem| == g.space
    && 0 < g.space < OFF_MASK
    && g.next.off < g.space && g.next.wrap == g.laps % WRAP_MODULUS
  }

  // Where the two hands are.  A lap behind, 'written' is strictly above 'next'
  // and at most at the cut; in the same lap it is at most at 'next'.
  predicate Hands(g: Ring) {
    && g.lag <= g.cur
    && (!g.Behind() ==> g.written <= g.next.off)
    && (g.Behind() ==> g.next.off < g.written <= g.cur - g.lag <= g.space && g.written < g.space)
    && (g.HasCut() ==> 0 < g.next.off)
  }

  predicate Placed(g: Ring) {
    forall k | 0 <= k < |g.log| :: PlacedAt(g.log[k], g.cur, g.lag)
  }

  // A range that is not yet produced is not released.  Its owner saw the start
  // of the range in 'next', or else the old end, having wrapped by exceeding
  // the space, and then the consumer has not followed.
  predicate PendingOK(g: Ring, r: Record) {
    && g.Released() <= r.base
    && (r.Wrapped() ==> r.base == g.cur && g.HasCut() && r.seen == g.cur - g.lag)
    && (r.base == g.cur && g.HasCut() ==> r.Wrapped())
  }

  predicate Pending(g: Ring) {
    forall k | 0 <= k < |g.log| :: g.log[k].done || PendingOK(g, g.log[k])
  }

  predicate Geometry(g: Ring) {
    && Shape(g)
    && Hands(g)
    && Chain(g.log, g.Tip())
    && Boundary(g.log, g.Tip(), g.cur)
    && Placed(g)
    && Pending(g)
  }

  /* ------------------------------ the workers ----------------------------- */

  predicate HasRange(p: Producer) {
    p.Clearing? || p.StoringEnd? || p.Unlocking? || p.Holding?
  }

  predicate Owns(p: Producer, k: nat) {
    HasRange(p) && p.k == k
  }

  predicate LockPhase(p: Producer) {
    (p.Clearing? && p.target.lock) || p.StoringEnd? || p.Unlocking?
  }

  // Every range that is not yet produced has an owner.
  predicate Owners(log: seq<Record>, producers: seq<Producer>) {
    forall k | 0 <= k < |log| ::
      log[k].done || (log[k].owner < |producers| && Owns(producers[log[k].owner], k))
  }

  // The value of 'next' a worker read is not newer than the current one.
  predicate Seasoned(g: Ring, word: Word, lap: nat) {
    && !word.lock && word.wrap == lap % WRAP_MODULUS
    && (lap < g.laps || (lap == g.laps && word.off <= g.next.off && !g.next.lock))
  }

  // The CAS of a worker that saw the current 'next' leads to a sound state,
  // even when the 'written' it decided on is stale by now.
  predicate Sound(g: Ring, word: Word, len: nat, target: Word) {
    if word.off + len < g.space then
      && target == Word(word.off + len, word.wrap, false)
      && (g.Behind() ==> word.off + len < g.written)
    else
      var exceed := word.off + len > g.space;
      && !g.Behind()
      && target == Word(if exceed then len else 0, (word.wrap + 1) % WRAP_MODULUS, exceed)
      && target.off < g.written
  }

  predicate Acquired(g: Ring, w: nat, k: nat) {
    k < |g.log| && g.log[k].owner == w && !g.log[k].done
  }

  predicate LockHeld(g: Ring, w: nat, k: nat, target: Word) {
    && g.next.lock && g.locker == w
    && g.next == target && target.off <= g.space
    && k < |g.log| && g.log[k].Wrapped()
  }

  predicate WorkerOK(g: Ring, w: nat, p: Producer, seen: Seen, registered: bool) {
    match p
    case Unregistered(pristine) => !registered && (pristine || seen == CLEAR)
    case Registering => !registered && seen == CLEAR
    case Idle => registered && seen == CLEAR
    case Loading(len) => registered && 0 < len <= g.space && (seen.lock || seen == CLEAR)
    case Publishing(len, word, lap) =>
      registered && 0 < len <= g.space && (seen.lock || seen == CLEAR) && Seasoned(g, word, lap)
    case Deciding(len, word, lap) =>
      registered && 0 < len <= g.space && seen == Seen(word.off, true) && Seasoned(g, word, lap)
    case Refusing => registered && seen.lock
    case Swapping(len, word, lap, target) =>
      && registered && 0 < len <= g.space && seen == Seen(word.off, true) && Seasoned(g, word, lap)
      && (lap == g.laps && word.off == g.next.off ==> Sound(g, word, len, target))
    case Clearing(k, prev, target) =>
      && registered && Acquired(g, w, k) && seen == Seen(g.log[k].seen, true) && prev == g.log[k].seen
      && target.off <= g.space
      && (target.lock ==> LockHeld(g, w, k, target) && g.end == OFF_MAX)
    case StoringEnd(k, prev, target) =>
      && registered && Acquired(g, w, k) && seen == Seen(g.log[k].seen, false) && prev == g.log[k].seen
      && LockHeld(g, w, k, target) && g.end == OFF_MAX
    case Unlocking(k, target) =>
      && registered && Acquired(g, w, k) && seen == Seen(g.log[k].seen, false)
      && LockHeld(g, w, k, target) && g.end == g.cur - g.lag
    case Holding(k) =>
      registered && Acquired(g, w, k) && seen == Seen(g.log[k].seen, false)
  }

  predicate Workers(s: State)
    requires Sized(s)
  {
    forall w | 0 <= w < |s.producers| :: WorkerOK(s.ring, w, s.producers[w], s.seen[w], s.registered[w])
  }

  // While 'next' is locked, its locker is between its CAS and its unlock.
  predicate Locked(g: Ring, producers: seq<Producer>) {
    g.next.lock ==> g.locker < |producers| && LockPhase(producers[g.locker]) && g.HasCut()
  }

  /* ------------------- the 'end' offset and the consumer ------------------ */

  predicate EndOK(g: Ring, resetting: bool) {
    && (!g.HasCut() ==> g.end == OFF_MAX)
    && (g.HasCut() && !g.next.lock ==> g.end == if resetting then OFF_MAX else g.cur - g.lag)
  }

  // The next n bytes of the stream are produced.
  predicate Granted(g: Ring, n: nat) {
    && g.Released() + n <= (if g.Behind() then g.cur else g.Tip())
    && (forall k | 0 <= k < |g.log| :: g.log[k].done || g.Released() + n <= g.log[k].base)
  }

  predicate ViewOK(g: Ring, v: View) {
    && (v.retried ==> g.written == 0)
    && v.next < g.space
    && v.tip <= g.Tip()
    && v.tip == v.next + (if v.lapped then g.cur else g.lag)
    && (v.lapped ==> g.Behind() && !g.next.lock && v.next < g.written)
    && (!v.lapped ==> g.written < v.next && v.tip <= if g.Behind() then g.cur else g.Tip())
    && (v.lapped ==> forall k | 0 <= k < |g.log| :: g.log[k].done || !g.log[k].Wrapped() || g.log[k].base < v.tip)
    && Boundary(g.log, g.Tip(), v.tip)
  }

  // Workers below i were observed: 'ready' is at most the 'seen' value of each
  // of them that holds a range acquired before 'next' was read, and it is a
  // record boundary of the consumer's lap.
  predicate ScanOK(g: Ring, v: View, i: nat, ready: nat) {
    && g.written <= ready
    && (ready == OFF_MAX || (ready <= g.space && Boundary(g.log, g.Tip(), g.lag + ready)))
    && (forall k | 0 <= k < |g.log| ::
          g.log[k].done || g.log[k].base >= v.tip || g.log[k].owner >= i || g.log[k].seen < g.written
          || ready <= g.log[k].seen)
  }

  // The consumer is at the cut, and the worker that wrapped has produced.
  predicate AtCut(g: Ring) {
    && g.HasCut() && !g.next.lock && g.written == g.cur - g.lag
    && (forall k | 0 <= k < |g.log| :: g.log[k].done || !g.log[k].Wrapped())
  }

  predicate ConsumerOK(g: Ring, workers: nat, c: Consumer) {
    match c
    case Ready(avail) => Granted(g, avail) && Boundary(g.log, g.Tip(), g.Released() + avail)
    case Reading(retried) => retried ==> g.written == 0
    case Checking(view, i, ready) => ViewOK(g, view) && ScanOK(g, view, i, ready) && i <= workers
    case Observing(view, i, ready) => ViewOK(g, view) && ScanOK(g, view, i, ready) && i < workers
    case Limiting(view, ready) => ViewOK(g, view) && ScanOK(g, view, workers, ready) && view.lapped
    case TestingEnd(retried) => AtCut(g) && !retried
    case ClearingEnd(retried) => AtCut(g) && !retried
    case Resetting(retried) => AtCut(g) && !retried
  }

  // The worker being observed registered at some time.
  predicate Observed(producers: seq<Producer>, c: Consumer) {
    c.Observing? && c.i < |producers| ==> producers[c.i] != Unregistered(true)
  }

  predicate Inv(s: State) {
    && Sized(s)
    && Observed(s.producers, s.consumer)
    && Geometry(s.ring)
    && Owners(s.ring.log, s.producers)
    && Workers(s)
    && Locked(s.ring, s.producers)
    && EndOK(s.ring, s.consumer.Resetting?)
    && ConsumerOK(s.ring, |s.producers|, s.consumer)
  }

  lemma InitEstablishesInv(s: State)
    requires Init(s)
    ensures Inv(s)
  {
  }
}
